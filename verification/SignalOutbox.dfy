/** The durable signal outbox: any number of `kookr signal` processes and daemon drains share
    one spool file, which each of them reads and later rewrites as a whole. */
module SignalOutbox {
  import opened Wrappers
  import opened SignalSpool

  type ProcessId = nat

  /** What a POST came to. */
  datatype Answer = Delivered | Rejected(status: int) | NoAnswer

  predicate IsPermanentRejection(status: int) {
    400 <= status < 500
  }

  /** The answer settles the signal: it need not be sent again. */
  predicate Settles(a: Answer) {
    a.Delivered? || (a.Rejected? && IsPermanentRejection(a.status))
  }

  // ---- processes ----

  /** How far one invocation has got. `seen` is what it last read, at step `readAt`. */
  datatype Phase =
    | Idle                                                  // about to read the spool for its append
    | Appending(readAt: nat, seen: Spool)
    | Queued                                                // about to POST its own signal
    | Answered(answer: Answer)
    | Removing(answer: Answer, readAt: nat, seen: Spool)
    | DrainStart                                            // about to read the spool for a drain
    | DrainRead(readAt: nat, seen: Spool)                   // about to write it back if the bounds drop something
    | Draining(readAt: nat, todo: Spool, remaining: Spool)
    | Finished

  datatype Process = Process(own: Entry, phase: Phase)

  /** The spool file and the processes; `step` counts the events. The rest is history: when
      each signal first reached the file, which signals got a settling answer and which a
      2xx, every answer so far, and the server's list of recorded signals. */
  datatype State = State(
    file: Spool,
    processes: map<ProcessId, Process>,
    step: nat,
    appendedAt: map<SignalId, nat>,
    settled: set<SignalId>,
    delivered: set<SignalId>,
    answers: seq<(SignalId, Answer)>,
    recorded: seq<SignalId>)

  /** What the environment decides in a step: whether a file operation works, whether the
      server takes the request, its answer, and the clock. */
  datatype Input = Input(works: bool, reached: bool, answer: Answer, clock: int)

  datatype Event =
    | Begin(p: ProcessId, own: Entry)   // `kookr signal` is invoked
    | BeginDrain(p: ProcessId)          // the daemon starts a drain of its own
    | Move(p: ProcessId, input: Input)

  function At(s: State, p: ProcessId, phase: Phase): State
    requires p in s.processes
  {
    s.(processes := s.processes[p := s.processes[p].(phase := phase)])
  }

  /** The server records a signal id once and replays it afterwards. */
  function Record(recorded: seq<SignalId>, id: SignalId): seq<SignalId> {
    if id in recorded then recorded else recorded + [id]
  }

  function Exchange(s: State, id: SignalId, i: Input): State {
    s.(recorded := if i.reached then Record(s.recorded, id) else s.recorded,
       answers := s.answers + [(id, i.answer)],
       settled := if Settles(i.answer) then s.settled + {id} else s.settled,
       delivered := if i.answer.Delivered? then s.delivered + {id} else s.delivered)
  }

  function Without(s: Spool, id: SignalId): Spool {
    if s == [] then [] else Without(s[..|s| - 1], id) + if s[|s| - 1].id == id then [] else [s[|s| - 1]]
  }

  function AfterRemove(a: Answer): Phase {
    if a.Delivered? then DrainStart else Finished
  }

  function Step(s: State, p: ProcessId, i: Input): State
    requires p in s.processes
  {
    var own := s.processes[p].own;
    match s.processes[p].phase
    case Idle => At(s, p, if i.works then Appending(s.step, ReadPending(s.file)) else Queued)
    case Appending(_, seen) =>
      if !i.works || own.id in Ids(seen) then At(s, p, Queued)
      else At(s, p, Queued).(file := AppendTo(seen, own, i.clock),
                             appendedAt := if own.id in s.appendedAt then s.appendedAt else s.appendedAt[own.id := s.step])
    case Queued => At(Exchange(s, own.id, i), p, Answered(i.answer))
    case Answered(a) =>
      if !Settles(a) then At(s, p, Finished)
      else At(s, p, if i.works then Removing(a, s.step, ReadPending(s.file)) else AfterRemove(a))
    case Removing(a, _, seen) =>
      var t := At(s, p, AfterRemove(a));
      if i.works && own.id in Ids(seen) then t.(file := Without(seen, own.id)) else t
    case DrainStart => At(s, p, if i.works then DrainRead(s.step, ReadPending(s.file)) else Finished)
    case DrainRead(readAt, seen) =>
      var kept := Bound(seen, i.clock, MAX_ENTRIES);
      var t := At(s, p, if kept == [] then Finished else Draining(readAt, kept, []));
      if |kept| == |seen| then t else if i.works then t.(file := kept) else At(s, p, Finished)
    case Draining(readAt, todo, remaining) =>
      if todo != [] then
        var t := Exchange(s, todo[0].id, i);
        var again := todo[0].(attempts := todo[0].attempts + 1);
        At(t, p, Draining(readAt, todo[1..], if Settles(i.answer) then remaining else remaining + [again]))
      else
        var t := At(s, p, Finished);
        if i.works then t.(file := remaining) else t
    case Finished => s
  }

  /** A 2xx comes from a server that has taken the signal. */
  ghost predicate Enabled(s: State, e: Event) {
    match e
    case Begin(p, _) => p !in s.processes
    case BeginDrain(p) => p !in s.processes
    case Move(p, i) => p in s.processes && (i.answer.Delivered? ==> i.reached)
  }

  function Next(s: State, e: Event): State {
    var t := match e
      case Begin(p, own) => s.(processes := s.processes[p := Process(own, Idle)])
      case BeginDrain(p) => s.(processes := s.processes[p := Process(Entry("", 0, "", 0), DrainStart)])
      case Move(p, i) => if p in s.processes then Step(s, p, i) else s;
    t.(step := s.step + 1)
  }

  // ---- when a step loses a signal ----

  /** Appended, and neither delivered nor refused for good. */
  predicate Pending(s: State, id: SignalId) {
    id in s.appendedAt && id !in s.settled
  }

  /** Every pending signal is in the spool file. */
  ghost predicate Accounted(s: State) {
    forall id :: Pending(s, id) ==> id in Ids(s.file)
  }

  /** No pending signal but `own` first reached the file after step `readAt`. */
  ghost predicate NotOvertaken(s: State, readAt: nat, own: SignalId) {
    forall id :: Pending(s, id) && id != own ==> s.appendedAt[id] < readAt
  }

  /** No pending signal but `own` is too old or has `limit` young ones behind it. */
  ghost predicate AllKept(s: State, seen: Spool, now: int, limit: nat, own: SignalId) {
    forall id :: Pending(s, id) && id != own ==> Keeps(seen, id, now, limit)
  }

  /** If the step rewrites the spool file, no pending signal has reached the file since the
      writer read it, and the bounds, for a rewrite that applies them, spare every one. */
  ghost predicate Safe(s: State, e: Event) {
    e.Move? && e.p in s.processes && e.input.works ==>
      var own := s.processes[e.p].own.id;
      match s.processes[e.p].phase
      case Appending(readAt, seen) =>
        own !in Ids(seen) ==> NotOvertaken(s, readAt, own) && AllKept(s, seen, e.input.clock, 199, own)
      case Removing(_, readAt, seen) => own in Ids(seen) ==> NotOvertaken(s, readAt, own)
      case DrainRead(readAt, seen) =>
        Prunes(seen, e.input.clock) ==>
          && (forall id :: Pending(s, id) ==> s.appendedAt[id] < readAt)
          && (forall id :: Pending(s, id) ==> Keeps(seen, id, e.input.clock, 200))
      case Draining(readAt, todo, _) => todo == [] ==> forall id :: Pending(s, id) ==> s.appendedAt[id] < readAt
      case _ => true
  }

  // ---- what every step keeps as long as nothing is lost ----

  /** `ids` are signals that had reached the file before step `readAt`, among them all that
      are still pending. */
  ghost predicate Tracks(s: State, ids: set<SignalId>, readAt: nat) {
    && readAt < s.step
    && (forall id :: id in ids ==> id in s.appendedAt && s.appendedAt[id] < readAt)
    && (forall id :: Pending(s, id) && s.appendedAt[id] < readAt ==> id in ids)
  }

  ghost predicate ProcessOk(s: State, proc: Process) {
    match proc.phase
    case Appending(readAt, seen) => Tracks(s, Ids(seen), readAt) && Sorted(seen)
    case Answered(a) => Settles(a) ==> proc.own.id in s.settled
    case Removing(_, readAt, seen) => Tracks(s, Ids(seen), readAt) && proc.own.id in s.settled
    case DrainRead(readAt, seen) => Tracks(s, Ids(seen), readAt) && Sorted(seen)
    case Draining(readAt, todo, remaining) => Tracks(s, Ids(todo) + Ids(remaining), readAt)
    case _ => true
  }

  ghost predicate ProcessesOk(s: State) {
    forall p :: p in s.processes ==> ProcessOk(s, s.processes[p])
  }

  ghost predicate FileOk(s: State) {
    && (forall id :: id in Ids(s.file) ==> id in s.appendedAt)
    && (forall id :: id in s.appendedAt ==> s.appendedAt[id] < s.step)
  }

  ghost predicate Inv(s: State) {
    Accounted(s) && FileOk(s) && ProcessesOk(s)
  }

  /** `t` comes after `s`: what has reached the file or been settled stays so, and what is
      new in the file is newer than `s`. */
  ghost predicate Later(s: State, t: State) {
    && s.step < t.step && s.settled <= t.settled
    && (forall id :: id in s.appendedAt ==> id in t.appendedAt && t.appendedAt[id] == s.appendedAt[id])
    && (forall id :: id in t.appendedAt && id !in s.appendedAt ==> t.appendedAt[id] == s.step)
  }

  lemma NextIsLater(s: State, e: Event)
    ensures Later(s, Next(s, e))
  {
    hide Ids, AppendTo, Bound, ReadPending, Without, Record;
  }

  lemma TracksLater(s: State, t: State, ids: set<SignalId>, readAt: nat)
    requires Tracks(s, ids, readAt) && Later(s, t)
    ensures Tracks(t, ids, readAt)
  {
  }

  lemma OkLater(s: State, t: State, proc: Process)
    requires ProcessOk(s, proc) && Later(s, t)
    ensures ProcessOk(t, proc)
  {
    hide Tracks, Sorted, Ids;
    match proc.phase
    case Appending(readAt, seen) => TracksLater(s, t, Ids(seen), readAt);
    case Removing(_, readAt, seen) => TracksLater(s, t, Ids(seen), readAt);
    case DrainRead(readAt, seen) => TracksLater(s, t, Ids(seen), readAt);
    case Draining(readAt, todo, remaining) => TracksLater(s, t, Ids(todo) + Ids(remaining), readAt);
    case _ =>
  }

  /** Reading an accounted file sees everything that is pending. */
  lemma ReadTracks(s: State, t: State)
    requires Accounted(s) && FileOk(s) && Later(s, t) && t.appendedAt == s.appendedAt
    ensures Tracks(t, Ids(ReadPending(s.file)), s.step) && Sorted(ReadPending(s.file))
  {
    hide Ids, ReadPending, Sorted;
    ReadFacts(s.file);
  }

  lemma {:induction false} WithoutIds(s: Spool, id: SignalId)
    ensures Ids(Without(s, id)) == Ids(s) - {id}
  {
    hide Ids;
    if s != [] {
      var init, e := s[..|s| - 1], s[|s| - 1];
      WithoutIds(init, id);
      IdsLast(s);
      if e.id != id {
        IdsLast(Without(init, id) + [e]);
        assert (Without(init, id) + [e])[..|Without(init, id)|] == Without(init, id);
      } else {
        assert Without(init, id) + [] == Without(init, id);
      }
    } else {
      NoIds();
    }
  }

  /** A drain keeps track of every signal that it has yet to settle. */
  lemma DrainIds(todo: Spool, remaining: Spool, again: Entry)
    requires todo != [] && again.id == todo[0].id
    ensures Ids(todo) == Ids(todo[1..]) + {todo[0].id} && Ids(remaining + [again]) == Ids(remaining) + {todo[0].id}
  {
    IdsSplit([todo[0]], todo[1..]);
    IdsSplit(remaining, [again]);
    assert todo == [todo[0]] + todo[1..];
  }

  lemma DrainGoesOn(s: State, t: State, todo: Spool, remaining: Spool, again: Entry, readAt: nat)
    requires todo != [] && again.id == todo[0].id && Tracks(s, Ids(todo) + Ids(remaining), readAt) && Later(s, t)
    ensures Tracks(t, Ids(todo[1..]) + Ids(remaining + [again]), readAt)
    ensures todo[0].id in t.settled ==> Tracks(t, Ids(todo[1..]) + Ids(remaining), readAt)
  {
    hide Ids;
    TracksLater(s, t, Ids(todo) + Ids(remaining), readAt);
    DrainIds(todo, remaining, again);
    assert Ids(todo[1..]) + Ids(remaining + [again]) == Ids(todo) + Ids(remaining);
  }

  /** What a drain goes on with after the bounds spared every pending signal. */
  lemma DrainBegins(s: State, t: State, seen: Spool, clock: int, readAt: nat)
    requires Tracks(s, Ids(seen), readAt) && Sorted(seen) && Later(s, t)
    requires Prunes(seen, clock) ==> forall id :: Pending(s, id) ==> Keeps(seen, id, clock, MAX_ENTRIES)
    ensures Tracks(t, Ids(Bound(seen, clock, MAX_ENTRIES)) + Ids([]), readAt)
  {
    hide Bound, Keeps, Prunes, Ids;
    var kept := Bound(seen, clock, MAX_ENTRIES);
    NoIds();
    assert Ids(kept) + Ids([]) == Ids(kept);
    BoundKeepsAll(seen, clock);
    BoundShrinks(seen, clock);
    forall id | Pending(s, id) ensures Prunes(seen, clock) ==> id in Ids(kept) {
      BoundKeeps(seen, clock, MAX_ENTRIES, id);
    }
    assert Tracks(s, Ids(kept), readAt);
    TracksLater(s, t, Ids(kept), readAt);
  }

  lemma BoundShrinks(seen: Spool, clock: int)
    requires Sorted(seen)
    ensures Ids(Bound(seen, clock, MAX_ENTRIES)) <= Ids(seen)
  {
    BoundIsNewest(seen, clock, MAX_ENTRIES);
    FreshFacts(seen, clock);
  }

  lemma DrainReaderOk(s: State, p: ProcessId, i: Input)
    requires Inv(s) && p in s.processes && Safe(s, Move(p, i)) && s.processes[p].phase.DrainRead?
    ensures var t := Next(s, Move(p, i)); p in t.processes && ProcessOk(t, t.processes[p])
  {
    hide Tracks, Sorted, Ids, Bound, Later, FileOk, Accounted, Prunes, Keeps;
    var DrainRead(readAt, seen) := s.processes[p].phase;
    NextIsLater(s, Move(p, i));
    assert ProcessOk(s, s.processes[p]);
    BoundKeepsAll(seen, i.clock);
    if i.works || !Prunes(seen, i.clock) {
      DrainBegins(s, Next(s, Move(p, i)), seen, i.clock, readAt);
    }
  }

  lemma DrainerOk(s: State, p: ProcessId, i: Input)
    requires Inv(s) && p in s.processes && s.processes[p].phase.Draining?
    ensures var t := Next(s, Move(p, i)); p in t.processes && ProcessOk(t, t.processes[p])
  {
    hide Tracks, Ids, Later, FileOk, Accounted;
    var Draining(readAt, todo, remaining) := s.processes[p].phase;
    NextIsLater(s, Move(p, i));
    assert ProcessOk(s, s.processes[p]);
    if todo != [] {
      var again := todo[0].(attempts := todo[0].attempts + 1);
      DrainGoesOn(s, Next(s, Move(p, i)), todo, remaining, again, readAt);
    }
  }

  /** The process that moves stays in order. */
  lemma MoverStaysOk(s: State, p: ProcessId, i: Input)
    requires Inv(s) && p in s.processes && Safe(s, Move(p, i))
    ensures var t := Next(s, Move(p, i)); p in t.processes && ProcessOk(t, t.processes[p])
  {
    hide Tracks, Sorted, Ids, Bound, AppendTo, ReadPending, Without, Later, FileOk, Accounted, Safe;
    var t := Next(s, Move(p, i));
    NextIsLater(s, Move(p, i));
    assert ProcessOk(s, s.processes[p]);
    match s.processes[p].phase
    case Idle => ReadTracks(s, t);
    case Answered(_) => ReadTracks(s, t);
    case DrainStart => ReadTracks(s, t);
    case DrainRead(_, _) => DrainReaderOk(s, p, i);
    case Draining(_, _, _) => DrainerOk(s, p, i);
    case _ =>
  }

  lemma StepKeepsProcesses(s: State, e: Event)
    requires Inv(s) && Enabled(s, e) && Safe(s, e)
    ensures ProcessesOk(Next(s, e))
  {
    hide ProcessOk, Later, Accounted, FileOk, Safe, Step;
    var t := Next(s, e);
    NextIsLater(s, e);
    forall q | q in t.processes ensures ProcessOk(t, t.processes[q]) {
      if q == e.p {
        if e.Move? {
          MoverStaysOk(s, e.p, e.input);
        } else {
          NewcomerOk(s, e);
        }
      } else {
        OthersStay(s, e, q);
        OkLater(s, t, s.processes[q]);
      }
    }
  }

  lemma NewcomerOk(s: State, e: Event)
    requires !e.Move?
    ensures ProcessOk(Next(s, e), Next(s, e).processes[e.p])
  {
  }

  lemma OthersStay(s: State, e: Event, q: ProcessId)
    requires q != e.p && q in Next(s, e).processes
    ensures q in s.processes && Next(s, e).processes[q] == s.processes[q]
  {
    hide Ids, AppendTo, Bound, ReadPending, Without, Exchange, Settles, AfterRemove;
    if e.Move? && e.p in s.processes {
      var proc := s.processes[e.p];
      ExchangeKeepsProcesses(s, proc.own.id, e.input);
      if proc.phase.Draining? && proc.phase.todo != [] {
        ExchangeKeepsProcesses(s, proc.phase.todo[0].id, e.input);
      }
    }
  }

  lemma ExchangeKeepsProcesses(s: State, id: SignalId, i: Input)
    ensures Exchange(s, id, i).processes == s.processes
  {
  }

  // ---- a step loses nothing exactly when it is safe ----

  lemma AppendIff(s: State, p: ProcessId, i: Input)
    requires Inv(s) && p in s.processes && s.processes[p].phase.Appending?
    ensures var t := Next(s, Move(p, i));
            FileOk(t) && (Accounted(t) <==> Safe(s, Move(p, i)))
  {
    hide Sorted, Ids, AppendTo, Keeps, FreshOf, Newest;
    var own, t := s.processes[p].own, Next(s, Move(p, i));
    var Appending(readAt, seen) := s.processes[p].phase;
    assert ProcessOk(s, s.processes[p]);
    if i.works && own.id !in Ids(seen) {
      AppendWrites(seen, own, i.clock);
      assert t.file == AppendTo(seen, own, i.clock) && t.settled == s.settled;
      assert forall id :: Pending(t, id) && id != own.id ==> Pending(s, id);
      if Accounted(t) {
        forall id | Pending(s, id) && id != own.id ensures id in Ids(seen) && Keeps(seen, id, i.clock, MAX_ENTRIES - 1) {
          assert Pending(t, id);
        }
      }
    } else {
      assert t.file == s.file && t.settled == s.settled && t.appendedAt == s.appendedAt;
    }
  }

  lemma AppendWrites(seen: Spool, own: Entry, now: int)
    requires Sorted(seen) && own.id !in Ids(seen)
    ensures own.id in Ids(AppendTo(seen, own, now))
    ensures Ids(AppendTo(seen, own, now)) <= Ids(seen) + {own.id}
    ensures forall id :: id != own.id ==> (id in Ids(AppendTo(seen, own, now)) <==> Keeps(seen, id, now, MAX_ENTRIES - 1))
  {
    hide Keeps, AppendTo;
    AppendIds(seen, own, now);
    FreshFacts(seen, now);
    forall id | id != own.id ensures id in Ids(AppendTo(seen, own, now)) <==> Keeps(seen, id, now, MAX_ENTRIES - 1) {
      AppendKeeps(seen, own, now, id);
    }
  }

  lemma RemoveIff(s: State, p: ProcessId, i: Input)
    requires Inv(s) && p in s.processes && s.processes[p].phase.Removing?
    ensures var t := Next(s, Move(p, i));
            FileOk(t) && (Accounted(t) <==> Safe(s, Move(p, i)))
  {
    hide Ids, Without;
    var own, t := s.processes[p].own, Next(s, Move(p, i));
    var Removing(_, readAt, seen) := s.processes[p].phase;
    assert ProcessOk(s, s.processes[p]);
    WithoutIds(seen, own.id);
    if i.works && own.id in Ids(seen) {
      assert t.file == Without(seen, own.id) && t.settled == s.settled && t.appendedAt == s.appendedAt;
      if Accounted(t) {
        forall id | Pending(s, id) && id != own.id ensures s.appendedAt[id] < readAt {
          assert Pending(t, id);
        }
      }
    } else {
      assert t.file == s.file && t.settled == s.settled && t.appendedAt == s.appendedAt;
    }
  }

  lemma DrainReadIff(s: State, p: ProcessId, i: Input)
    requires Inv(s) && p in s.processes && s.processes[p].phase.DrainRead?
    ensures var t := Next(s, Move(p, i));
            FileOk(t) && (Accounted(t) <==> Safe(s, Move(p, i)))
  {
    hide Ids, Bound, Keeps, Prunes, Sorted;
    var t := Next(s, Move(p, i));
    var DrainRead(readAt, seen) := s.processes[p].phase;
    assert ProcessOk(s, s.processes[p]);
    var kept := Bound(seen, i.clock, MAX_ENTRIES);
    BoundKeepsAll(seen, i.clock);
    BoundShrinks(seen, i.clock);
    assert t.settled == s.settled && t.appendedAt == s.appendedAt;
    if i.works && Prunes(seen, i.clock) {
      assert t.file == kept;
      forall id ensures id in Ids(kept) <==> Keeps(seen, id, i.clock, MAX_ENTRIES) {
        BoundKeeps(seen, i.clock, MAX_ENTRIES, id);
      }
      if Accounted(t) {
        forall id | Pending(s, id) ensures s.appendedAt[id] < readAt && Keeps(seen, id, i.clock, MAX_ENTRIES) {
          assert Pending(t, id);
        }
      }
    } else {
      assert t.file == s.file;
    }
  }

  lemma DrainingIff(s: State, p: ProcessId, i: Input)
    requires Inv(s) && p in s.processes && s.processes[p].phase.Draining?
    ensures var t := Next(s, Move(p, i));
            FileOk(t) && (Accounted(t) <==> Safe(s, Move(p, i)))
  {
    hide Ids;
    var t := Next(s, Move(p, i));
    var Draining(readAt, todo, remaining) := s.processes[p].phase;
    assert ProcessOk(s, s.processes[p]);
    assert t.appendedAt == s.appendedAt && s.settled <= t.settled;
    if todo == [] && i.works {
      NoIds();
      assert Ids(todo) + Ids(remaining) == Ids(remaining);
      assert t.file == remaining && t.settled == s.settled;
      if Accounted(t) {
        forall id | Pending(s, id) ensures s.appendedAt[id] < readAt {
          assert Pending(t, id);
        }
      }
    } else {
      assert t.file == s.file;
    }
  }

  /** The step writes the spool file in one of its phases. */
  predicate Writes(s: State, e: Event) {
    e.Move? && e.p in s.processes &&
      var phase := s.processes[e.p].phase;
      phase.Appending? || phase.Removing? || phase.DrainRead? || phase.Draining?
  }

  lemma OtherStepsKeepFile(s: State, e: Event)
    requires Inv(s) && !Writes(s, e)
    ensures Safe(s, e) && FileOk(Next(s, e)) && Accounted(Next(s, e))
  {
    hide ProcessesOk, Ids, ReadPending;
    var t := Next(s, e);
    assert t.file == s.file && t.appendedAt == s.appendedAt && s.settled <= t.settled;
  }

  /** From a state in which nothing is lost, a step loses nothing exactly when it is safe. */
  lemma StepLosesNothing(s: State, e: Event)
    requires Inv(s) && Enabled(s, e)
    ensures Accounted(Next(s, e)) <==> Safe(s, e)
    ensures Safe(s, e) ==> Inv(Next(s, e))
  {
    hide Safe, Accounted, FileOk, ProcessesOk, Next;
    if !Writes(s, e) {
      OtherStepsKeepFile(s, e);
    } else {
      match s.processes[e.p].phase
      case Appending(_, _) => AppendIff(s, e.p, e.input);
      case Removing(_, _, _) => RemoveIff(s, e.p, e.input);
      case DrainRead(_, _) => DrainReadIff(s, e.p, e.input);
      case Draining(_, _, _) => DrainingIff(s, e.p, e.input);
    }
    if Safe(s, e) {
      StepKeepsProcesses(s, e);
    }
  }

  // ---- whole runs ----

  ghost predicate Initial(s: State) {
    && s.file == [] && s.processes == map[] && s.step == 0 && s.appendedAt == map[]
    && s.settled == {} && s.delivered == {} && s.answers == [] && s.recorded == []
  }

  ghost predicate Behaviour(states: seq<State>, events: seq<Event>) {
    && |states| == |events| + 1 && Initial(states[0])
    && (forall i :: 0 <= i < |events| ==> Enabled(states[i], events[i]) && states[i + 1] == Next(states[i], events[i]))
  }

  lemma {:induction false} AlwaysInv(states: seq<State>, events: seq<Event>, i: nat)
    requires Behaviour(states, events) && i < |states|
    requires forall j :: 0 <= j < i ==> Safe(states[j], events[j])
    ensures Inv(states[i])
  {
    hide Safe, Next, Enabled;
    if i == 0 {
      InitialInv(states[0]);
    } else {
      AlwaysInv(states, events, i - 1);
      assert Safe(states[i - 1], events[i - 1]);
      StepLosesNothing(states[i - 1], events[i - 1]);
    }
  }

  lemma InitialInv(s: State)
    requires Initial(s)
    ensures Inv(s)
  {
  }

  /** The first step of a run that is not safe loses a signal. */
  lemma UnsafeStepLoses(states: seq<State>, events: seq<Event>, i: nat)
    requires Behaviour(states, events) && i < |events|
    requires (forall j :: 0 <= j < i ==> Safe(states[j], events[j])) && !Safe(states[i], events[i])
    ensures !Accounted(states[i + 1])
  {
    hide Safe, Next, Inv, Accounted;
    AlwaysInv(states, events, i);
    StepLosesNothing(states[i], events[i]);
  }

  lemma {:induction false} FirstUnsafe(states: seq<State>, events: seq<Event>, i: nat) returns (k: nat)
    requires |states| == |events| + 1 && i < |events| && !Safe(states[i], events[i])
    ensures k <= i && !Safe(states[k], events[k]) && forall j :: 0 <= j < k ==> Safe(states[j], events[j])
  {
    hide Safe;
    if j :| 0 <= j < i && !Safe(states[j], events[j]) {
      k := FirstUnsafe(states, events, j);
    } else {
      k := i;
    }
  }

  /** Every signal whose append succeeded stays in the outbox until its own 2xx or 4xx,
      throughout a run, exactly when every step of the run is safe. */
  lemma NoSignalIsLost(states: seq<State>, events: seq<Event>)
    requires Behaviour(states, events)
    ensures (forall i :: 0 <= i < |states| ==> Accounted(states[i])) <==>
            (forall i :: 0 <= i < |events| ==> Safe(states[i], events[i]))
  {
    hide Safe, Next, Enabled, Accounted;
    if forall i :: 0 <= i < |events| ==> Safe(states[i], events[i]) {
      forall i | 0 <= i < |states| ensures Accounted(states[i]) {
        AlwaysInv(states, events, i);
      }
    } else {
      var i :| 0 <= i < |events| && !Safe(states[i], events[i]);
      var k := FirstUnsafe(states, events, i);
      UnsafeStepLoses(states, events, k);
    }
  }

  /** A process that rewrites the spool finds that nothing has reached it since the read, that
      nothing is too old and that there is room. */
  ghost predicate Quiet(s: State, e: Event) {
    Writes(s, e) ==>
      var phase := s.processes[e.p].phase;
      && (forall id :: id in s.appendedAt ==> s.appendedAt[id] < phase.readAt)
      && (phase.Appending? || phase.DrainRead? ==>
            |phase.seen| < 200 && forall x :: x in phase.seen ==> Young(x, e.input.clock))
  }

  lemma RoomyKeeps(seen: Spool, now: int, limit: nat, id: SignalId)
    requires |seen| <= limit && (forall e :: e in seen ==> Young(e, now)) && id in Ids(seen)
    ensures Keeps(seen, id, now, limit)
  {
    var e :| e in seen && e.id == id;
    var k :| 0 <= k < |seen| && seen[k] == e;
    FreshLength(seen[k + 1..], now);
    FreshCount(seen[k + 1..], now);
  }

  lemma QuietIsSafe(s: State, e: Event)
    requires Inv(s) && Quiet(s, e)
    ensures Safe(s, e)
  {
    hide Keeps, Prunes, Ids, Accounted, FileOk;
    if Writes(s, e) {
      assert ProcessOk(s, s.processes[e.p]);
      var phase := s.processes[e.p].phase;
      if phase.Appending? || phase.DrainRead? {
        forall id | Pending(s, id)
          ensures Keeps(phase.seen, id, e.input.clock, MAX_ENTRIES - 1)
          ensures Keeps(phase.seen, id, e.input.clock, MAX_ENTRIES)
        {
          RoomyKeeps(phase.seen, e.input.clock, MAX_ENTRIES - 1, id);
          RoomyKeeps(phase.seen, e.input.clock, MAX_ENTRIES, id);
        }
      }
    }
  }

  /** A run in which rewrites do not overlap with appends, and the spool is neither full nor
      old, loses nothing. */
  lemma {:induction false} QuietRunLosesNothing(states: seq<State>, events: seq<Event>, i: nat)
    requires Behaviour(states, events) && i < |states|
    requires forall j :: 0 <= j < i ==> Quiet(states[j], events[j])
    ensures Inv(states[i])
  {
    hide Safe, Next, Enabled, Quiet, Inv;
    if i == 0 {
      InitialInv(states[0]);
    } else {
      QuietRunLosesNothing(states, events, i - 1);
      QuietIsSafe(states[i - 1], events[i - 1]);
      StepLosesNothing(states[i - 1], events[i - 1]);
    }
  }

  // ---- what the answers mean ----

  /** Delivered, or refused with a status that no later attempt will change. */
  predicate IsFinal(a: Answer) {
    a.Delivered? || (a.Rejected? && 400 <= a.status <= 499)
  }

  ghost predicate AnswersOk(s: State) {
    && (forall id :: id in s.settled <==> exists k :: 0 <= k < |s.answers| && s.answers[k].0 == id && IsFinal(s.answers[k].1))
    && (forall k :: 0 <= k < |s.answers| && s.answers[k].1.Delivered? ==> s.answers[k].0 in s.delivered)
  }

  lemma ExchangeKeepsAnswers(s: State, id: SignalId, i: Input)
    requires AnswersOk(s)
    ensures AnswersOk(Exchange(s, id, i))
  {
    var t := Exchange(s, id, i);
    var n := |s.answers|;
    assert t.answers[n] == (id, i.answer);
    forall x
      ensures x in t.settled <==> exists k :: 0 <= k < |t.answers| && t.answers[k].0 == x && IsFinal(t.answers[k].1)
    {
      if x in s.settled {
        var k :| 0 <= k < n && s.answers[k].0 == x && IsFinal(s.answers[k].1);
        assert t.answers[k] == s.answers[k];
      }
      if k :| 0 <= k < |t.answers| && t.answers[k].0 == x && IsFinal(t.answers[k].1) {
        if k < n {
          assert s.answers[k] == t.answers[k];
        }
      }
    }
  }

  lemma {:induction false} AlwaysAnswersOk(states: seq<State>, events: seq<Event>, i: nat)
    requires Behaviour(states, events) && i < |states|
    ensures AnswersOk(states[i])
  {
    hide Next, Enabled;
    if i > 0 {
      AlwaysAnswersOk(states, events, i - 1);
      var s, e := states[i - 1], events[i - 1];
      var id := StepExchanges(s, e);
      if e.Move? {
        ExchangeKeepsAnswers(s, id, e.input);
      }
    }
  }

  /** In a run of safe steps, a signal whose append succeeded and whose answers so far are each
      no answer or a status other than 2xx and 4xx is in the spool file. */
  lemma OpenSignalIsSpooled(states: seq<State>, events: seq<Event>, i: nat, id: SignalId)
    requires Behaviour(states, events) && i < |states|
    requires forall j :: 0 <= j < i ==> Safe(states[j], events[j])
    requires id in states[i].appendedAt
    requires forall k :: 0 <= k < |states[i].answers| && states[i].answers[k].0 == id ==>
               var a := states[i].answers[k].1;
               a.NoAnswer? || (a.Rejected? && !(400 <= a.status <= 499))
    ensures id in Ids(states[i].file)
  {
    hide Safe, Next, Enabled, FileOk, ProcessesOk;
    AlwaysInv(states, events, i);
    AlwaysAnswersOk(states, events, i);
    assert Pending(states[i], id);
  }

  // ---- a process that is left alone ----

  function Alone(s: State, p: ProcessId, inputs: seq<Input>): State
    decreases |inputs|
  {
    if inputs == [] then s else Alone(Next(s, Move(p, inputs[0])), p, inputs[1..])
  }

  lemma AloneOne(s: State, p: ProcessId, i: Input, rest: seq<Input>)
    ensures Alone(s, p, [i] + rest) == Alone(Next(s, Move(p, i)), p, rest)
    ensures Alone(s, p, []) == s
  {
    assert ([i] + rest)[1..] == rest;
  }

  /** The process `p` of state `s` in phase `phase`. */
  ghost predicate IsAt(s: State, p: ProcessId, own: Entry, phase: Phase) {
    p in s.processes && s.processes[p] == Process(own, phase)
  }

  /** A signal that is not in the spool yet is put there by the first two steps. */
  lemma AppendAlone(s: State, p: ProcessId, own: Entry, read: Input, write: Input)
    requires IsAt(s, p, own, Idle) && read.works && write.works && own.id !in Ids(s.file)
    ensures var t := Alone(s, p, [read, write]);
            && IsAt(t, p, own, Queued) && own.id in t.appendedAt
            && t.file == AppendTo(ReadPending(s.file), own, write.clock) && own.id in Ids(t.file)
  {
    hide ReadPending, AppendTo, Ids;
    ReadFacts(s.file);
    AppendWrites(ReadPending(s.file), own, write.clock);
    assert [read, write] == [read] + [write] && [write] == [write] + [];
    AloneOne(s, p, read, [write]);
    var s1 := Next(s, Move(p, read));
    AloneOne(s1, p, write, []);
    AloneOne(Next(s1, Move(p, write)), p, write, []);
  }

  /** Without an answer, or with a status other than 2xx and 4xx, the process ends and leaves
      the spool as it is. */
  lemma TransientAlone(s: State, p: ProcessId, own: Entry, post: Input, last: Input)
    requires IsAt(s, p, own, Queued)
    requires post.answer.NoAnswer? || (post.answer.Rejected? && !(400 <= post.answer.status <= 499))
    ensures var t := Alone(s, p, [post, last]);
            IsAt(t, p, own, Finished) && t.file == s.file && t.answers == s.answers + [(own.id, post.answer)]
  {
    hide ReadPending, AppendTo, Ids;
    assert [post, last] == [post] + [last] && [last] == [last] + [];
    AloneOne(s, p, post, [last]);
    var s1 := Next(s, Move(p, post));
    AloneOne(s1, p, last, []);
    AloneOne(Next(s1, Move(p, last)), p, last, []);
  }

  /** After a 2xx or 4xx the process takes its signal, and no other, out of the spool; after a
      2xx it goes on to drain the rest. */
  lemma RemoveAlone(s: State, p: ProcessId, own: Entry, post: Input, read: Input, write: Input)
    requires IsAt(s, p, own, Queued) && read.works && write.works && own.id in Ids(s.file)
    requires post.answer.Delivered? || (post.answer.Rejected? && 400 <= post.answer.status <= 499)
    ensures var t := Alone(s, p, [post, read, write]);
            && IsAt(t, p, own, if post.answer.Delivered? then DrainStart else Finished)
            && Ids(t.file) == Ids(s.file) - {own.id} && (forall e :: e in t.file ==> LastLine(s.file, e.id) == Some(e))
            && t.answers == s.answers + [(own.id, post.answer)]
  {
    hide ReadPending, AppendTo, Ids, Without, LastLine;
    ReadFacts(s.file);
    ReadGivesLastLines(s.file);
    WithoutIds(ReadPending(s.file), own.id);
    WithoutEntries(ReadPending(s.file), own.id);
    assert [post, read, write] == [post] + [read, write] && [read, write] == [read] + [write] && [write] == [write] + [];
    AloneOne(s, p, post, [read, write]);
    var s1 := Next(s, Move(p, post));
    AloneOne(s1, p, read, [write]);
    var s2 := Next(s1, Move(p, read));
    AloneOne(s2, p, write, []);
    AloneOne(Next(s2, Move(p, write)), p, write, []);
  }

  /** A file operation that fails changes no file: without its append a process still sends its
      signal, without its removal it goes on as after one, and a drain ends. */
  lemma FailureAlone(s: State, p: ProcessId, own: Entry, phase: Phase, i: Input)
    requires IsAt(s, p, own, phase) && !i.works
    ensures var t := Next(s, Move(p, i));
            && t.file == s.file
            && (phase.Idle? || phase.Appending? ==> IsAt(t, p, own, Queued))
            && (phase.Answered? && phase.answer.Delivered? ==> IsAt(t, p, own, DrainStart))
            && (phase.Answered? && !phase.answer.Delivered? ==> IsAt(t, p, own, Finished))
            && (phase.Removing? ==> IsAt(t, p, own, if phase.answer.Delivered? then DrainStart else Finished))
            && (phase.DrainStart? || (phase.Draining? && phase.todo == []) ==> IsAt(t, p, own, Finished))
            && (phase.DrainRead? && |Bound(phase.seen, i.clock, 200)| != |phase.seen| ==> IsAt(t, p, own, Finished))
  {
    hide ReadPending, AppendTo, Ids, Without, Bound;
  }

  /** A signal that is in the spool already is not put there again. */
  lemma DuplicateAlone(s: State, p: ProcessId, own: Entry, read: Input, write: Input)
    requires IsAt(s, p, own, Idle) && read.works && own.id in Ids(s.file)
    ensures var t := Alone(s, p, [read, write]); IsAt(t, p, own, Queued) && t.file == s.file
  {
    hide ReadPending, AppendTo, Ids;
    ReadFacts(s.file);
    assert [read, write] == [read] + [write] && [write] == [write] + [];
    AloneOne(s, p, read, [write]);
    var s1 := Next(s, Move(p, read));
    AloneOne(s1, p, write, []);
    AloneOne(Next(s1, Move(p, write)), p, write, []);
  }

  lemma {:induction false} WithoutEntries(s: Spool, id: SignalId)
    ensures forall e :: e in Without(s, id) <==> e in s && e.id != id
  {
    if s != [] {
      WithoutEntries(s[..|s| - 1], id);
      assert s == s[..|s| - 1] + [s[|s| - 1]];
    }
  }

  /** The entries to try again: those without an answer or with a status other than 2xx and
      4xx, each with one attempt more. */
  function Retried(entries: Spool, inputs: seq<Input>): Spool
    requires |inputs| == |entries|
  {
    if entries == [] then []
    else
      (if inputs[0].answer.NoAnswer? || (inputs[0].answer.Rejected? && !(400 <= inputs[0].answer.status <= 499))
       then [entries[0].(attempts := entries[0].attempts + 1)] else [])
      + Retried(entries[1..], inputs[1..])
  }

  function AnswersTo(entries: Spool, inputs: seq<Input>): seq<(SignalId, Answer)>
    requires |inputs| == |entries|
  {
    if entries == [] then [] else [(entries[0].id, inputs[0].answer)] + AnswersTo(entries[1..], inputs[1..])
  }

  /** A drain in progress sends every entry in turn and then writes back those to retry. */
  lemma {:induction false} SendAll(s: State, p: ProcessId, own: Entry, readAt: nat, todo: Spool, remaining: Spool,
                                   inputs: seq<Input>, last: Input)
    requires IsAt(s, p, own, Draining(readAt, todo, remaining)) && |inputs| == |todo| && last.works
    ensures var t := Alone(s, p, inputs + [last]);
            && IsAt(t, p, own, Finished) && t.file == remaining + Retried(todo, inputs)
            && t.answers == s.answers + AnswersTo(todo, inputs)
    decreases |todo|
  {
    hide Next, Settles, IsAt;
    if todo == [] {
      assert inputs + [last] == [last] + [];
      AloneOne(s, p, last, []);
      AloneOne(Next(s, Move(p, last)), p, last, []);
      FinishDrain(s, p, own, readAt, remaining, last);
      assert remaining + [] == remaining && s.answers + [] == s.answers;
    } else {
      var i := inputs[0];
      assert inputs + [last] == [i] + (inputs[1..] + [last]);
      AloneOne(s, p, i, inputs[1..] + [last]);
      SendOne(s, p, own, readAt, todo, remaining, i);
      SettlesIs(i.answer);
      var again := if Settles(i.answer) then [] else [todo[0].(attempts := todo[0].attempts + 1)];
      SendAll(Next(s, Move(p, i)), p, own, readAt, todo[1..], remaining + again, inputs[1..], last);
      assert remaining + again + Retried(todo[1..], inputs[1..]) == remaining + (again + Retried(todo[1..], inputs[1..]));
      var answered := [(todo[0].id, i.answer)];
      assert s.answers + answered + AnswersTo(todo[1..], inputs[1..]) == s.answers + (answered + AnswersTo(todo[1..], inputs[1..]));
    }
  }

  lemma SettlesIs(a: Answer)
    ensures Settles(a) <==> !(a.NoAnswer? || (a.Rejected? && !(400 <= a.status <= 499)))
  {
  }

  lemma FinishDrain(s: State, p: ProcessId, own: Entry, readAt: nat, remaining: Spool, last: Input)
    requires IsAt(s, p, own, Draining(readAt, [], remaining)) && last.works
    ensures var t := Next(s, Move(p, last));
            IsAt(t, p, own, Finished) && t.file == remaining && t.answers == s.answers
  {
    hide Ids, Bound, AppendTo;
  }

  lemma SendOne(s: State, p: ProcessId, own: Entry, readAt: nat, todo: Spool, remaining: Spool, i: Input)
    requires IsAt(s, p, own, Draining(readAt, todo, remaining)) && todo != []
    ensures var t := Next(s, Move(p, i));
            var again := if Settles(i.answer) then [] else [todo[0].(attempts := todo[0].attempts + 1)];
            IsAt(t, p, own, Draining(readAt, todo[1..], remaining + again)) && t.answers == s.answers + [(todo[0].id, i.answer)]
  {
    hide Ids;
    assert remaining + [] == remaining;
  }

  /** A drain that is left alone sends every signal that the bounds keep, oldest first, and
      leaves in the spool exactly those to try again. */
  lemma DrainAlone(s: State, p: ProcessId, own: Entry, read: Input, write: Input, inputs: seq<Input>, last: Input)
    requires IsAt(s, p, own, DrainStart) && read.works && write.works && last.works
    requires |inputs| == |Bound(ReadPending(s.file), write.clock, 200)| > 0
    ensures var kept := Bound(ReadPending(s.file), write.clock, 200);
            var t := Alone(s, p, [read, write] + (inputs + [last]));
            && IsAt(t, p, own, Finished) && t.file == Retried(kept, inputs)
            && t.answers == s.answers + AnswersTo(kept, inputs)
  {
    hide ReadPending, Bound, Ids, Retried, AnswersTo;
    var rest := inputs + [last];
    assert [read, write] + rest == [read] + ([write] + rest);
    AloneOne(s, p, read, [write] + rest);
    var s1 := Next(s, Move(p, read));
    AloneOne(s1, p, write, rest);
    var s2 := Next(s1, Move(p, write));
    var seen := ReadPending(s.file);
    var kept := Bound(seen, write.clock, 200);
    assert IsAt(s1, p, own, DrainRead(s.step, seen)) && s1.answers == s.answers;
    assert IsAt(s2, p, own, Draining(s.step, kept, [])) && s2.answers == s.answers;
    SendAll(s2, p, own, s.step, kept, [], inputs, last);
    assert [] + Retried(kept, inputs) == Retried(kept, inputs);
  }

  // ---- two runs that lose a signal ----

  const OK := Input(true, true, Delivered, 0)
  const LATE := OK.(clock := MAX_AGE_MS + 1)
  const A := Entry("a", 0, "", 0)
  const B := Entry("b", MAX_AGE_MS, "", 0)

  lemma Extend(states: seq<State>, events: seq<Event>, e: Event) returns (states': seq<State>, events': seq<Event>)
    requires Behaviour(states, events) && |states| == |events| + 1 && Enabled(states[|events|], e)
    ensures states' == states + [Next(states[|events|], e)] && events' == events + [e] && Behaviour(states', events')
  {
    hide Next, Enabled;
    states', events' := states + [Next(states[|events|], e)], events + [e];
  }

  /** Two processes have read the empty spool. */
  lemma BothHaveRead() returns (states: seq<State>, events: seq<Event>)
    ensures Behaviour(states, events) && |states| == |events| + 1 == 5
    ensures states[4] ==
            State([], map[0 := Process(A, Appending(2, [])), 1 := Process(B, Appending(3, []))], 4, map[], {}, {}, [], [])
  {
    assert ReadPending([]) == [];
    var s0 := State([], map[], 0, map[], {}, {}, [], []);
    var s1 := Next(s0, Begin(0, A));
    var s2 := Next(s1, Begin(1, B));
    var s3 := Next(s2, Move(0, OK));
    states, events := [s0, s1, s2, s3, Next(s3, Move(1, OK))], [Begin(0, A), Begin(1, B), Move(0, OK), Move(1, OK)];
  }

  /** The one that writes last wipes the signal of the other. */
  lemma ConcurrentAppendsLoseOne() returns (states: seq<State>, events: seq<Event>)
    ensures Behaviour(states, events) && |states| == |events| + 1 == 7 && !Accounted(states[6])
  {
    hide AppendTo, Behaviour;
    states, events := BothHaveRead();
    NoIds();
    states, events := Extend(states, events, Move(0, OK));
    assert states[5].processes[1] == Process(B, Appending(3, [])) && states[5].appendedAt == map["a" := 4];
    states, events := Extend(states, events, Move(1, OK));
    AppendWrites([], B, 0);
    assert states[6].file == AppendTo([], B, 0) && Pending(states[6], "a");
  }

  lemma OneEntry(a: Entry, now: int)
    requires Fresh(a, now)
    ensures AppendTo([], a, now) == [a] && ReadPending([]) == [] && ReadPending([a]) == [a]
  {
    assert [a][..0] == [] && [] + [a] == [a];
    assert FreshOf([a], now) == FreshOf([], now) + [a];
    assert ById([a]) == Put(ById([]), a) && Sort([a]) == Insert(Sort([]), a);
    assert a in [a] && a.id in Ids([a]);
  }

  lemma OneStale(a: Entry, now: int)
    requires !Fresh(a, now)
    ensures Bound([a], now, MAX_ENTRIES) == []
  {
    assert [a][..0] == [];
    assert FreshOf([a], now) == FreshOf([], now) + [];
  }

  /** A signal was left in the spool. */
  lemma OneIsSpooled() returns (states: seq<State>, events: seq<Event>)
    ensures Behaviour(states, events) && |states| == |events| + 1 == 4
    ensures states[3] == State([A], map[0 := Process(A, Queued)], 3, map["a" := 2], {}, {}, [], [])
  {
    hide AppendTo, ReadPending;
    OneEntry(A, 0);
    NoIds();
    var s0 := State([], map[], 0, map[], {}, {}, [], []);
    var s1 := Next(s0, Begin(0, A));
    var s2 := Next(s1, Move(0, OK));
    states, events := [s0, s1, s2, Next(s2, Move(0, OK))], [Begin(0, A), Move(0, OK), Move(0, OK)];
  }

  /** A drain has read it, and so has a process that is about to append. */
  lemma DrainAndAppendHaveRead() returns (states: seq<State>, events: seq<Event>)
    ensures Behaviour(states, events) && |states| == |events| + 1 == 8 && events[4] == Begin(2, B)
    ensures var s := states[7];
            && 1 in s.processes && s.processes[1].phase == DrainRead(5, [A])
            && 2 in s.processes && s.processes[2] == Process(B, Appending(6, [A]))
            && s.settled == {} && s.appendedAt == map["a" := 2]
  {
    hide AppendTo, ReadPending, Behaviour;
    OneEntry(A, 0);
    states, events := OneIsSpooled();
    states, events := Extend(states, events, BeginDrain(1));
    states, events := Extend(states, events, Begin(2, B));
    states, events := Extend(states, events, Move(1, OK));
    states, events := Extend(states, events, Move(2, LATE));
  }

  /** A young signal is appended between a drain's read and its write of the bounded spool,
      which happens because the spool held an expired entry. */
  lemma PruningDrainLosesYoung() returns (states: seq<State>, events: seq<Event>)
    ensures Behaviour(states, events) && |states| == |events| + 1 == 10
    ensures events[4].Begin? && events[8].Move? && Young(events[4].own, events[8].input.clock)
    ensures var id := events[4].own.id;
            Pending(states[9], id) && id in Ids(states[8].file) && id !in Ids(states[9].file)
  {
    hide AppendTo, Bound, Behaviour;
    states, events := DrainAndAppendHaveRead();
    AppendWrites([A], B, LATE.clock);
    states, events := Extend(states, events, Move(2, LATE));
    assert states[8].file == AppendTo([A], B, LATE.clock) && "b" in states[8].appendedAt;
    assert states[8].processes[1].phase == DrainRead(5, [A]);
    OneStale(A, LATE.clock);
    NoIds();
    states, events := Extend(states, events, Move(1, LATE));
  }

  // ---- the server ----

  /** A signal is on the server's list at most once, and is there if it was answered 2xx. */
  ghost predicate ServerOk(recorded: seq<SignalId>, delivered: set<SignalId>) {
    && (forall id :: multiset(recorded)[id] <= 1)
    && (forall id :: id in delivered ==> id in recorded)
  }

  lemma ExchangeKeepsServer(s: State, id: SignalId, i: Input)
    requires ServerOk(s.recorded, s.delivered) && (i.answer.Delivered? ==> i.reached)
    ensures ServerOk(Exchange(s, id, i).recorded, Exchange(s, id, i).delivered)
  {
  }

  /** A step has one exchange with the server or none. */
  lemma StepExchanges(s: State, e: Event) returns (id: SignalId)
    requires Enabled(s, e)
    ensures var t := Next(s, e);
            || (t.recorded == s.recorded && t.delivered == s.delivered && t.answers == s.answers && t.settled == s.settled)
            || (e.Move? && var x := Exchange(s, id, e.input);
                t.recorded == x.recorded && t.delivered == x.delivered && t.answers == x.answers && t.settled == x.settled)
  {
    hide Ids, ReadPending, AppendTo, Bound, Without, Record;
    id := "";
    if e.Move? {
      var proc := s.processes[e.p];
      if proc.phase.Queued? {
        id := proc.own.id;
      } else if proc.phase.Draining? && proc.phase.todo != [] {
        id := proc.phase.todo[0].id;
      }
    }
  }

  lemma StepKeepsServer(s: State, e: Event)
    requires ServerOk(s.recorded, s.delivered) && Enabled(s, e)
    ensures ServerOk(Next(s, e).recorded, Next(s, e).delivered)
  {
    hide Next, ServerOk, Exchange;
    var id := StepExchanges(s, e);
    if e.Move? {
      ExchangeKeepsServer(s, id, e.input);
    }
  }

  /** However often a signal is sent again, by its own process or by drains, the server
      records it at most once, and exactly once if it was ever answered 2xx. */
  lemma RecordedAtMostOnce(states: seq<State>, events: seq<Event>, i: nat, id: SignalId)
    requires Behaviour(states, events) && i < |states|
    ensures multiset(states[i].recorded)[id] <= 1
    ensures forall k :: 0 <= k < |states[i].answers| && states[i].answers[k] == (id, Delivered) ==>
              multiset(states[i].recorded)[id] == 1
  {
    hide Next, Enabled;
    AlwaysServerOk(states, events, i);
    AlwaysAnswersOk(states, events, i);
  }

  lemma {:induction false} AlwaysServerOk(states: seq<State>, events: seq<Event>, i: nat)
    requires Behaviour(states, events) && i < |states|
    ensures ServerOk(states[i].recorded, states[i].delivered)
  {
    hide Next, Enabled;
    if i > 0 {
      AlwaysServerOk(states, events, i - 1);
      StepKeepsServer(states[i - 1], events[i - 1]);
    }
  }
}
