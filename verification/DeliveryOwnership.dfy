/** Single-writer delivery ownership: any number of actors run the delivery protocol on
    shared lease files, the children record and the attempt log, in any interleaving,
    with restarts in between. */
module DeliveryOwnership {
  import opened Wrappers

  type Actor = string
  type WorkUnit = string
  type RunId = nat

  datatype Delivery = Delivery(owner: Actor, at: string)

  /** A claim file: which run created it (none after a restart) and what is stamped in it. */
  datatype Lease = Lease(holder: Option<RunId>, identity: Option<Delivery>)

  /** How far one run of the protocol has got. */
  datatype Phase =
    | Claiming                // about to create the claim file
    | Holding(stamped: bool)  // created it; ownership is not recorded yet
    | Looking(tries: nat)     // found it taken; reading who holds it
    | Won                     // about to re-read the record before pushing
    | Lost(held: Delivery)    // about to stand down
    | Cleared                 // about to open the pull request
    | Attempted | Delivered
    | StoodDown(told: Option<Delivery>)  // with the owner and time it reports
    | Failed

  datatype Run = Run(actor: Actor, target: WorkUnit, now: string, phase: Phase)

  datatype Attempt = Attempt(run: RunId, actor: Actor, target: WorkUnit)

  datatype State = State(
    leases: map<WorkUnit, Lease>,
    children: map<WorkUnit, Option<Delivery>>,
    attempts: seq<Attempt>,
    runs: map<RunId, Run>)

  datatype Event =
    | Start(run: RunId, actor: Actor, target: WorkUnit, now: string)
    | Move(run: RunId)
    | Restart(live: set<Actor>)

  const MAX_LOOKS := 50
  const UNKNOWN := Delivery("unknown", "unknown")

  // ---- steps ----

  function Phased(s: State, r: RunId, p: Phase): State
    requires r in s.runs
  {
    s.(runs := s.runs[r := s.runs[r].(phase := p)])
  }

  function Mine(run: Run): Delivery {
    Delivery(run.actor, run.now)
  }

  /** The next atomic step of one run. */
  function MoveRun(s: State, r: RunId): State
    requires r in s.runs
  {
    var run := s.runs[r];
    var u := run.target;
    match run.phase
    case Claiming =>
      if u in s.leases then Phased(s, r, Looking(0))
      else Phased(s, r, Holding(false)).(leases := s.leases[u := Lease(Some(r), None)])
    case Holding(false) =>
      // The write goes to the file this run opened, wherever that file is by now.
      var t := Phased(s, r, Holding(true));
      if u in s.leases && s.leases[u].holder == Some(r) then
        t.(leases := s.leases[u := Lease(Some(r), Some(Mine(run)))])
      else t
    case Holding(true) =>
      if u in s.children then Phased(s, r, Won).(children := s.children[u := Some(Mine(run))])
      else Phased(s, r, Failed)
    case Looking(tries) =>
      if u in s.leases && s.leases[u].identity.Some? then
        Phased(s, r, Verdict(run, s.leases[u].identity.value))
      else if tries + 1 < MAX_LOOKS then Phased(s, r, Looking(tries + 1))
      else Phased(s, r, Verdict(run, UNKNOWN))
    case Won =>
      if Owns(s, run.actor, u) then Phased(s, r, Cleared)
      else Phased(s, r, StoodDown(if u in s.children then s.children[u] else None))
    case Lost(held) => Phased(s, r, StoodDown(Some(held)))
    case Cleared => Phased(s, r, Attempted).(attempts := s.attempts + [Attempt(r, run.actor, u)])
    case Attempted => Phased(s, r, Delivered)
    case _ => s
  }

  function Verdict(run: Run, held: Delivery): Phase {
    if held.owner == run.actor then Won else Lost(held)
  }

  /** The read-before-push gate: the durable record names the actor. */
  predicate Owns(s: State, a: Actor, u: WorkUnit) {
    u in s.children && s.children[u].Some? && s.children[u].value.owner == a
  }

  /** All leases are dropped; those of recorded owners that are still live are rebuilt. */
  function Restarted(s: State, live: set<Actor>): State {
    s.(leases := map u | u in s.children && s.children[u].Some? && s.children[u].value.owner in live
                 :: Lease(None, s.children[u]))
  }

  ghost predicate Enabled(s: State, e: Event) {
    match e
    case Start(r, _, _, _) => r !in s.runs
    case Move(r) => r in s.runs
    case Restart(_) => true
  }

  function Next(s: State, e: Event): State {
    match e
    case Start(r, a, u, now) => s.(runs := s.runs[r := Run(a, u, now, Claiming)])
    case Move(r) => if r in s.runs then MoveRun(s, r) else s
    case Restart(live) => Restarted(s, live)
  }

  /** A restart that falls into no claim of `u` and lists the recorded owner of `u` as live. */
  ghost predicate SafeRestart(s: State, live: set<Actor>, u: WorkUnit) {
    u in s.children ==>
      && (forall r :: r in s.runs && s.runs[r].target == u ==> !s.runs[r].phase.Holding?)
      && (s.children[u].Some? ==> s.children[u].value.owner in live)
  }

  /** A step that is safe for `u`, whatever it means for other units. */
  ghost predicate Safe(s: State, e: Event, u: WorkUnit) {
    Enabled(s, e) && (e.Restart? ==> SafeRestart(s, e.live, u))
  }

  ghost predicate Initial(s: State) {
    s.leases == map[] && s.attempts == [] && s.runs == map[] && forall u :: u in s.children ==> s.children[u].None?
  }

  /** The states of a run of the whole system, with restarts of any kind. */
  ghost predicate Behaviour(states: seq<State>, events: seq<Event>) {
    && |states| == |events| + 1
    && Initial(states[0])
    && (forall i :: 0 <= i < |events| ==> Enabled(states[i], events[i]) && states[i + 1] == Next(states[i], events[i]))
  }

  /** The first `n` steps of a run are safe for `u`. */
  ghost predicate SafeFor(states: seq<State>, events: seq<Event>, n: nat, u: WorkUnit)
    requires n <= |events| && |states| == |events| + 1
  {
    forall i :: 0 <= i < n ==> Safe(states[i], events[i], u)
  }

  // ---- what every step that is safe for a unit keeps ----

  ghost predicate HoldsLease(s: State, r: RunId) {
    && r in s.runs && s.runs[r].phase.Holding?
    && s.runs[r].target in s.leases && s.leases[s.runs[r].target].holder == Some(r)
  }

  /** A run between creation and record holds the only claim, and nothing is recorded yet. */
  ghost predicate HoldersInv(s: State, u: WorkUnit) {
    forall r :: r in s.runs && s.runs[r].target == u && s.runs[r].phase.Holding? && u in s.children ==>
      HoldsLease(s, r) && s.children[u].None?
  }

  predicate Recorded(s: State, u: WorkUnit) {
    u in s.children && s.children[u].Some?
  }

  /** A recorded unit stays claimed. */
  ghost predicate RecordedInv(s: State, u: WorkUnit) {
    Recorded(s, u) ==> u in s.leases
  }

  predicate PastGate(p: Phase) {
    p.Cleared? || p.Attempted? || p.Delivered?
  }

  /** Past the gate, the record names the actor. */
  ghost predicate GateInv(s: State, u: WorkUnit) {
    forall r :: r in s.runs && s.runs[r].target == u && PastGate(s.runs[r].phase) ==> Owns(s, s.runs[r].actor, u)
  }

  ghost predicate Claimed(s: State, u: WorkUnit) {
    Recorded(s, u) ||
    (u in s.leases && s.leases[u].holder.Some? &&
      var h := s.leases[u].holder.value; HoldsLease(s, h) && s.runs[h].target == u)
  }

  /** Whoever got past its first step found or made a claim that is recorded or about to be. */
  ghost predicate ClaimedInv(s: State, u: WorkUnit) {
    u in s.children ==>
      && (forall r :: r in s.runs && s.runs[r].target == u && !s.runs[r].phase.Claiming? ==> Claimed(s, u))
      && (u in s.leases ==> Claimed(s, u))
  }

  /** The run that wrote the record, with its own name and time, is on its way to the attempt
      or has made it. */
  ghost predicate IsRecorder(s: State, r: RunId, u: WorkUnit) {
    && r in s.runs && s.runs[r].target == u && u in s.children
    && s.children[u] == Some(Delivery(s.runs[r].actor, s.runs[r].now))
    && (s.runs[r].phase.Won? || PastGate(s.runs[r].phase))
  }

  /** A claim is stamped before it is recorded, and the stamp says what the record will say. */
  ghost predicate StampInv(s: State, u: WorkUnit) {
    && (forall r :: r in s.runs && s.runs[r].target == u && s.runs[r].phase == Holding(true) && u in s.children && u in s.leases ==>
          s.leases[u].identity == Some(Delivery(s.runs[r].actor, s.runs[r].now)))
    && (Recorded(s, u) && u in s.leases ==> s.leases[u].identity == s.children[u])
  }

  ghost predicate RecorderInv(s: State, u: WorkUnit) {
    Recorded(s, u) ==> exists r :: IsRecorder(s, r, u)
  }

  ghost predicate Logged(s: State, a: Attempt) {
    && a.run in s.runs && s.runs[a.run].actor == a.actor && s.runs[a.run].target == a.target
    && (s.runs[a.run].phase.Attempted? || s.runs[a.run].phase.Delivered?)
  }

  /** Each logged attempt belongs to its own run, which is past the attempt, and each such
      run has its attempt logged. */
  ghost predicate AttemptsInv(s: State) {
    && (forall i :: 0 <= i < |s.attempts| ==> Logged(s, s.attempts[i]))
    && (forall i, j :: 0 <= i < j < |s.attempts| ==> s.attempts[i].run != s.attempts[j].run)
    && (forall r :: r in s.runs && (s.runs[r].phase.Attempted? || s.runs[r].phase.Delivered?) ==> OwnAttempt(s, r) in s.attempts)
  }

  function OwnAttempt(s: State, r: RunId): Attempt
    requires r in s.runs
  {
    Attempt(r, s.runs[r].actor, s.runs[r].target)
  }

  ghost predicate Inv(s: State, u: WorkUnit) {
    && HoldersInv(s, u) && RecordedInv(s, u) && GateInv(s, u) && ClaimedInv(s, u) && RecorderInv(s, u) && StampInv(s, u)
    && AttemptsInv(s)
  }

  lemma InitialInv(s: State, u: WorkUnit)
    requires Initial(s)
    ensures Inv(s, u)
  {
  }

  lemma StartKeepsInv(s: State, e: Event, u: WorkUnit)
    requires Inv(s, u) && e.Start? && Enabled(s, e)
    ensures Inv(Next(s, e), u)
  {
    if Recorded(s, u) {
      var r :| IsRecorder(s, r, u);
      assert IsRecorder(Next(s, e), r, u);
    }
  }

  lemma RestartKeepsInv(s: State, live: set<Actor>, u: WorkUnit)
    requires Inv(s, u) && SafeRestart(s, live, u)
    ensures Inv(Restarted(s, live), u)
  {
    if Recorded(s, u) {
      var r :| IsRecorder(s, r, u);
      assert IsRecorder(Restarted(s, live), r, u);
    }
  }

  lemma MoveKeepsHolders(s: State, r: RunId, u: WorkUnit)
    requires HoldersInv(s, u) && RecordedInv(s, u) && r in s.runs
    ensures HoldersInv(MoveRun(s, r), u)
  {
    hide MoveRun, HoldsLease;
    var t := MoveRun(s, r);
    UnitsStay(s, r, u);
    forall q | q in t.runs && t.runs[q].target == u && t.runs[q].phase.Holding? && u in t.children
      ensures HoldsLease(t, q) && t.children[u].None?
    {
      MoveIsLocal(s, r, q);
      if q == r {
        MoverHolds(s, r);
      } else {
        OtherHolds(s, r, q);
      }
    }
  }

  /** The run that moves holds the claim it has just created or held before. */
  lemma MoverHolds(s: State, r: RunId)
    requires r in s.runs && MoveRun(s, r).runs[r].phase.Holding?
    requires var u := s.runs[r].target;
             && u in s.children && (Recorded(s, u) ==> u in s.leases)
             && (s.runs[r].phase.Holding? ==> HoldsLease(s, r) && s.children[u].None?)
    ensures HoldsLease(MoveRun(s, r), r) && MoveRun(s, r).children == s.children && s.children[s.runs[r].target].None?
  {
  }

  /** A claim is not touched by the steps of other runs. */
  lemma OtherHolds(s: State, r: RunId, q: RunId)
    requires r in s.runs && q != r && HoldsLease(s, q)
    requires var u := s.runs[q].target;
             && u in s.children && s.children[u].None?
             && (s.runs[r].phase.Holding? && s.runs[r].target == u ==> HoldsLease(s, r))
    ensures HoldsLease(MoveRun(s, r), q)
    ensures s.runs[q].target in MoveRun(s, r).children && MoveRun(s, r).children[s.runs[q].target].None?
  {
  }

  lemma MoveKeepsRecorded(s: State, r: RunId, u: WorkUnit)
    requires HoldersInv(s, u) && RecordedInv(s, u) && r in s.runs
    ensures RecordedInv(MoveRun(s, r), u)
  {
  }

  /** A record is only written over an empty one. */
  lemma RecordStays(s: State, r: RunId, u: WorkUnit)
    requires HoldersInv(s, u) && r in s.runs && Recorded(s, u)
    ensures Recorded(MoveRun(s, r), u) && MoveRun(s, r).children[u] == s.children[u]
  {
  }

  lemma UnitsStay(s: State, r: RunId, u: WorkUnit)
    requires r in s.runs
    ensures u in MoveRun(s, r).children <==> u in s.children
  {
  }

  /** Only the run that moves changes, and only in its phase. */
  lemma MoveIsLocal(s: State, r: RunId, q: RunId)
    requires r in s.runs && q in MoveRun(s, r).runs
    ensures q in s.runs
    ensures var was, now := s.runs[q], MoveRun(s, r).runs[q]; now == was.(phase := now.phase) && (q != r ==> now == was)
  {
  }

  /** A run past the gate was past it before the step or has just been let through. */
  lemma GatePassed(s: State, r: RunId)
    requires r in s.runs && r in MoveRun(s, r).runs && PastGate(MoveRun(s, r).runs[r].phase)
    ensures PastGate(s.runs[r].phase) || Owns(s, s.runs[r].actor, s.runs[r].target)
  {
    hide Owns;
  }

  lemma MoveKeepsGate(s: State, r: RunId, u: WorkUnit)
    requires HoldersInv(s, u) && GateInv(s, u) && r in s.runs
    ensures GateInv(MoveRun(s, r), u)
  {
    hide MoveRun, HoldersInv;
    var t := MoveRun(s, r);
    forall q | q in t.runs && t.runs[q].target == u && PastGate(t.runs[q].phase) ensures Owns(t, t.runs[q].actor, u) {
      MoveIsLocal(s, r, q);
      if q == r {
        GatePassed(s, r);
      }
      RecordStays(s, r, u);
    }
  }

  /** A claim of `u` survives a step of run `r`. */
  lemma MoveKeepsClaimed(s: State, r: RunId, u: WorkUnit)
    requires HoldersInv(s, u) && r in s.runs && Claimed(s, u) && u in s.children
    ensures Claimed(MoveRun(s, r), u)
  {
    var t := MoveRun(s, r);
    if s.children[u].Some? {
      RecordStays(s, r, u);
    } else {
      var h := s.leases[u].holder.value;
      if h != r {
        assert HoldsLease(t, h);
      }
    }
  }

  lemma MoveKeepsClaimedInv(s: State, r: RunId, u: WorkUnit)
    requires HoldersInv(s, u) && ClaimedInv(s, u) && r in s.runs
    ensures ClaimedInv(MoveRun(s, r), u)
  {
    hide HoldersInv;
    var t := MoveRun(s, r);
    if u in s.children {
      if Claimed(s, u) {
        MoveKeepsClaimed(s, r, u);
      } else if s.runs[r].target == u && s.runs[r].phase.Claiming? {
        assert u !in s.leases && HoldsLease(t, r);
      }
    }
  }

  lemma RecorderStays(s: State, r: RunId, q: RunId, u: WorkUnit)
    requires HoldersInv(s, u) && r in s.runs && IsRecorder(s, q, u)
    ensures IsRecorder(MoveRun(s, r), q, u)
  {
    RecordStays(s, r, u);
  }

  lemma MoveRecords(s: State, r: RunId, u: WorkUnit)
    requires r in s.runs && !Recorded(s, u) && Recorded(MoveRun(s, r), u)
    ensures IsRecorder(MoveRun(s, r), r, u)
  {
  }

  lemma MoveKeepsRecorder(s: State, r: RunId, u: WorkUnit)
    requires HoldersInv(s, u) && RecorderInv(s, u) && r in s.runs
    ensures RecorderInv(MoveRun(s, r), u)
  {
    hide MoveRun, HoldersInv, IsRecorder, Recorded;
    if Recorded(s, u) {
      var q :| IsRecorder(s, q, u);
      RecorderStays(s, r, q, u);
    } else if Recorded(MoveRun(s, r), u) {
      MoveRecords(s, r, u);
    }
  }

  /** What a step of a run does to the claim of its unit. */
  lemma MoveStamps(s: State, r: RunId, u: WorkUnit)
    requires r in s.runs && s.runs[r].target == u && HoldersInv(s, u) && RecordedInv(s, u) && StampInv(s, u)
    ensures StampInv(MoveRun(s, r), u)
  {
    var t := MoveRun(s, r);
    if u in s.children {
      forall q | q in t.runs && t.runs[q].target == u && t.runs[q].phase == Holding(true) && u in t.leases
        ensures t.leases[u].identity == Some(Delivery(t.runs[q].actor, t.runs[q].now))
      {
        if q != r {
          assert q in s.runs && s.runs[q] == t.runs[q];
          assert HoldsLease(s, q);
        } else if s.runs[r].phase.Holding? {
          assert HoldsLease(s, r);
        }
      }
      if s.runs[r].phase.Holding? {
        assert HoldsLease(s, r);
      }
    }
  }

  lemma OtherUnitsStay(s: State, r: RunId, u: WorkUnit)
    requires r in s.runs && s.runs[r].target != u
    ensures var t := MoveRun(s, r);
            && (u in t.leases <==> u in s.leases) && (u in s.leases ==> t.leases[u] == s.leases[u])
            && (u in t.children <==> u in s.children) && (u in s.children ==> t.children[u] == s.children[u])
  {
  }

  lemma MoveKeepsStamp(s: State, r: RunId, u: WorkUnit)
    requires HoldersInv(s, u) && RecordedInv(s, u) && StampInv(s, u) && r in s.runs
    ensures StampInv(MoveRun(s, r), u)
  {
    hide MoveRun, HoldersInv;
    if s.runs[r].target == u {
      MoveStamps(s, r, u);
    } else {
      OtherUnitsStay(s, r, u);
      var t := MoveRun(s, r);
      forall q | q in t.runs && t.runs[q].target == u && t.runs[q].phase == Holding(true) && u in t.children && u in t.leases
        ensures t.leases[u].identity == Some(Delivery(t.runs[q].actor, t.runs[q].now))
      {
        MoveIsLocal(s, r, q);
      }
    }
  }

  lemma LoggedStays(s: State, r: RunId, a: Attempt)
    requires r in s.runs && Logged(s, a)
    ensures Logged(MoveRun(s, r), a)
    ensures a.run == r ==> MoveRun(s, r).attempts == s.attempts
  {
  }

  lemma MoveLogs(s: State, r: RunId)
    requires r in s.runs
    ensures MoveRun(s, r).attempts == s.attempts ||
            exists a :: MoveRun(s, r).attempts == s.attempts + [a] && a.run == r && Logged(MoveRun(s, r), a)
  {
  }

  /** A run past its attempt was past it before or has just logged it. */
  lemma AttemptIsLogged(s: State, r: RunId, q: RunId)
    requires r in s.runs && q in MoveRun(s, r).runs
    requires s.runs[r].phase.Attempted? || s.runs[r].phase.Delivered? ==> OwnAttempt(s, r) in s.attempts
    requires q != r ==> OwnAttempt(MoveRun(s, r), q) in s.attempts
    ensures MoveRun(s, r).runs[q].phase.Attempted? || MoveRun(s, r).runs[q].phase.Delivered? ==>
              OwnAttempt(MoveRun(s, r), q) in MoveRun(s, r).attempts
  {
  }

  lemma MoveKeepsAttempts(s: State, r: RunId)
    requires AttemptsInv(s) && r in s.runs
    ensures AttemptsInv(MoveRun(s, r))
  {
    hide MoveRun, Logged;
    var t := MoveRun(s, r);
    MoveLogs(s, r);
    forall i | 0 <= i < |s.attempts|
      ensures Logged(t, s.attempts[i])
      ensures s.attempts[i].run == r ==> t.attempts == s.attempts
    {
      LoggedStays(s, r, s.attempts[i]);
    }
    forall q | q in t.runs && (t.runs[q].phase.Attempted? || t.runs[q].phase.Delivered?)
      ensures OwnAttempt(t, q) in t.attempts
    {
      MoveIsLocal(s, r, q);
      AttemptIsLogged(s, r, q);
    }
  }

  lemma MoveKeepsInv(s: State, r: RunId, u: WorkUnit)
    requires Inv(s, u) && r in s.runs
    ensures Inv(MoveRun(s, r), u)
  {
    hide HoldersInv, RecordedInv, GateInv, ClaimedInv, RecorderInv, StampInv, AttemptsInv, MoveRun;
    MoveKeepsHolders(s, r, u);
    MoveKeepsRecorded(s, r, u);
    MoveKeepsGate(s, r, u);
    MoveKeepsClaimedInv(s, r, u);
    MoveKeepsRecorder(s, r, u);
    MoveKeepsStamp(s, r, u);
    MoveKeepsAttempts(s, r);
  }

  lemma StepKeepsInv(s: State, e: Event, u: WorkUnit)
    requires Inv(s, u) && Safe(s, e, u)
    ensures Inv(Next(s, e), u)
  {
    hide Inv, MoveRun, Restarted, SafeRestart;
    match e
    case Start(_, _, _, _) => StartKeepsInv(s, e, u);
    case Move(r) => MoveKeepsInv(s, r, u);
    case Restart(live) => RestartKeepsInv(s, live, u);
  }

  // ---- whole runs ----

  lemma StepOf(states: seq<State>, events: seq<Event>, i: nat)
    requires Behaviour(states, events) && i < |events|
    ensures Enabled(states[i], events[i]) && states[i + 1] == Next(states[i], events[i])
  {
    hide Enabled, Next;
  }

  lemma {:induction false} AlwaysInv(states: seq<State>, events: seq<Event>, i: nat, u: WorkUnit)
    requires Behaviour(states, events) && i < |states| && SafeFor(states, events, i, u)
    ensures Inv(states[i], u)
  {
    hide Inv, Next, Safe;
    if i == 0 {
      InitialInv(states[0], u);
    } else {
      AlwaysInv(states, events, i - 1, u);
      StepOf(states, events, i - 1);
      StepKeepsInv(states[i - 1], events[i - 1], u);
    }
  }

  /** As long as the restarts are safe for a unit, all attempts for it come from the one actor
      that the durable record names. */
  lemma AttemptsComeFromOwner(states: seq<State>, events: seq<Event>, i: nat, u: WorkUnit, k: nat)
    requires Behaviour(states, events) && i < |states| && SafeFor(states, events, i, u)
    requires k < |states[i].attempts| && states[i].attempts[k].target == u
    ensures Owns(states[i], states[i].attempts[k].actor, u)
  {
    AlwaysInv(states, events, i, u);
    OwnersAttempt(states[i], u, k);
  }

  lemma OwnersAttempt(s: State, u: WorkUnit, k: nat)
    requires Inv(s, u) && k < |s.attempts| && s.attempts[k].target == u
    ensures Owns(s, s.attempts[k].actor, u)
  {
    assert Logged(s, s.attempts[k]);
  }

  lemma OneActorPerUnit(states: seq<State>, events: seq<Event>, i: nat, u: WorkUnit, j: nat, k: nat)
    requires Behaviour(states, events) && i < |states| && SafeFor(states, events, i, u)
    requires j < k < |states[i].attempts| && states[i].attempts[j].target == u && states[i].attempts[k].target == u
    ensures states[i].attempts[j].actor == states[i].attempts[k].actor
  {
    AttemptsComeFromOwner(states, events, i, u, j);
    AttemptsComeFromOwner(states, events, i, u, k);
  }

  /** Each actor runs the protocol at most once on `u`. */
  ghost predicate RunsOnce(s: State, u: WorkUnit) {
    forall p, q :: p in s.runs && q in s.runs && s.runs[p].actor == s.runs[q].actor && s.runs[p].target == s.runs[q].target == u
      ==> p == q
  }

  lemma AtMostOneAttempt(states: seq<State>, events: seq<Event>, i: nat, u: WorkUnit, j: nat, k: nat)
    requires Behaviour(states, events) && i < |states| && SafeFor(states, events, i, u) && RunsOnce(states[i], u)
    requires j < |states[i].attempts| && k < |states[i].attempts|
    requires states[i].attempts[j].target == u && states[i].attempts[k].target == u
    ensures j == k
  {
    AttemptsComeFromOwner(states, events, i, u, j);
    AttemptsComeFromOwner(states, events, i, u, k);
    AlwaysInv(states, events, i, u);
    AttemptsOfOneRun(states[i], j, k);
  }

  lemma AttemptsOfOneRun(s: State, j: nat, k: nat)
    requires AttemptsInv(s) && j < |s.attempts| && k < |s.attempts|
    ensures Logged(s, s.attempts[j]) && Logged(s, s.attempts[k])
    ensures s.attempts[j].run == s.attempts[k].run ==> j == k
  {
  }

  lemma StepKeepsRecord(s: State, e: Event, u: WorkUnit)
    requires HoldersInv(s, u) && Recorded(s, u)
    ensures Recorded(Next(s, e), u) && Next(s, e).children[u] == s.children[u]
  {
    hide MoveRun, HoldersInv;
    if e.Move? && e.run in s.runs {
      RecordStays(s, e.run, u);
    }
  }

  /** A recorded delivery is never changed again. */
  lemma {:induction false} RecordIsPermanent(states: seq<State>, events: seq<Event>, i: nat, j: nat, u: WorkUnit)
    requires Behaviour(states, events) && |states| == |events| + 1 && i <= j < |states|
    requires SafeFor(states, events, j, u) && Recorded(states[i], u)
    ensures Recorded(states[j], u) && states[j].children[u] == states[i].children[u]
    decreases j
  {
    hide Behaviour, Safe, Next, HoldersInv;
    if i < j {
      RecordIsPermanent(states, events, i, j - 1, u);
      AlwaysInv(states, events, j - 1, u);
      StepOf(states, events, j - 1);
      StepKeepsRecord(states[j - 1], events[j - 1], u);
    }
  }

  /** The step that logs an attempt finds the record already there. */
  lemma RecordedBeforeAttempt(states: seq<State>, events: seq<Event>, i: nat, u: WorkUnit)
    requires Behaviour(states, events) && i < |events| && SafeFor(states, events, i, u)
    requires states[i + 1].attempts != states[i].attempts
    ensures var a := states[i + 1].attempts[|states[i].attempts|];
            && states[i + 1].attempts == states[i].attempts + [a]
            && (a.target == u ==> Owns(states[i], a.actor, u))
  {
    hide Inv, Next;
    AlwaysInv(states, events, i, u);
    StepOf(states, events, i);
    StepLogsOwner(states[i], events[i], u);
  }

  lemma StepLogsOwner(s: State, e: Event, u: WorkUnit)
    requires Inv(s, u) && Next(s, e).attempts != s.attempts
    ensures |Next(s, e).attempts| == |s.attempts| + 1
    ensures var a := Next(s, e).attempts[|s.attempts|];
            Next(s, e).attempts == s.attempts + [a] && (a.target == u ==> Owns(s, a.actor, u))
  {
    hide MoveRun, HoldersInv, ClaimedInv, RecorderInv, AttemptsInv;
    MoveLogsCleared(s, e.run);
  }

  lemma MoveLogsCleared(s: State, r: RunId)
    requires r in s.runs && MoveRun(s, r).attempts != s.attempts
    ensures s.runs[r].phase.Cleared? && MoveRun(s, r).attempts == s.attempts + [OwnAttempt(s, r)]
  {
  }

  /** When no claim of it is in progress, a listed unit that anyone tried to claim has a
      recorded owner. */
  lemma SomeoneWins(states: seq<State>, events: seq<Event>, i: nat, r: RunId)
    requires Behaviour(states, events) && i < |states| && r in states[i].runs
    requires SafeFor(states, events, i, states[i].runs[r].target)
    requires !states[i].runs[r].phase.Claiming? && states[i].runs[r].target in states[i].children
    requires forall q :: q in states[i].runs && states[i].runs[q].target == states[i].runs[r].target ==>
               !states[i].runs[q].phase.Holding?
    ensures Recorded(states[i], states[i].runs[r].target)
  {
    AlwaysInv(states, events, i, states[i].runs[r].target);
  }

  // ---- how each run goes ----

  /** How often run `r` moves in the steps from `i` to `j`. */
  function MovesBetween(events: seq<Event>, r: RunId, i: nat, j: nat): nat
    requires j <= |events|
  {
    if j <= i then 0 else MovesBetween(events, r, i, j - 1) + if events[j - 1] == Move(r) then 1 else 0
  }

  /** The course of a run that starts when the delivery `record` stands: the owner is let
      through again, everyone else stands down and reports the record. */
  function LatePhase(owner: bool, moves: nat, record: Delivery): Phase {
    if moves == 0 then Claiming
    else if moves == 1 then Looking(0)
    else if owner then
      if moves == 2 then Won else if moves == 3 then Cleared else if moves == 4 then Attempted else Delivered
    else
      if moves == 2 then Lost(record) else StoodDown(Some(record))
  }

  lemma LateMove(s: State, r: RunId, u: WorkUnit, moves: nat, record: Delivery)
    requires Inv(s, u) && r in s.runs && s.runs[r].target == u && u in s.children && s.children[u] == Some(record)
    requires s.runs[r].phase == LatePhase(s.runs[r].actor == record.owner, moves, record)
    ensures MoveRun(s, r).runs[r].phase == LatePhase(s.runs[r].actor == record.owner, moves + 1, record)
  {
    hide HoldersInv, GateInv, ClaimedInv, RecorderInv, AttemptsInv;
    assert u in s.leases && s.leases[u].identity == Some(record);
  }

  lemma StepKeepsRun(s: State, e: Event, r: RunId)
    requires Enabled(s, e) && r in Next(s, e).runs && e != Move(r)
    ensures if r in s.runs then Next(s, e).runs[r] == s.runs[r]
            else e.Start? && e.run == r && Next(s, e).runs[r] == Run(e.actor, e.target, e.now, Claiming)
  {
    hide MoveRun;
    if e.Move? {
      MoveIsLocal(s, e.run, r);
    }
  }

  lemma MoveKeepsRun(s: State, r: RunId)
    requires r in s.runs
    ensures r in MoveRun(s, r).runs && MoveRun(s, r).runs[r].actor == s.runs[r].actor
    ensures MoveRun(s, r).runs[r].target == s.runs[r].target
  {
  }

  lemma {:induction false} NotYetStarted(states: seq<State>, events: seq<Event>, i: nat, j: nat, r: RunId)
    requires Behaviour(states, events) && i <= j < |states| && r !in states[j].runs
    ensures r !in states[i].runs && MovesBetween(events, r, i, j) == 0
    decreases j
  {
    hide Next;
    if i < j {
      StepOf(states, events, j - 1);
      RunsStay(states[j - 1], events[j - 1], r);
      NotYetStarted(states, events, i, j - 1, r);
    }
  }

  lemma RunsStay(s: State, e: Event, r: RunId)
    requires Enabled(s, e) && r !in Next(s, e).runs
    ensures r !in s.runs && e != Move(r)
  {
  }

  /** In every interleaving, with restarts that are safe for the unit, a run that starts after
      the unit was recorded for `record.owner` takes exactly this course: its phase depends
      only on how often it has moved and on whether it is a run of the owner. */
  lemma {:induction false} LateRunCourse(states: seq<State>, events: seq<Event>, i: nat, j: nat, r: RunId, u: WorkUnit)
    requires Behaviour(states, events) && i <= j < |states| && SafeFor(states, events, j, u)
    requires Recorded(states[i], u) && r !in states[i].runs && r in states[j].runs && states[j].runs[r].target == u
    ensures var record := states[i].children[u].value;
            states[j].runs[r].phase ==
              LatePhase(states[j].runs[r].actor == record.owner, MovesBetween(events, r, i, j), record)
    decreases j
  {
    hide Next, Safe, Inv, LatePhase, MoveRun;
    var record := states[i].children[u].value;
    var s, e := states[j - 1], events[j - 1];
    StepOf(states, events, j - 1);
    RecordIsPermanent(states, events, i, j - 1, u);
    AlwaysInv(states, events, j - 1, u);
    if e == Move(r) {
      EnabledMove(s, r);
      MoveKeepsRun(s, r);
      NextMove(s, r);
      LateRunCourse(states, events, i, j - 1, r, u);
      LateMove(s, r, u, MovesBetween(events, r, i, j - 1), record);
    } else {
      StepKeepsRun(s, e, r);
      if r in s.runs {
        LateRunCourse(states, events, i, j - 1, r, u);
      } else {
        NotYetStarted(states, events, i, j - 1, r);
        LateStart(states[j].runs[r].actor == record.owner, record);
      }
    }
  }

  lemma EnabledMove(s: State, r: RunId)
    requires Enabled(s, Move(r))
    ensures r in s.runs
  {
  }

  lemma NextMove(s: State, r: RunId)
    requires r in s.runs
    ensures Next(s, Move(r)) == MoveRun(s, r)
  {
  }

  lemma LateStart(owner: bool, record: Delivery)
    ensures LatePhase(owner, 0, record) == Claiming
  {
  }

  /** Anyone but the owner stands down after three moves, has reported owner and time of the
      record, and has opened no pull request. */
  lemma LoserStandsDown(states: seq<State>, events: seq<Event>, i: nat, j: nat, r: RunId, u: WorkUnit)
    requires Behaviour(states, events) && i <= j < |states| && SafeFor(states, events, j, u)
    requires Recorded(states[i], u) && r !in states[i].runs && r in states[j].runs && states[j].runs[r].target == u
    requires states[j].runs[r].actor != states[i].children[u].value.owner
    ensures MovesBetween(events, r, i, j) >= 3 ==> states[j].runs[r].phase == StoodDown(states[i].children[u])
    ensures forall k :: 0 <= k < |states[j].attempts| ==> states[j].attempts[k].run != r
  {
    hide Behaviour, Next, Safe;
    LateRunCourse(states, events, i, j, r, u);
    AlwaysInv(states, events, j, u);
    forall k | 0 <= k < |states[j].attempts| ensures states[j].attempts[k].run != r {
      assert Logged(states[j], states[j].attempts[k]);
    }
  }

  /** The owner itself is let through again and delivers. */
  lemma OwnerReenters(states: seq<State>, events: seq<Event>, i: nat, j: nat, r: RunId, u: WorkUnit)
    requires Behaviour(states, events) && i <= j < |states| && SafeFor(states, events, j, u)
    requires Recorded(states[i], u) && r !in states[i].runs && r in states[j].runs && states[j].runs[r].target == u
    requires states[j].runs[r].actor == states[i].children[u].value.owner
    ensures MovesBetween(events, r, i, j) == 3 ==> states[j].runs[r].phase == Cleared
    ensures MovesBetween(events, r, i, j) >= 5 ==> states[j].runs[r].phase == Delivered
    ensures MovesBetween(events, r, i, j) >= 4 ==> OwnAttempt(states[j], r) in states[j].attempts
  {
    hide Behaviour, Next, Safe;
    LateRunCourse(states, events, i, j, r, u);
    AlwaysInv(states, events, j, u);
    assert AttemptsInv(states[j]);
  }

  /** The course of the run that creates the claim. */
  function FirstPhase(moves: nat): Phase {
    if moves == 1 then Holding(false)
    else if moves == 2 then Holding(true)
    else if moves == 3 then Won
    else if moves == 4 then Cleared
    else if moves == 5 then Attempted
    else if moves >= 6 then Delivered
    else Claiming
  }

  ghost predicate OnCourse(s: State, r: RunId, u: WorkUnit, moves: nat) {
    && r in s.runs && s.runs[r].target == u && u in s.children && s.runs[r].phase == FirstPhase(moves)
    && (moves >= 3 ==> s.children[u] == Some(Delivery(s.runs[r].actor, s.runs[r].now)))
  }

  lemma FirstMove(s: State, r: RunId, u: WorkUnit, moves: nat)
    requires moves >= 1 && OnCourse(s, r, u, moves)
    ensures OnCourse(MoveRun(s, r), r, u, moves + 1)
  {
    hide Verdict;
  }

  lemma CourseStays(s: State, e: Event, r: RunId, u: WorkUnit, moves: nat)
    requires Inv(s, u) && Enabled(s, e) && e != Move(r) && OnCourse(s, r, u, moves)
    ensures OnCourse(Next(s, e), r, u, moves)
  {
    hide MoveRun, FirstPhase, HoldersInv, GateInv, ClaimedInv, RecorderInv, AttemptsInv, StampInv;
    if e.Move? {
      MoveHasRuns(s, e.run, r);
      UnitsStay(s, e.run, u);
    }
    StepKeepsRun(s, e, r);
    if moves >= 3 {
      StepKeepsRecord(s, e, u);
    }
  }

  lemma MoveHasRuns(s: State, q: RunId, r: RunId)
    requires q in s.runs && r in s.runs
    ensures r in MoveRun(s, q).runs
  {
  }

  /** In every interleaving, with restarts that are safe for the unit, the run that finds a
      listed unit unclaimed claims it, records its own name and time, is let through and
      delivers. */
  lemma {:induction false} FirstRunCourse(states: seq<State>, events: seq<Event>, i: nat, j: nat, r: RunId, u: WorkUnit)
    requires Behaviour(states, events) && i < j < |states| && SafeFor(states, events, j, u)
    requires r in states[i].runs && states[i].runs[r].phase == Claiming && states[i].runs[r].target == u
    requires u in states[i].children && u !in states[i].leases && events[i] == Move(r)
    ensures OnCourse(states[j], r, u, MovesBetween(events, r, i, j))
    decreases j
  {
    hide Next, Safe, Inv, OnCourse, MoveRun;
    var s, e := states[j - 1], events[j - 1];
    StepOf(states, events, j - 1);
    if j == i + 1 {
      NextMove(s, r);
      CourseBegins(s, r, u);
    } else {
      FirstRunCourse(states, events, i, j - 1, r, u);
      AlwaysInv(states, events, j - 1, u);
      var moves := MovesBetween(events, r, i, j - 1);
      MovedOnce(events, r, i, j - 1);
      if e == Move(r) {
        EnabledMove(s, r);
        NextMove(s, r);
        FirstMove(s, r, u, moves);
      } else {
        CourseStays(s, e, r, u, moves);
      }
    }
  }

  lemma CourseBegins(s: State, r: RunId, u: WorkUnit)
    requires r in s.runs && s.runs[r].phase == Claiming && s.runs[r].target == u && u in s.children && u !in s.leases
    ensures OnCourse(MoveRun(s, r), r, u, 1)
  {
  }

  lemma {:induction false} MovedOnce(events: seq<Event>, r: RunId, i: nat, j: nat)
    requires i < j <= |events| && events[i] == Move(r)
    ensures MovesBetween(events, r, i, j) >= 1
  {
    if j > i + 1 {
      MovedOnce(events, r, i, j - 1);
    }
  }

  /** Whatever happened before, restarts of any kind included: a run is let through only if
      the record names its actor at that moment; else it stands down and reports the record. */
  lemma GateReadsRecord(states: seq<State>, events: seq<Event>, i: nat, r: RunId)
    requires Behaviour(states, events) && i < |events| && events[i] == Move(r)
    requires r in states[i].runs && states[i].runs[r].phase == Won
    ensures var run := states[i].runs[r];
            var record := if run.target in states[i].children then states[i].children[run.target] else None;
            && r in states[i + 1].runs && states[i + 1].attempts == states[i].attempts
            && states[i + 1].runs[r].phase ==
               if record.Some? && record.value.owner == run.actor then Cleared else StoodDown(record)
  {
    hide Verdict;
  }

  /** A run that finds a claim nobody stamps gives up after exactly fifty looks and stands down
      against an unknown owner. */
  lemma FiftyLooks(s: State, r: RunId, u: WorkUnit)
    requires r in s.runs && s.runs[r].target == u && s.runs[r].phase == Looking(0) && s.runs[r].actor != "unknown"
    requires u in s.leases ==> s.leases[u].identity.None?
    ensures After(s, Moves(r, 49)) == Phased(s, r, Looking(49))
    ensures After(s, Moves(r, 50)) == Phased(s, r, Lost(Delivery("unknown", "unknown")))
    ensures After(s, Moves(r, 51)) == Phased(s, r, StoodDown(Some(Delivery("unknown", "unknown"))))
  {
    hide After, Moves;
    LooksOn(s, r, u, 49);
    LastMove(s, r, 49);
    LastMove(s, r, 50);
  }

  lemma {:induction false} LooksOn(s: State, r: RunId, u: WorkUnit, n: nat)
    requires r in s.runs && s.runs[r].target == u && s.runs[r].phase == Looking(0) && n < 50
    requires u in s.leases ==> s.leases[u].identity.None?
    ensures After(s, Moves(r, n)) == Phased(s, r, Looking(n))
  {
    if n == 0 {
      assert Moves(r, 0) == [];
    } else {
      LooksOn(s, r, u, n - 1);
      LastMove(s, r, n - 1);
    }
  }

  /** One more move at the end. */
  lemma {:induction false} LastMove(s: State, r: RunId, n: nat)
    ensures After(s, Moves(r, n + 1)) == Next(After(s, Moves(r, n)), Move(r))
    decreases n
  {
    hide Next;
    assert Moves(r, n + 1)[0] == Move(r) && Moves(r, n + 1)[1..] == Moves(r, n);
    if n > 0 {
      assert Moves(r, n)[0] == Move(r) && Moves(r, n)[1..] == Moves(r, n - 1);
      LastMove(Next(s, Move(r)), r, n - 1);
    } else {
      assert After(Next(s, Move(r)), []) == Next(s, Move(r));
    }
  }

  /** A run on a unit that is not listed fails after it has claimed it, and records nothing. */
  lemma UnlistedFails(s: State, r: RunId, u: WorkUnit)
    requires r in s.runs && s.runs[r].target == u && s.runs[r].phase == Claiming && u !in s.leases && u !in s.children
    ensures var t := After(s, Moves(r, 3));
            r in t.runs && t.runs[r].phase == Failed && t.children == s.children && t.attempts == s.attempts
  {
    LastMove(s, r, 0);
    LastMove(s, r, 1);
    LastMove(s, r, 2);
    assert Moves(r, 0) == [];
  }

  // ---- the restart condition is exact ----

  function After(s: State, events: seq<Event>): State
    decreases |events|
  {
    if events == [] then s else After(Next(s, events[0]), events[1..])
  }

  /** The events can happen from `s` on, and are safe for `u`. */
  ghost predicate Continues(s: State, events: seq<Event>, u: WorkUnit)
    decreases |events|
  {
    events == [] || (Safe(s, events[0], u) && Continues(Next(s, events[0]), events[1..], u))
  }

  ghost predicate TwoActors(s: State, u: WorkUnit) {
    exists j, k :: 0 <= j < |s.attempts| && 0 <= k < |s.attempts| && s.attempts[j].target == s.attempts[k].target == u
      && s.attempts[j].actor != s.attempts[k].actor
  }

  lemma {:induction false} ContinuesKeepsInv(s: State, events: seq<Event>, u: WorkUnit)
    requires Inv(s, u) && Continues(s, events, u)
    ensures Inv(After(s, events), u)
    decreases |events|
  {
    hide Inv, Safe, Next;
    if events != [] {
      StepKeepsInv(s, events[0], u);
      ContinuesKeepsInv(Next(s, events[0]), events[1..], u);
    }
  }

  lemma {:induction false} AfterBoth(s: State, a: seq<Event>, b: seq<Event>, u: WorkUnit)
    ensures After(s, a + b) == After(After(s, a), b)
    ensures Continues(s, a, u) && Continues(After(s, a), b, u) ==> Continues(s, a + b, u)
    decreases |a|
  {
    hide Next, Safe;
    if a == [] {
      assert a + b == b;
    } else {
      assert (a + b)[1..] == a[1..] + b;
      AfterBoth(Next(s, a[0]), a[1..], b, u);
    }
  }

  function Moves(r: RunId, n: nat): seq<Event> {
    if n == 0 then [] else [Move(r)] + Moves(r, n - 1)
  }

  lemma OneMove(s: State, r: RunId, n: nat, u: WorkUnit)
    requires n > 0 && r in s.runs
    ensures After(s, Moves(r, n)) == After(MoveRun(s, r), Moves(r, n - 1))
    ensures Continues(MoveRun(s, r), Moves(r, n - 1), u) ==> Continues(s, Moves(r, n), u)
  {
    hide MoveRun;
    assert Moves(r, n)[0] == Move(r) && Moves(r, n)[1..] == Moves(r, n - 1);
  }

  /** `t` is reached from `s` by moves of `r` alone and has one attempt of `r` more. */
  ghost predicate Attempts(s: State, t: State, r: RunId, u: WorkUnit) {
    && r in s.runs && t.attempts == s.attempts + [Attempt(r, s.runs[r].actor, u)]
    && (forall q :: q in s.runs && q != r ==> q in t.runs && t.runs[q] == s.runs[q])
    && t.children.Keys == s.children.Keys
  }

  /** A run whose record stands passes the gate and attempts. */
  lemma WinnerDelivers(s: State, r: RunId, u: WorkUnit)
    requires r in s.runs && s.runs[r].phase == Won && s.runs[r].target == u && Owns(s, s.runs[r].actor, u)
    ensures Continues(s, Moves(r, 2), u) && Attempts(s, After(s, Moves(r, 2)), r, u)
    ensures After(s, Moves(r, 2)).leases == s.leases
  {
    OneMove(s, r, 2, u);
    var s1 := MoveRun(s, r);
    assert s1.runs[r].phase == Cleared;
    OneMove(s1, r, 1, u);
    var s2 := MoveRun(s1, r);
    assert After(s2, Moves(r, 0)) == s2;
  }

  /** From a stamped claim a run that is left alone records, passes the gate and attempts. */
  lemma HolderDelivers(s: State, r: RunId, u: WorkUnit)
    requires r in s.runs && s.runs[r].phase == Holding(true) && s.runs[r].target == u && u in s.children
    ensures Continues(s, Moves(r, 3), u) && Attempts(s, After(s, Moves(r, 3)), r, u)
  {
    OneMove(s, r, 3, u);
    var s1 := MoveRun(s, r);
    assert s1.children.Keys == s.children.Keys;
    WinnerDelivers(s1, r, u);
  }

  /** The stamp makes no difference to that. */
  lemma ClaimantDelivers(s: State, r: RunId, u: WorkUnit) returns (n: nat)
    requires r in s.runs && s.runs[r].phase.Holding? && s.runs[r].target == u && u in s.children
    ensures Continues(s, Moves(r, n), u) && Attempts(s, After(s, Moves(r, n)), r, u)
  {
    if s.runs[r].phase.stamped {
      HolderDelivers(s, r, u);
      n := 3;
    } else {
      OneMove(s, r, 4, u);
      HolderDelivers(MoveRun(s, r), r, u);
      n := 4;
    }
  }

  /** A run that finds no lease claims, records and attempts. */
  lemma NewcomerDelivers(s: State, p: RunId, b: Actor, u: WorkUnit)
    requires p !in s.runs && u in s.children && u !in s.leases
    ensures var events := [Start(p, b, u, "")] + Moves(p, 5);
            var t := After(s, events);
            && Continues(s, events, u) && t.attempts == s.attempts + [Attempt(p, b, u)]
            && (forall q :: q in s.runs ==> q in t.runs && t.runs[q] == s.runs[q])
            && t.children.Keys == s.children.Keys
  {
    var s0 := Next(s, Start(p, b, u, ""));
    assert ([Start(p, b, u, "")] + Moves(p, 5))[1..] == Moves(p, 5);
    OneMove(s0, p, 5, u);
    var s1 := MoveRun(s0, p);
    OneMove(s1, p, 4, u);
    var s2 := MoveRun(s1, p);
    assert s2.runs[p].phase == Holding(true) && s2.children == s.children && s2.attempts == s.attempts;
    HolderDelivers(s2, p, u);
  }

  lemma TwoAttempts(s: State, a: Attempt, b: Attempt, u: WorkUnit)
    requires a in s.attempts && b in s.attempts && a.target == u && b.target == u && a.actor != b.actor
    ensures TwoActors(s, u)
  {
    var j :| 0 <= j < |s.attempts| && s.attempts[j] == a;
    var k :| 0 <= k < |s.attempts| && s.attempts[k] == b;
  }

  /** The owner's run makes its attempt, if it has not yet. */
  lemma RecorderDelivers(s: State, r: RunId, u: WorkUnit) returns (n: nat)
    requires AttemptsInv(s) && IsRecorder(s, r, u)
    ensures Continues(s, Moves(r, n), u)
    ensures var t := After(s, Moves(r, n));
            && OwnAttempt(s, r) in t.attempts && t.leases == s.leases && t.children == s.children
            && t.runs.Keys == s.runs.Keys
  {
    n := 0;
    if s.runs[r].phase.Won? {
      n := 2;
      OneMove(s, r, 2, u);
      OneMove(MoveRun(s, r), r, 1, u);
      WinnerDelivers(s, r, u);
    } else if s.runs[r].phase.Cleared? {
      n := 1;
      OneMove(s, r, 1, u);
      assert After(MoveRun(s, r), Moves(r, 0)) == MoveRun(s, r);
    }
  }

  /** A restart that leaves out the recorded owner of a unit lets a second actor deliver it. */
  lemma OmittedOwnerLetsSecondIn(s: State, live: set<Actor>, u: WorkUnit, p: RunId) returns (more: seq<Event>)
    requires Inv(s, u) && Recorded(s, u) && s.children[u].value.owner !in live && p !in s.runs
    ensures Continues(Restarted(s, live), more, u) && TwoActors(After(Restarted(s, live), more), u)
  {
    hide HoldersInv, GateInv, ClaimedInv, RecordedInv;
    var t := Restarted(s, live);
    var r :| IsRecorder(s, r, u);
    var b := s.runs[r].actor + "'";
    assert IsRecorder(t, r, u) && AttemptsInv(t) && u !in t.leases;
    var n := RecorderDelivers(t, r, u);
    var t1 := After(t, Moves(r, n));
    NewcomerDelivers(t1, p, b, u);
    var rest := [Start(p, b, u, "")] + Moves(p, 5);
    AfterBoth(t, Moves(r, n), rest, u);
    more := Moves(r, n) + rest;
    TwoAttempts(After(t1, rest), OwnAttempt(s, r), Attempt(p, b, u), u);
  }

  /** A restart between a claim of a unit and its record lets two actors deliver it. */
  lemma RestartInsideClaimLetsTwoIn(s: State, live: set<Actor>, u: WorkUnit, h: RunId, p: RunId) returns (more: seq<Event>)
    requires Inv(s, u) && u in s.children && p !in s.runs
    requires h in s.runs && s.runs[h].target == u && s.runs[h].phase.Holding?
    ensures Continues(Restarted(s, live), more, u) && TwoActors(After(Restarted(s, live), more), u)
  {
    hide GateInv, ClaimedInv, RecordedInv, RecorderInv, AttemptsInv;
    var t := Restarted(s, live);
    assert s.children[u].None? && u !in t.leases;
    var a := s.runs[h].actor;
    var b := a + "'";
    NewcomerDelivers(t, p, b, u);
    var first := [Start(p, b, u, "")] + Moves(p, 5);
    var t1 := After(t, first);
    var n := ClaimantDelivers(t1, h, u);
    AfterBoth(t, first, Moves(h, n), u);
    more := first + Moves(h, n);
    TwoAttempts(After(t1, Moves(h, n)), Attempt(h, a, u), Attempt(p, b, u), u);
  }

  lemma {:induction false} UnusedId(ids: set<RunId>) returns (p: RunId)
    ensures forall r :: r in ids ==> r < p
  {
    p := 0;
    if r :| r in ids {
      var q := UnusedId(ids - {r});
      p := if q > r then q else r + 1;
      assert forall x :: x in ids ==> x == r || x in ids - {r};
    }
  }

  /** After a run that was safe for a unit so far, a restart is safe for it exactly when
      no continuation has pull requests of two actors for it. */
  lemma RestartConditionIsExact(states: seq<State>, events: seq<Event>, i: nat, live: set<Actor>, u: WorkUnit)
    requires Behaviour(states, events) && i < |states| && SafeFor(states, events, i, u)
    ensures SafeRestart(states[i], live, u) <==>
            forall more :: Continues(Restarted(states[i], live), more, u) ==>
              !TwoActors(After(Restarted(states[i], live), more), u)
  {
    hide Inv, TwoActors, Next, Restarted, Continues, After;
    var s := states[i];
    var t := Restarted(s, live);
    var p := UnusedId(s.runs.Keys);
    AlwaysInv(states, events, i, u);
    if SafeRestart(s, live, u) {
      RestartKeepsInv(s, live, u);
      forall more | Continues(t, more, u) ensures !TwoActors(After(t, more), u) {
        ContinuesKeepsInv(t, more, u);
        OneOwner(After(t, more), u);
      }
    } else if h :| h in s.runs && s.runs[h].target == u && s.runs[h].phase.Holding? {
      var more := RestartInsideClaimLetsTwoIn(s, live, u, h, p);
    } else {
      var more := OmittedOwnerLetsSecondIn(s, live, u, p);
    }
  }

  lemma OneOwner(s: State, u: WorkUnit)
    requires Inv(s, u)
    ensures !TwoActors(s, u)
  {
    hide Inv;
    forall k | 0 <= k < |s.attempts| && s.attempts[k].target == u ensures Owns(s, s.attempts[k].actor, u) {
      OwnersAttempt(s, u, k);
    }
  }
}
