/** The advisory lock of the hook writer: any number of writers, any interleaving. */
module HookLock {
  import opened Wrappers

  type WriterId = nat

  /** Where a writer stands in `withLock`. */
  datatype Phase =
    | Trying               // about to create the marker exclusively
    | Blocked              // creation failed; about to look at the marker's age
    | Reclaiming           // judged the marker stale; about to unlink it
    | Waiting              // about to check the deadline and sleep
    | Inside               // in the critical section
    | Left                 // released the lock
    | TimedOut

  /** The marker file: who created it and when. */
  datatype Marker = Marker(creator: WriterId, created: int)

  datatype State = State(marker: Option<Marker>, writers: map<WriterId, Phase>, deadlines: map<WriterId, int>, now: int)

  datatype Event = Arrive(w: WriterId, deadline: int) | Move(w: WriterId) | Tick(ms: nat)

  function At(s: State, w: WriterId, p: Phase): State {
    s.(writers := s.writers[w := p])
  }

  predicate Stale(s: State, staleMs: int) {
    s.marker.Some? && s.now - s.marker.value.created > staleMs
  }

  function MoveWriter(s: State, w: WriterId, staleMs: int): State
    requires w in s.writers && w in s.deadlines
  {
    match s.writers[w]
    case Trying =>
      if s.marker.None? then At(s, w, Inside).(marker := Some(Marker(w, s.now))) else At(s, w, Blocked)
    case Blocked => if Stale(s, staleMs) then At(s, w, Reclaiming) else At(s, w, Waiting)
    case Reclaiming => At(s, w, Trying).(marker := None)
    case Waiting => if s.now >= s.deadlines[w] then At(s, w, TimedOut) else At(s, w, Trying)
    case Inside => At(s, w, Left).(marker := None)
    case _ => s
  }

  ghost predicate Enabled(s: State, e: Event) {
    match e
    case Arrive(w, _) => w !in s.writers
    case Move(w) => w in s.writers && w in s.deadlines
    case Tick(_) => true
  }

  function Next(s: State, e: Event, staleMs: int): State {
    match e
    case Arrive(w, d) => s.(writers := s.writers[w := Trying], deadlines := s.deadlines[w := d])
    case Move(w) => if w in s.writers && w in s.deadlines then MoveWriter(s, w, staleMs) else s
    case Tick(ms) => s.(now := s.now + ms)
  }

  ghost predicate Initial(s: State) {
    s.marker.None? && s.writers == map[] && s.deadlines == map[]
  }

  /** No contender looks at a marker older than the stale limit. */
  ghost predicate NeverStale(s: State, e: Event, staleMs: int) {
    e.Move? && e.w in s.writers && s.writers[e.w] == Blocked && s.marker.Some? ==>
      s.now - s.marker.value.created <= staleMs
  }

  ghost predicate Behaviour(states: seq<State>, events: seq<Event>, staleMs: int) {
    && |states| == |events| + 1 && Initial(states[0])
    && (forall i :: 0 <= i < |events| ==>
          Enabled(states[i], events[i]) && states[i + 1] == Next(states[i], events[i], staleMs))
  }

  /** The writer inside is the one that created the marker, and nobody is reclaiming. */
  ghost predicate Inv(s: State) {
    && (forall w :: w in s.writers && s.writers[w] == Inside ==> s.marker.Some? && s.marker.value.creator == w)
    && (s.marker.Some? ==> s.marker.value.creator in s.writers && s.writers[s.marker.value.creator] == Inside)
    && (forall w :: w in s.writers ==> s.writers[w] != Reclaiming)
  }

  lemma StepKeepsInv(s: State, e: Event, staleMs: int)
    requires Inv(s) && Enabled(s, e) && NeverStale(s, e, staleMs)
    ensures Inv(Next(s, e, staleMs))
  {
  }

  lemma {:induction false} AlwaysInv(states: seq<State>, events: seq<Event>, staleMs: int, i: nat)
    requires Behaviour(states, events, staleMs) && i < |states|
    requires forall j :: 0 <= j < i ==> NeverStale(states[j], events[j], staleMs)
    ensures Inv(states[i])
  {
    if i > 0 {
      AlwaysInv(states, events, staleMs, i - 1);
      assert NeverStale(states[i - 1], events[i - 1], staleMs);
      StepKeepsInv(states[i - 1], events[i - 1], staleMs);
    }
  }

  /** At most one writer is inside. */
  lemma MutualExclusion(states: seq<State>, events: seq<Event>, staleMs: int, i: nat, v: WriterId, w: WriterId)
    requires Behaviour(states, events, staleMs) && i < |states|
    requires forall j :: 0 <= j < i ==> NeverStale(states[j], events[j], staleMs)
    requires v in states[i].writers && states[i].writers[v] == Inside
    requires w in states[i].writers && states[i].writers[w] == Inside
    ensures v == w
  {
    AlwaysInv(states, events, staleMs, i);
  }

  /** Whenever the marker disappears, it is its creator that leaves. */
  lemma ReleaseRemovesOwnMarker(states: seq<State>, events: seq<Event>, staleMs: int, i: nat)
    requires Behaviour(states, events, staleMs) && i < |events|
    requires forall j :: 0 <= j < i + 1 ==> NeverStale(states[j], events[j], staleMs)
    requires states[i].marker.Some? && states[i + 1].marker != states[i].marker
    ensures events[i] == Move(states[i].marker.value.creator)
    ensures states[i].writers[events[i].w] == Inside && states[i + 1].writers[events[i].w] == Left
    ensures states[i + 1].marker.None?
  {
    AlwaysInv(states, events, staleMs, i);
  }

  /** The marker tells the time when the writer that is inside entered. */
  lemma MarkerTellsEntry(states: seq<State>, events: seq<Event>, staleMs: int, i: nat)
    requires Behaviour(states, events, staleMs) && i < |events|
    requires states[i].marker.None? && states[i + 1].marker.Some?
    ensures events[i].Move? && states[i + 1].marker == Some(Marker(events[i].w, states[i].now))
    ensures events[i].w in states[i + 1].writers && states[i + 1].writers[events[i].w] == Inside
  {
    assert Enabled(states[i], events[i]);
  }

  function Moved(s: State, w: WriterId, staleMs: int, n: nat): State {
    if n == 0 then s else Next(Moved(s, w, staleMs, n - 1), Move(w), staleMs)
  }

  /** A writer that finds no marker enters, and its next step releases the lock. */
  lemma FreeLockIsTaken(s: State, w: WriterId, staleMs: int)
    requires w in s.writers && w in s.deadlines && s.writers[w] == Trying && s.marker.None?
    ensures var t := Moved(s, w, staleMs, 1);
            w in t.writers && t.writers[w] == Inside && t.marker == Some(Marker(w, s.now))
    ensures var t := Moved(s, w, staleMs, 2);
            w in t.writers && t.writers[w] == Left && t.marker.None?
  {
    assert Moved(s, w, staleMs, 1) == Next(s, Move(w), staleMs);
    assert Moved(s, w, staleMs, 2) == Next(Moved(s, w, staleMs, 1), Move(w), staleMs);
  }

  /** A writer that finds a marker within the stale limit leaves it alone, and tries again
      exactly as long as its deadline has not come. */
  lemma HeldLockIsRespected(s: State, w: WriterId, staleMs: int)
    requires w in s.writers && w in s.deadlines && s.writers[w] == Trying && s.marker.Some?
    requires s.now - s.marker.value.created <= staleMs
    ensures var t := Moved(s, w, staleMs, 3);
            && t.marker == s.marker && w in t.writers
            && t.writers[w] == if s.now < s.deadlines[w] then Trying else TimedOut
  {
    assert Moved(s, w, staleMs, 0) == s;
    var s1 := Moved(s, w, staleMs, 1);
    assert s1 == Next(s, Move(w), staleMs) && s1.writers[w] == Blocked;
    var s2 := Moved(s, w, staleMs, 2);
    assert s2 == Next(s1, Move(w), staleMs) && s2.writers[w] == Waiting;
    assert Moved(s, w, staleMs, 3) == Next(s2, Move(w), staleMs);
  }

  /** Three steps of a contender that finds a marker stale while its creator is inside. */
  lemma ReclaimEnters(s: State, a: WriterId, b: WriterId, staleMs: int)
    requires a != b && a in s.writers && s.writers[a] == Inside
    requires s.marker.Some? && s.now - s.marker.value.created > staleMs
    requires b in s.writers && b in s.deadlines && s.writers[b] == Blocked
    ensures var s1 := Next(s, Move(b), staleMs);
            var s2 := Next(s1, Move(b), staleMs);
            var s3 := Next(s2, Move(b), staleMs);
            && Enabled(s, Move(b)) && Enabled(s1, Move(b)) && Enabled(s2, Move(b))
            && a in s3.writers && s3.writers[a] == Inside && b in s3.writers && s3.writers[b] == Inside
  {
    var s1 := Next(s, Move(b), staleMs);
    assert s1.writers[b] == Reclaiming;
    var s2 := Next(s1, Move(b), staleMs);
    assert s2.writers[b] == Trying && s2.marker.None?;
  }

  /** The condition is exact: the first time in a run that a contender finds the marker
      stale, three steps of that contender put two writers inside. */
  lemma StaleMarkerLetsSecondIn(states: seq<State>, events: seq<Event>, staleMs: int, i: nat)
    returns (states': seq<State>, events': seq<Event>, a: WriterId)
    requires Behaviour(states, events, staleMs) && i < |events|
    requires (forall j :: 0 <= j < i ==> NeverStale(states[j], events[j], staleMs)) && !NeverStale(states[i], events[i], staleMs)
    ensures events' == events[..i] + [Move(events[i].w), Move(events[i].w), Move(events[i].w)]
    ensures Behaviour(states', events', staleMs) && states'[..i + 1] == states[..i + 1]
    ensures var t := states'[i + 3];
            && a != events[i].w && a in t.writers && t.writers[a] == Inside
            && events[i].w in t.writers && t.writers[events[i].w] == Inside
  {
    hide Next, Enabled;
    var s, b := states[i], events[i].w;
    AlwaysInv(states, events, staleMs, i);
    a := s.marker.value.creator;
    assert Enabled(s, events[i]);
    Contender(s, events[i]);
    ReclaimEnters(s, a, b, staleMs);
    var s1 := Next(s, Move(b), staleMs);
    var s2 := Next(s1, Move(b), staleMs);
    states' := states[..i + 1] + [s1, s2, Next(s2, Move(b), staleMs)];
    events' := events[..i] + [Move(b), Move(b), Move(b)];
  }

  lemma Contender(s: State, e: Event)
    requires Enabled(s, e) && e.Move?
    ensures e.w in s.writers && e.w in s.deadlines
  {
  }
}
