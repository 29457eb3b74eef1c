/** Launching a task at most once over a lossy network. */
module SpawnReconcile {
  import opened Wrappers

  type Key = string

  // ---- the client loop ----

  /** What one POST came to: the server's answer, or a network error or timeout. */
  datatype Outcome = Accepted(task: nat) | Refused(status: int, retryAfterMs: Option<int>) | NoAnswer

  predicate IsReconcilableStatus(status: int) {
    500 <= status <= 599
  }

  /** The outcome leaves open whether a task exists. */
  predicate Ambiguous(o: Outcome) {
    o.NoAnswer? || (o.Refused? && IsReconcilableStatus(o.status))
  }

  predicate Repost(keyed: bool, attempt: nat, retries: nat, o: Outcome) {
    Ambiguous(o) && keyed && attempt < retries
  }

  const BASE_DELAY_MS := 500
  const MAX_DELAY_MS := 8000

  function Pow2(n: nat): (p: nat)
    ensures p > 0
  {
    if n == 0 then 1 else 2 * Pow2(n - 1)
  }

  /** The wait before the next try: the server's hint if it gave one, else doubling. */
  function ReconcileDelayMs(attempt: nat, retryAfterMs: Option<int>): (d: int)
    ensures 0 < d <= MAX_DELAY_MS
  {
    var wanted := if retryAfterMs.Some? && retryAfterMs.value > 0 then retryAfterMs.value else BASE_DELAY_MS * Pow2(attempt);
    if wanted < MAX_DELAY_MS then wanted else MAX_DELAY_MS
  }

  /** The server's hint in an answer, if there was an answer. */
  function Hint(o: Outcome): Option<int> {
    if o.Refused? then o.retryAfterMs else None
  }

  function HintsOf(world: nat -> Outcome): nat -> Option<int> {
    (i: nat) => Hint(world(i))
  }

  const NO_HINTS: nat -> Option<int> := (i: nat) => None

  /** The waits after the first `n` tries, together. */
  function TotalWait(hints: nat -> Option<int>, n: nat): nat {
    if n == 0 then 0 else TotalWait(hints, n - 1) + ReconcileDelayMs(n - 1, hints(n - 1))
  }

  lemma {:induction false} Pow2Grows(m: nat, n: nat)
    requires m <= n
    ensures Pow2(m) <= Pow2(n)
  {
    if m < n {
      Pow2Grows(m, n - 1);
    }
  }

  /** Without hints the waits double from half a second, reach the cap at the fifth and stay
      there. */
  lemma {:induction false} BackoffTotal(hints: nat -> Option<int>, n: nat)
    requires forall i: nat :: hints(i).None? || hints(i).value <= 0
    ensures TotalWait(hints, n) == if n <= 4 then [0, 500, 1500, 3500, 7500][n] else 7500 + (n - 4) * 8000
  {
    if n > 0 {
      BackoffTotal(hints, n - 1);
      if n > 4 {
        Pow2Grows(4, n - 1);
        assert Pow2(4) == 16;
      } else {
        assert Pow2(0) == 1 && Pow2(1) == 2 && Pow2(2) == 4 && Pow2(3) == 8;
      }
    }
  }

  /** Whatever the hints, the waits are at most the cap each; a hint within it is honoured. */
  lemma {:induction false} HintedTotal(hints: nat -> Option<int>, n: nat)
    ensures n <= TotalWait(hints, n) <= n * 8000
    ensures n > 0 && hints(n - 1).Some? && 0 < hints(n - 1).value <= 8000 ==>
              TotalWait(hints, n) == TotalWait(hints, n - 1) + hints(n - 1).value
    ensures n > 0 && hints(n - 1).Some? && hints(n - 1).value > 8000 ==> TotalWait(hints, n) == TotalWait(hints, n - 1) + 8000
  {
    if n > 0 {
      HintedTotal(hints, n - 1);
    }
  }

  /** A hint is what the server sent with a refusal. */
  lemma HintIsServers(world: nat -> Outcome, i: nat)
    ensures HintsOf(world)(i) == match world(i) case Refused(_, ms) => ms case _ => None
  {
  }

  /** `world(i)` is the outcome of POST number `i`. */
  method PostTaskWithReconcile(keyed: bool, retries: nat, world: nat -> Outcome)
    returns (posts: nat, last: Outcome, slept: nat)
    ensures 1 <= posts <= retries + 1 && (!keyed ==> posts == 1) && last == world(posts - 1)
    ensures forall i :: 0 <= i < posts - 1 ==> world(i).NoAnswer? || (world(i).Refused? && 500 <= world(i).status <= 599)
    ensures keyed && posts <= retries ==> last.Accepted? || (last.Refused? && !(500 <= last.status <= 599))
    ensures slept == TotalWait(HintsOf(world), posts - 1)
  {
    var attempt := 0;
    slept := 0;
    while true
      invariant 0 <= attempt <= retries && (!keyed ==> attempt == 0)
      invariant forall i :: 0 <= i < attempt ==> Ambiguous(world(i))
      invariant slept == TotalWait(HintsOf(world), attempt)
      decreases retries - attempt
    {
      last := world(attempt);
      if !Repost(keyed, attempt, retries, last) {
        posts := attempt + 1;
        return;
      }
      slept := slept + ReconcileDelayMs(attempt, Hint(last));
      attempt := attempt + 1;
    }
  }

  // ---- the read-only probe ----

  datatype Fetch<T> = Listed(tasks: seq<T>) | Error(message: string)

  datatype Probe<T> = Matched(task: T) | Absent | Unknown(message: string)

  /** `t` is listed before any other task that matches. */
  ghost predicate FirstMatch<T>(tasks: seq<T>, matches: T -> bool, t: T) {
    exists k :: 0 <= k < |tasks| && t == tasks[k] && matches(t) && forall j :: 0 <= j < k ==> !matches(tasks[j])
  }

  /** `world(i)` is the outcome of read number `i`; `matches` says whether a listed task
      looks like this launch. */
  method ReconcileViaTaskProbe<T>(retries: nat, world: nat -> Fetch<T>, matches: T -> bool)
    returns (fetches: nat, r: Probe<T>, slept: nat)
    ensures 1 <= fetches <= retries + 1 && forall i :: 0 <= i < fetches - 1 ==> world(i).Error?
    ensures var f := world(fetches - 1);
            match r
            case Matched(t) => f.Listed? && FirstMatch(f.tasks, matches, t)
            case Absent => f.Listed? && forall t :: t in f.tasks ==> !matches(t)
            case Unknown(m) => fetches == retries + 1 && f == Error(m)
    ensures slept == TotalWait(NO_HINTS, fetches - 1)
  {
    var attempt := 0;
    slept := 0;
    while true
      invariant 0 <= attempt <= retries && forall i :: 0 <= i < attempt ==> world(i).Error?
      invariant slept == TotalWait(NO_HINTS, attempt)
      decreases retries - attempt
    {
      var res := world(attempt);
      fetches := attempt + 1;
      if res.Listed? {
        for k := 0 to |res.tasks|
          invariant forall j :: 0 <= j < k ==> !matches(res.tasks[j])
        {
          if matches(res.tasks[k]) {
            r := Matched(res.tasks[k]);
            return;
          }
        }
        r := Absent;
        return;
      }
      if attempt >= retries {
        r := Unknown(res.message);
        return;
      }
      slept := slept + ReconcileDelayMs(attempt, None);
      attempt := attempt + 1;
    }
  }

  // ---- client, network and server together ----

  datatype Task = Task(key: Option<Key>, request: Option<nat>)

  datatype Client =
    | Ready                     // about to POST
    | Awaiting(request: nat)
    | Probing(fetches: nat)       // about to list tasks
    | Done(outcome: Outcome)
    | Probed

  datatype Config = Config(key: Option<Key>, retries: nat)

  /** Requests are numbered in the order they were sent. `ledger` is the server's memory of
      idempotency keys. */
  datatype State = State(
    client: Client,
    posts: nat,
    inFlight: set<nat>,
    replies: map<nat, Outcome>,
    ledger: map<Key, nat>,
    tasks: seq<Task>)

  datatype Event =
    | Send
    | Lose(request: nat)                               // the request never arrives
    | Process(request: nat, broken: Option<int>)       // the server replays or creates, then may fail
    | Reject(request: nat, status: int)                // the server answers without creating
    | Receive                                          // the answer arrives
    | GiveUp                                           // it does not: timeout or connection error
    | Read(ok: bool)                                   // one read-only probe of existing tasks
    | Foreign(key: Option<Key>)                        // some other client launches a task

  /** The server's handling of a launch: a known key is replayed, else a task is created. */
  function Launch(s: State, t: Task): (State, nat) {
    if t.key.Some? && t.key.value in s.ledger then (s, s.ledger[t.key.value])
    else
      var s' := s.(tasks := s.tasks + [t]);
      (if t.key.Some? then s'.(ledger := s.ledger[t.key.value := |s.tasks|]) else s', |s.tasks|)
  }

  function Decide(s: State, c: Config, o: Outcome): State {
    if s.posts > 0 && Repost(c.key.Some?, s.posts - 1, c.retries, o) then s.(client := Ready)
    else if Ambiguous(o) && c.key.None? then s.(client := Probing(0))
    else s.(client := Done(o))
  }

  ghost predicate Enabled(s: State, c: Config, e: Event) {
    match e
    case Send => s.client.Ready?
    case Lose(n) => n in s.inFlight
    case Process(n, _) => n in s.inFlight
    case Reject(n, _) => n in s.inFlight
    case Receive => s.client.Awaiting? && s.client.request in s.replies
    case GiveUp => s.client.Awaiting?
    case Read(_) => s.client.Probing?
    case Foreign(_) => true
  }

  function Next(s: State, c: Config, e: Event): State {
    match e
    case Send => s.(client := Awaiting(s.posts), posts := s.posts + 1, inFlight := s.inFlight + {s.posts})
    case Lose(n) => s.(inFlight := s.inFlight - {n})
    case Process(n, broken) =>
      var (t, task) := Launch(s, Task(c.key, Some(n)));
      t.(inFlight := s.inFlight - {n},
         replies := s.replies[n := if broken.Some? then Refused(broken.value, None) else Accepted(task)])
    case Reject(n, status) => s.(inFlight := s.inFlight - {n}, replies := s.replies[n := Refused(status, None)])
    case Receive =>
      if s.client.Awaiting? && s.client.request in s.replies then Decide(s, c, s.replies[s.client.request]) else s
    case GiveUp => Decide(s, c, NoAnswer)
    case Read(ok) =>
      if !s.client.Probing? then s
      else if ok || s.client.fetches >= c.retries then s.(client := Probed)
      else s.(client := Probing(s.client.fetches + 1))
    case Foreign(k) => Launch(s, Task(k, None)).0
  }

  predicate LedgerOk(s: State) {
    forall k :: k in s.ledger ==> s.ledger[k] < |s.tasks| && s.tasks[s.ledger[k]].key == Some(k)
  }

  ghost predicate Initial(s: State) {
    s.client.Ready? && s.posts == 0 && s.inFlight == {} && s.replies == map[] && LedgerOk(s) && KeysOnce(s)
      && forall i :: 0 <= i < |s.tasks| ==> s.tasks[i].request.None?
  }

  ghost predicate Behaviour(states: seq<State>, events: seq<Event>, c: Config) {
    && |states| == |events| + 1 && Initial(states[0])
    && (forall i :: 0 <= i < |events| ==> Enabled(states[i], c, events[i]) && states[i + 1] == Next(states[i], c, events[i]))
  }

  /** A task is known to the ledger exactly under its own key. */
  ghost predicate KeysOnce(s: State) {
    forall i :: 0 <= i < |s.tasks| && s.tasks[i].key.Some? ==>
      s.tasks[i].key.value in s.ledger && s.ledger[s.tasks[i].key.value] == i
  }

  /** Sent for by this client. */
  predicate Own(t: Task) {
    t.request.Some?
  }

  /** What this launch is about: the record under its key, or the one it sent for. */
  predicate ForLaunch(t: Task, c: Config) {
    if c.key.Some? then t.key == c.key else Own(t)
  }

  ghost predicate RequestsInv(s: State, c: Config) {
    && (forall n :: n in s.inFlight ==> n < s.posts)
    && (forall i :: 0 <= i < |s.tasks| && Own(s.tasks[i]) ==>
          s.tasks[i].key == c.key && s.tasks[i].request.value < s.posts && s.tasks[i].request.value !in s.inFlight)
    && (forall i, j :: 0 <= i < j < |s.tasks| && Own(s.tasks[i]) ==> s.tasks[i].request != s.tasks[j].request)
  }

  ghost predicate PostsInv(s: State, c: Config) {
    && s.posts <= c.retries + 1 && (c.key.None? ==> s.posts <= 1)
    && (s.client.Ready? ==> s.posts <= c.retries && (c.key.None? ==> s.posts == 0))
    && (!s.client.Ready? ==> s.posts > 0)
    && (s.client.Awaiting? ==> s.client.request < s.posts)
    && (s.client.Probing? || s.client.Probed? ==> c.key.None?)
    && (s.client.Probing? ==> s.client.fetches <= c.retries)
  }

  ghost predicate RepliesInv(s: State, c: Config) {
    && (forall n :: n in s.replies && s.replies[n].Accepted? ==>
          s.replies[n].task < |s.tasks| && ForLaunch(s.tasks[s.replies[n].task], c))
    && (s.client.Done? && s.client.outcome.Accepted? ==>
          s.client.outcome.task < |s.tasks| && ForLaunch(s.tasks[s.client.outcome.task], c))
  }

  ghost predicate Inv(s: State, c: Config) {
    LedgerOk(s) && KeysOnce(s) && RequestsInv(s, c) && PostsInv(s, c) && RepliesInv(s, c)
  }

  lemma LaunchKeepsLedger(s: State, t: Task)
    requires LedgerOk(s) && KeysOnce(s)
    ensures LedgerOk(Launch(s, t).0) && KeysOnce(Launch(s, t).0)
  {
    var r := Launch(s, t).0;
    assert forall i :: 0 <= i < |s.tasks| ==> r.tasks[i] == s.tasks[i];
  }

  lemma SameLedger(s: State, t: State)
    requires t.ledger == s.ledger && t.tasks == s.tasks
    ensures LedgerOk(t) == LedgerOk(s) && KeysOnce(t) == KeysOnce(s)
  {
  }

  lemma StepKeepsLedger(s: State, c: Config, e: Event)
    requires LedgerOk(s) && KeysOnce(s)
    ensures LedgerOk(Next(s, c, e)) && KeysOnce(Next(s, c, e))
  {
    if e.Process? || e.Foreign? {
      var t := if e.Process? then Task(c.key, Some(e.request)) else Task(e.key, None);
      LaunchKeepsLedger(s, t);
      SameLedger(Launch(s, t).0, Next(s, c, e));
    } else {
      SameLedger(s, Next(s, c, e));
    }
  }

  lemma LaunchKeepsRequests(s: State, c: Config, t: Task)
    requires LedgerOk(s) && KeysOnce(s) && RequestsInv(s, c)
    requires t.request.Some? ==> t.key == c.key && t.request.value in s.inFlight
    ensures var r := Launch(s, t).0;
            RequestsInv(r.(inFlight := if t.request.Some? then s.inFlight - {t.request.value} else s.inFlight), c)
  {
    var r := Launch(s, t).0;
    assert forall i :: 0 <= i < |s.tasks| ==> r.tasks[i] == s.tasks[i];
  }

  lemma StepKeepsRequests(s: State, c: Config, e: Event)
    requires LedgerOk(s) && KeysOnce(s) && RequestsInv(s, c) && Enabled(s, c, e)
    ensures RequestsInv(Next(s, c, e), c)
  {
    if e.Process? || e.Foreign? {
      var t := if e.Process? then Task(c.key, Some(e.request)) else Task(e.key, None);
      LaunchKeepsRequests(s, c, t);
    } else {
    }
  }

  lemma StepKeepsPosts(s: State, c: Config, e: Event)
    requires LedgerOk(s) && PostsInv(s, c) && Enabled(s, c, e)
    ensures PostsInv(Next(s, c, e), c)
  {
  }

  lemma StepKeepsReplies(s: State, c: Config, e: Event)
    requires LedgerOk(s) && RequestsInv(s, c) && RepliesInv(s, c) && Enabled(s, c, e)
    ensures RepliesInv(Next(s, c, e), c)
  {
  }

  lemma {:induction false} AlwaysInv(states: seq<State>, events: seq<Event>, c: Config, i: nat)
    requires Behaviour(states, events, c) && i < |states|
    ensures Inv(states[i], c)
  {
    if i > 0 {
      AlwaysInv(states, events, c, i - 1);
      StepKeepsLedger(states[i - 1], c, events[i - 1]);
      StepKeepsRequests(states[i - 1], c, events[i - 1]);
      StepKeepsPosts(states[i - 1], c, events[i - 1]);
      StepKeepsReplies(states[i - 1], c, events[i - 1]);
    }
  }

  /** Over every run, with any losses, late arrivals, timeouts and server failures, at most
      one task ever exists for the launch. */
  lemma AtMostOneTask(states: seq<State>, events: seq<Event>, c: Config, i: nat, j: nat, k: nat)
    requires Behaviour(states, events, c) && i < |states| && j < |states[i].tasks| && k < |states[i].tasks|
    requires ForLaunch(states[i].tasks[j], c) && ForLaunch(states[i].tasks[k], c)
    ensures j == k
  {
    AlwaysInv(states, events, c, i);
  }

  lemma PostsAreBounded(states: seq<State>, events: seq<Event>, c: Config, i: nat)
    requires Behaviour(states, events, c) && i < |states|
    ensures states[i].posts <= c.retries + 1
    ensures c.key.None? ==> states[i].posts <= 1
    ensures !states[i].client.Ready? && c.key.None? ==> states[i].posts == 1
    ensures states[i].client.Probing? ==> states[i].client.fetches <= c.retries
  {
    AlwaysInv(states, events, c, i);
  }

  /** How an answer, or its absence, moves the client on: with no answer or a status from 500 to
      599 it sends again if it has a key and tries left, and goes over to listing tasks if it
      has no key; everything else it reports as it is. */
  lemma AnswerDecides(states: seq<State>, events: seq<Event>, c: Config, i: nat)
    requires Behaviour(states, events, c) && i < |events| && (events[i].Receive? || events[i].GiveUp?)
    ensures var s := states[i];
            && s.client.Awaiting? && (events[i].Receive? ==> s.client.request in s.replies)
            && var o := if events[i].GiveUp? then NoAnswer else s.replies[s.client.request];
               var unclear := o.NoAnswer? || (o.Refused? && 500 <= o.status <= 599);
               states[i + 1] == s.(client :=
                 if unclear && c.key.None? then Probing(0)
                 else if unclear && s.posts <= c.retries then Ready
                 else Done(o))
  {
    hide Launch;
    AlwaysInv(states, events, c, i);
    assert Enabled(states[i], c, events[i]);
  }

  /** A request that the server has processed stands for a task of this launch, whatever
      became of the answer. */
  lemma ProcessedIsLaunched(states: seq<State>, events: seq<Event>, c: Config, i: nat) returns (k: nat)
    requires Behaviour(states, events, c) && i < |events| && events[i].Process?
    ensures k < |states[i + 1].tasks| && states[i + 1].tasks[k].key == c.key
    ensures c.key.None? ==> states[i + 1].tasks[k].request == Some(events[i].request)
  {
    AlwaysInv(states, events, c, i);
    var s, t := states[i], Task(c.key, Some(events[i].request));
    assert states[i + 1].tasks == Launch(s, t).0.tasks;
    k := Launch(s, t).1;
    LaunchHolds(s, t);
  }

  lemma LaunchHolds(s: State, t: Task)
    requires LedgerOk(s)
    ensures var (r, k) := Launch(s, t);
            k < |r.tasks| && r.tasks[k].key == t.key && (t.key.None? ==> r.tasks[k] == t)
  {
  }

  /** A reported success names the one task that exists for this launch. */
  lemma SuccessIsReal(states: seq<State>, events: seq<Event>, c: Config, i: nat)
    requires Behaviour(states, events, c) && i < |states|
    requires states[i].client.Done? && states[i].client.outcome.Accepted?
    ensures var t := states[i].client.outcome.task; t < |states[i].tasks| && ForLaunch(states[i].tasks[t], c)
  {
    AlwaysInv(states, events, c, i);
  }

  /** The client has gone over to listing tasks. */
  predicate IsProbing(s: State) {
    s.client.Probing? || s.client.Probed?
  }

  /** What a step leaves once the client only lists tasks: no new request, and a new task of
      its own only for one that was still under way. */
  lemma ProbingStep(s: State, c: Config, e: Event)
    requires Inv(s, c) && Enabled(s, c, e) && IsProbing(s)
    ensures var t := Next(s, c, e);
            && IsProbing(t) && t.posts == s.posts && t.inFlight <= s.inFlight && |s.tasks| <= |t.tasks|
            && (forall k :: |s.tasks| <= k < |t.tasks| && Own(t.tasks[k]) ==> t.tasks[k].request.value in s.inFlight)
  {
  }

  /** From the first probe to the end of the run the client sends nothing: it has sent one
      POST, and a task of its own appears only if that POST was still under way. */
  lemma {:induction false} ProbingCreatesNothing(states: seq<State>, events: seq<Event>, c: Config, i: nat, j: nat)
    requires Behaviour(states, events, c) && i <= j < |states|
    requires states[i].client.Probing? || states[i].client.Probed?
    ensures (states[j].client.Probing? || states[j].client.Probed?) && states[j].posts == 1 && states[j].inFlight <= states[i].inFlight
    ensures |states[i].tasks| <= |states[j].tasks|
    ensures forall k :: |states[i].tasks| <= k < |states[j].tasks| && Own(states[j].tasks[k]) ==> 0 in states[i].inFlight
    decreases j
  {
    hide Next, Enabled, LedgerOk, KeysOnce, RepliesInv;
    AlwaysInv(states, events, c, j);
    if i < j {
      ProbingCreatesNothing(states, events, c, i, j - 1);
      AlwaysInv(states, events, c, j - 1);
      var s, t := states[j - 1], states[j];
      ProbingStep(s, c, events[j - 1]);
      TasksStay(s, c, events[j - 1]);
    }
  }

  function Reads(events: seq<Event>, i: nat): nat
    requires i <= |events|
  {
    if i == 0 then 0 else Reads(events, i - 1) + if events[i - 1].Read? then 1 else 0
  }

  /** The client lists tasks at most retries + 1 times, and stops at the first success. */
  lemma {:induction false} ReadsAreBounded(states: seq<State>, events: seq<Event>, c: Config, i: nat)
    requires Behaviour(states, events, c) && i < |states|
    ensures Reads(events, i) <= c.retries + 1
    ensures states[i].client.Probing? ==> Reads(events, i) == states[i].client.fetches
    ensures !states[i].client.Probing? && !states[i].client.Probed? ==> Reads(events, i) == 0
    ensures i > 0 && events[i - 1] == Read(true) ==> states[i].client.Probed?
  {
    if i > 0 {
      ReadsAreBounded(states, events, c, i - 1);
      AlwaysInv(states, events, c, i - 1);
      assert Enabled(states[i - 1], c, events[i - 1]) && states[i] == Next(states[i - 1], c, events[i - 1]);
    }
  }

  lemma TasksStay(s: State, c: Config, e: Event)
    ensures |s.tasks| <= |Next(s, c, e).tasks|
    ensures forall k :: 0 <= k < |s.tasks| ==> Next(s, c, e).tasks[k] == s.tasks[k]
  {
  }
}
