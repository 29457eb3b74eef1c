/** The import-cycle check: an iterative strongly-connected-components walk. */
module FindCycles {
  import opened ImportGraph
  import opened TarjanInvariant

  /** A work frame: a file and the position of its next successor to look at. */
  datatype Frame = Frame(node: File, next: nat)

  // ---- the two stacks ----

  ghost predicate StackOrder(s: State, stack: seq<File>) {
    && (forall x :: x in stack <==> x in s.onStack)
    && (forall i :: 0 <= i < |stack| ==> stack[i] in s.index)
    && (forall i, j :: 0 <= i < j < |stack| ==> s.index[stack[i]] < s.index[stack[j]])
  }

  ghost predicate WorkOrder(s: State, work: seq<Frame>) {
    && (forall a :: 0 <= a < |work| ==>
          work[a].node in s.next && work[a].node in s.index && s.next[work[a].node] == work[a].next)
    && (forall a, b :: 0 <= a < b < |work| ==> s.index[work[a].node] < s.index[work[b].node])
    && Covers(work, s.next)
  }

  ghost predicate Covers(work: seq<Frame>, next: map<File, nat>) {
    forall v :: v in next ==> exists a :: 0 <= a < |work| && work[a].node == v
  }

  ghost predicate Started(work: seq<Frame>) {
    forall a :: 0 <= a < |work| ==> work[a].next > 0
  }

  lemma EnterKeepsOrders(g: Graph, s: State, n: File, work: seq<Frame>, stack: seq<File>)
    requires Shape(g, s) && n !in s.index && StackOrder(s, stack) && WorkOrder(s, work)
    ensures StackOrder(Enter(s, n), stack + [n]) && WorkOrder(Enter(s, n), work + [Frame(n, 0)])
  {
    hide Injective, Covers;
    CoversPush(work, s.next, n);
  }

  lemma CoversPush(work: seq<Frame>, next: map<File, nat>, n: File)
    requires Covers(work, next)
    ensures Covers(work + [Frame(n, 0)], next[n := 0])
  {
    var w := work + [Frame(n, 0)];
    forall v | v in next || v == n ensures exists a :: 0 <= a < |w| && w[a].node == v {
      if v == n {
        assert w[|work|].node == v;
      } else {
        var a :| 0 <= a < |work| && work[a].node == v;
        assert w[a].node == v;
      }
    }
  }

  lemma TopOfWork(g: Graph, s: State, work: seq<Frame>)
    requires Shape(g, s) && WorkOrder(s, work) && |work| > 0
    ensures Top(s, work[|work| - 1].node)
  {
    hide Injective;
    var v := work[|work| - 1].node;
    forall w | w in s.next && w in s.index ensures s.index[w] <= s.index[v] {
      var a :| 0 <= a < |work| && work[a].node == w;
    }
  }

  lemma AdvanceKeepsOrders(g: Graph, s: State, work: seq<Frame>, stack: seq<File>)
    requires |work| > 0 && WorkOrder(s, work) && StackOrder(s, stack)
    requires CanAdvance(g, s, work[|work| - 1].node)
    ensures var v, top := work[|work| - 1].node, |work| - 1;
            && StackOrder(Advance(g, s, v), stack)
            && WorkOrder(Advance(g, s, v), work[top := Frame(v, work[top].next + 1)])
  {
    hide Injective, Top, StackOrder, Covers;
    var v := work[|work| - 1].node;
    SameStack(s, Advance(g, s, v), stack);
    CoversBump(work, s.next);
  }

  lemma CoversBump(work: seq<Frame>, next: map<File, nat>)
    requires |work| > 0 && Covers(work, next) && work[|work| - 1].node in next
    requires next[work[|work| - 1].node] == work[|work| - 1].next
    ensures var v, k := work[|work| - 1].node, work[|work| - 1].next + 1;
            Covers(work[|work| - 1 := Frame(v, k)], next[v := k])
  {
    var w := work[|work| - 1 := Frame(work[|work| - 1].node, work[|work| - 1].next + 1)];
    forall q | q in next ensures exists a :: 0 <= a < |w| && w[a].node == q {
      var a :| 0 <= a < |work| && work[a].node == q;
      assert w[a].node == q;
    }
  }

  lemma ParentOfWork(g: Graph, s: State, work: seq<Frame>)
    requires Shape(g, s) && WorkOrder(s, work) && |work| > 1
    ensures Parent(s, work[|work| - 1].node, work[|work| - 2].node)
  {
    hide Injective;
    var v, p := work[|work| - 1].node, work[|work| - 2].node;
    forall w | w in s.next && w != v && w in s.index ensures s.index[w] <= s.index[p] {
      var a :| 0 <= a < |work| && work[a].node == w;
    }
  }

  /** A state that only lost the top open file keeps the rest of the work stack. */
  lemma PopKeepsWork(s: State, t: State, work: seq<Frame>)
    requires |work| > 0 && WorkOrder(s, work)
    requires t.index == s.index && t.next == s.next - {work[|work| - 1].node}
    ensures WorkOrder(t, work[..|work| - 1])
  {
    assert Covers(work[..|work| - 1], t.next) by {
      var w := work[..|work| - 1];
      forall v | v in t.next ensures exists a :: 0 <= a < |w| && w[a].node == v {
        var a :| 0 <= a < |work| && work[a].node == v;
        assert w[a].node == v;
      }
    }
  }

  /** A file below its own index is never the bottom of the work stack. */
  lemma LowerRootMeansParent(g: Graph, s: State, work: seq<Frame>)
    requires Inv(g, s, {}) && WorkOrder(s, work) && |work| > 0
    requires s.lowlink[work[|work| - 1].node] < s.index[work[|work| - 1].node]
    ensures |work| > 1
  {
    hide Injective, Explored, LowComplete, WellFormed;
    var r := LowerRoot(g, s, work[|work| - 1].node);
    var a :| 0 <= a < |work| && work[a].node == r;
  }

  /** With no open file the stack is empty. */
  lemma EmptyWorkEmptyStack(g: Graph, s: State, stack: seq<File>)
    requires Inv(g, s, {}) && WorkOrder(s, []) && StackOrder(s, stack)
    ensures stack == []
  {
    if stack != [] {
      var r := RootOf(g, s, stack[0]);
    }
  }

  // ---- counting steps ----

  /** Steps of the work loop spent on `x` so far. */
  function Spent(g: Graph, s: State, x: File): nat {
    if x in s.next then s.next[x]
    else if x in s.index && x in g.adjacency then |g.adjacency[x]| + 1
    else 0
  }

  function TotalSpent(g: Graph, s: State, files: seq<File>): nat {
    if files == [] then 0 else Spent(g, s, files[0]) + TotalSpent(g, s, files[1..])
  }

  lemma {:induction false} SameSpent(g: Graph, s: State, t: State, files: seq<File>)
    requires forall x :: x in files ==> Spent(g, t, x) == Spent(g, s, x)
    ensures TotalSpent(g, t, files) == TotalSpent(g, s, files)
  {
    if files != [] {
      SameSpent(g, s, t, files[1..]);
    }
  }

  lemma {:induction false} OneMoreSpent(g: Graph, s: State, t: State, files: seq<File>, v: File)
    requires Distinct(files) && v in files
    requires Spent(g, t, v) == Spent(g, s, v) + 1
    requires forall x :: x in files && x != v ==> Spent(g, t, x) == Spent(g, s, x)
    ensures TotalSpent(g, t, files) == TotalSpent(g, s, files) + 1
  {
    if files[0] == v {
      assert forall x :: x in files[1..] ==> x != v;
      SameSpent(g, s, t, files[1..]);
    } else {
      OneMoreSpent(g, s, t, files[1..], v);
    }
  }

  lemma {:induction false} SpentAtMost(g: Graph, s: State, files: seq<File>)
    requires Shape(g, s) && (forall f :: f in files ==> f in g.adjacency)
    ensures TotalSpent(g, s, files) <= |files| + EdgeCount(g, files)
  {
    hide Injective;
    if files != [] {
      assert Spent(g, s, files[0]) <= |g.adjacency[files[0]]| + 1;
      SpentAtMost(g, s, files[1..]);
    }
  }

  lemma {:induction false} AllSpent(g: Graph, s: State, files: seq<File>)
    requires forall f :: f in files ==> f in g.adjacency && f in s.index && f !in s.next
    ensures TotalSpent(g, s, files) == |files| + EdgeCount(g, files)
  {
    if files != [] {
      AllSpent(g, s, files[1..]);
    }
  }

  // ---- closed components ----

  /** `rank` numbers the closed files by the component they were closed in. */
  ghost predicate Ranked(g: Graph, s: State, rank: map<File, nat>, comps: seq<seq<File>>) {
    && (forall x :: x in rank <==> x in s.index && x !in s.onStack)
    && Numbering(g, rank, comps)
  }

  /** Files of one number reach each other, no edge leads to a larger number, and
      component `i` lists the files numbered `i`. */
  ghost predicate Numbering(g: Graph, rank: map<File, nat>, comps: seq<seq<File>>) {
    && (forall x, y {:trigger Reaches(g, x, y)} :: x in rank && y in rank && rank[x] == rank[y] ==> Reaches(g, x, y))
    && (forall x, y :: x in rank && Edge(g, x, y) ==> y in rank && rank[y] <= rank[x])
    && ListsNumbered(rank, comps)
  }

  ghost predicate ListsNumbered(rank: map<File, nat>, comps: seq<seq<File>>) {
    && (forall i :: 0 <= i < |comps| ==> comps[i] != [] && Distinct(comps[i]))
    && (forall i, x :: 0 <= i < |comps| && x in comps[i] ==> x in rank && rank[x] == i)
    && (forall x :: x in rank ==> rank[x] < |comps| && x in comps[rank[x]])
  }

  predicate IsCycle(g: Graph, c: seq<File>) {
    |c| > 1 || (|c| == 1 && c[0] in g.adjacency && c[0] in g.adjacency[c[0]])
  }

  /** The components that the check reports, in the order in which they were closed. */
  ghost function Reported(g: Graph, comps: seq<seq<File>>): seq<seq<File>> {
    if comps == [] then []
    else
      var last := comps[|comps| - 1];
      Reported(g, comps[..|comps| - 1]) + (if IsCycle(g, last) then [last] else [])
  }

  lemma {:induction false} InReported(g: Graph, comps: seq<seq<File>>, c: seq<File>)
    ensures c in Reported(g, comps) <==> exists i :: 0 <= i < |comps| && comps[i] == c && IsCycle(g, c)
  {
    if comps != [] {
      var init := comps[..|comps| - 1];
      InReported(g, init, c);
      if i :| 0 <= i < |init| && init[i] == c && IsCycle(g, c) {
        assert comps[i] == c;
      }
      if i :| 0 <= i < |comps| && comps[i] == c && IsCycle(g, c) {
        if i < |init| {
          assert init[i] == c;
        } else {
          assert comps[|comps| - 1] == c;
        }
      }
    }
  }

  /** No file is in two of the lists. */
  ghost predicate Apart(cs: seq<seq<File>>) {
    forall i, j, x :: 0 <= i < j < |cs| && x in cs[i] ==> x !in cs[j]
  }

  lemma ApartPush(cs: seq<seq<File>>, c: seq<File>)
    requires Apart(cs) && forall i, x :: 0 <= i < |cs| && x in cs[i] ==> x !in c
    ensures Apart(cs + [c])
  {
  }

  /** Component `i` holds only files numbered `i`. */
  ghost predicate NumberedBy(rank: map<File, nat>, comps: seq<seq<File>>) {
    forall i, x :: 0 <= i < |comps| && x in comps[i] ==> x in rank && rank[x] == i
  }

  lemma ReportedNumber(g: Graph, rank: map<File, nat>, comps: seq<seq<File>>, c: seq<File>, x: File)
    requires NumberedBy(rank, comps) && c in Reported(g, comps) && x in c
    ensures x in rank && rank[x] < |comps|
  {
    hide Reported;
    InReported(g, comps, c);
    var k :| 0 <= k < |comps| && comps[k] == c && IsCycle(g, c);
    assert x in comps[k];
  }

  lemma {:induction false} ReportedApart(g: Graph, rank: map<File, nat>, comps: seq<seq<File>>)
    requires NumberedBy(rank, comps)
    ensures Apart(Reported(g, comps))
  {
    if comps != [] {
      var init, last := comps[..|comps| - 1], comps[|comps| - 1];
      assert NumberedBy(rank, init);
      ReportedApart(g, rank, init);
      var r := Reported(g, init);
      forall i, x | 0 <= i < |r| && x in r[i] ensures x !in last {
        ReportedNumber(g, rank, init, r[i], x);
        assert comps[|comps| - 1] == last;
      }
      ApartPush(r, last);
    }
  }

  ghost function NumberAs(rank: map<File, nat>, members: set<File>, n: nat): map<File, nat> {
    rank + map x | x in members :: n
  }

  lemma CloseKeepsRanked(g: Graph, s: State, v: File, rank: map<File, nat>, comps: seq<seq<File>>, c: seq<File>)
    requires Inv(g, s, {}) && CanClose(g, s, v) && Ranked(g, s, rank, comps)
    requires Distinct(c) && forall x :: x in c <==> x in Segment(s, v)
    ensures Ranked(g, Close(s, v), NumberAs(rank, Segment(s, v), |comps|), comps + [c])
  {
    hide Reaches, Edge, Connected, LowSound, LowComplete, Explored, Injective, WellFormed, ListsNumbered;
    var rank' := NumberAs(rank, Segment(s, v), |comps|);
    NumbersBelow(rank, comps);
    assert v in c;
    ListsOneMore(rank, comps, Segment(s, v), c);
    forall x, y | x in rank' && y in rank' && rank'[x] == rank'[y] ensures Reaches(g, x, y) {
      if x in Segment(s, v) {
        SegmentIsConnected(g, s, v, x, y);
      }
    }
    forall x, y | x in rank' && Edge(g, x, y) ensures y in rank' && rank'[y] <= rank'[x] {
      if x in Segment(s, v) {
        EdgeLooked(g, s, v, x, y);
        SegmentIsClosed(g, s, v, x, y);
      }
    }
  }

  lemma NumbersBelow(rank: map<File, nat>, comps: seq<seq<File>>)
    requires ListsNumbered(rank, comps)
    ensures forall x :: x in rank ==> rank[x] < |comps|
  {
  }

  lemma ListsOneMore(rank: map<File, nat>, comps: seq<seq<File>>, members: set<File>, c: seq<File>)
    requires ListsNumbered(rank, comps) && c != [] && Distinct(c)
    requires (forall x :: x in c <==> x in members) && forall x :: x in members ==> x !in rank
    ensures ListsNumbered(NumberAs(rank, members, |comps|), comps + [c])
  {
    hide Distinct;
  }

  /** When the top file is about to close, every edge of its segment has been looked at. */
  lemma EdgeLooked(g: Graph, s: State, v: File, x: File, y: File)
    requires CanClose(g, s, v) && x in Segment(s, v) && Edge(g, x, y)
    ensures Looked(g, s, x, y)
  {
    assert x in s.next ==> x == v;
    assert g.adjacency[v][..|g.adjacency[v]|] == g.adjacency[v];
  }

  // ---- from the numbering to components and cycles ----

  lemma RankedIsComponent(g: Graph, rank: map<File, nat>, comps: seq<seq<File>>, i: nat)
    requires Numbering(g, rank, comps) && i < |comps|
    ensures IsComponent(g, comps[i])
  {
    hide Reaches, Edge, Distinct;
    var c := comps[i];
    forall x, z | x in c && Mutual(g, x, z) ensures z in c {
      ReachesDescends(g, rank, x, z);
      ReachesDescends(g, rank, z, x);
    }
  }

  /** A file of a numbered graph lies on a cycle exactly when its component is reported. */
  lemma OnCycleIffReported(g: Graph, rank: map<File, nat>, comps: seq<seq<File>>, x: File)
    requires Numbering(g, rank, comps) && rank.Keys == g.adjacency.Keys && x in rank
    ensures OnCycle(g, x) <==> IsCycle(g, comps[rank[x]])
  {
    hide Reaches;
    var c := comps[rank[x]];
    OnCycleIffSuccessorReturns(g, x);
    if OnCycle(g, x) {
      var y :| Edge(g, x, y) && Reaches(g, y, x);
      ReachesDescends(g, rank, y, x);
      assert y in c;
      if |c| == 1 {
        assert x == c[0] && y == c[0];
      }
    }
    if IsCycle(g, c) {
      if |c| == 1 {
        assert x == c[0];
        ReachesSelf(g, x);
        assert Edge(g, x, x);
      } else {
        var z := if c[0] == x then c[1] else c[0];
        assert z in c && z != x && rank[z] == rank[x];
        ReachesMeansEdgeOut(g, x, z);
      }
    }
  }

  /** Another file of the same component is reached through a successor that returns. */
  lemma ReachesMeansEdgeOut(g: Graph, x: File, z: File)
    requires Reaches(g, x, z) && Reaches(g, z, x) && x != z
    ensures exists y :: Edge(g, x, y) && Reaches(g, y, x)
  {
    var p :| Walk(g, p, x, z);
    assert Edge(g, p[0], p[1]);
    assert Walk(g, p[1..], p[1], z) by {
      forall i | 0 <= i < |p[1..]| - 1 ensures Edge(g, p[1..][i], p[1..][i + 1]) {
        assert Edge(g, p[i + 1], p[i + 2]);
      }
    }
    ReachesTrans(g, p[1], z, x);
  }

  // ---- one step of the work loop ----

  ghost predicate AtRest(g: Graph, s: State, work: seq<Frame>, stack: seq<File>) {
    Inv(g, s, {}) && StackOrder(s, stack) && WorkOrder(s, work)
  }

  ghost predicate Fresh(work: seq<Frame>) {
    |work| > 0 && work[|work| - 1].next == 0
  }

  /** The state at the head of the work loop: a frame with position 0 has not been entered yet. */
  ghost predicate AtHead(g: Graph, s: State, work: seq<Frame>, stack: seq<File>) {
    if Fresh(work) then
      var n, below := work[|work| - 1].node, work[..|work| - 1];
      && Inv(g, s, {n}) && CanEnter(g, s, n)
      && StackOrder(s, stack) && WorkOrder(s, below) && Started(below)
    else
      AtRest(g, s, work, stack) && Started(work)
  }

  ghost predicate Counted(g: Graph, s: State, steps: nat) {
    steps == TotalSpent(g, s, g.files)
  }

  lemma EnterCounted(g: Graph, s: State, n: File, steps: nat)
    requires Shape(g, s) && n !in s.index && Counted(g, s, steps)
    ensures Counted(g, Enter(s, n), steps)
  {
    hide Injective;
    SameSpent(g, s, Enter(s, n), g.files);
  }

  lemma AdvanceCounted(g: Graph, s: State, v: File, steps: nat)
    requires WellFormed(g) && CanAdvance(g, s, v) && Counted(g, s, steps)
    ensures Counted(g, Advance(g, s, v), steps + 1)
  {
    hide Injective;
    OneMoreSpent(g, s, Advance(g, s, v), g.files, v);
  }

  lemma FinishCounted(g: Graph, s: State, t: State, v: File, steps: nat)
    requires WellFormed(g) && CanFinish(g, s, v) && Counted(g, s, steps)
    requires t.index == s.index && t.next == s.next - {v}
    ensures Counted(g, t, steps + 1)
  {
    hide Injective;
    OneMoreSpent(g, s, t, g.files, v);
  }

  lemma EnterStep(g: Graph, s: State, work: seq<Frame>, stack: seq<File>, steps: nat)
    requires Fresh(work) && AtHead(g, s, work, stack) && Counted(g, s, steps)
    ensures var n := work[|work| - 1].node;
            && AtRest(g, Enter(s, n), work, stack + [n])
            && Started(work[..|work| - 1])
            && Counted(g, Enter(s, n), steps)
  {
    hide Shape, Explored, Connected, LowSound, LowComplete, WellFormed, StackOrder, WorkOrder, Top, Counted, Started;
    var n, below := work[|work| - 1].node, work[..|work| - 1];
    assert n !in s.index;
    EnterKeepsInv(g, s, n);
    EnterKeepsOrders(g, s, n, below, stack);
    EnterCounted(g, s, n, steps);
    assert work == below + [Frame(n, 0)];
  }

  lemma AdvanceStep(g: Graph, s: State, work: seq<Frame>, stack: seq<File>, steps: nat)
    requires |work| > 0 && AtRest(g, s, work, stack) && Started(work[..|work| - 1]) && Counted(g, s, steps)
    requires CanAdvance(g, s, work[|work| - 1].node)
    ensures var v, k := work[|work| - 1].node, work[|work| - 1].next;
            var t, y, work' := Advance(g, s, v), g.adjacency[v][s.next[v]], work[|work| - 1 := Frame(v, k + 1)];
            && (y !in s.index ==> AtHead(g, t, work' + [Frame(y, 0)], stack))
            && (y in s.index ==> AtHead(g, t, work', stack))
            && Counted(g, t, steps + 1)
  {
    hide Inv, Injective, StackOrder, WorkOrder, Counted, CanEnter, AtHead, Started;
    var v, k := work[|work| - 1].node, work[|work| - 1].next;
    AdvanceKeepsInv(g, s, v);
    AdvanceKeepsOrders(g, s, work, stack);
    InvWellFormed(g, s);
    AdvanceCounted(g, s, v, steps);
    BumpedStarts(work);
    var t, y, work' := Advance(g, s, v), g.adjacency[v][s.next[v]], work[|work| - 1 := Frame(v, k + 1)];
    if y in s.index {
      HeadStays(g, t, work', stack);
    } else {
      HeadPushes(g, t, work', stack, y);
    }
  }

  lemma InvWellFormed(g: Graph, s: State)
    requires Inv(g, s, {})
    ensures WellFormed(g)
  {
    hide WellFormed, Shape, Explored, Connected, LowSound, LowComplete;
  }

  lemma HeadStays(g: Graph, s: State, work: seq<Frame>, stack: seq<File>)
    requires Inv(g, s, {}) && StackOrder(s, stack) && WorkOrder(s, work) && Started(work)
    ensures AtHead(g, s, work, stack)
  {
    hide Inv, StackOrder, WorkOrder;
  }

  lemma HeadPushes(g: Graph, s: State, work: seq<Frame>, stack: seq<File>, n: File)
    requires Inv(g, s, {n}) && CanEnter(g, s, n) && StackOrder(s, stack) && WorkOrder(s, work) && Started(work)
    ensures AtHead(g, s, work + [Frame(n, 0)], stack)
  {
    hide Inv, StackOrder, WorkOrder, CanEnter, Started;
    assert (work + [Frame(n, 0)])[..|work|] == work;
  }

  lemma BumpedStarts(work: seq<Frame>)
    requires |work| > 0 && Started(work[..|work| - 1])
    ensures Started(work[|work| - 1 := Frame(work[|work| - 1].node, work[|work| - 1].next + 1)])
  {
    forall a | 0 <= a < |work| - 1 ensures work[a].next > 0 {
      assert work[..|work| - 1][a] == work[a];
    }
  }

  lemma FinishStep(g: Graph, s: State, work: seq<Frame>, stack: seq<File>, steps: nat)
    requires |work| > 1 && AtRest(g, s, work, stack) && Started(work[..|work| - 1]) && Counted(g, s, steps)
    requires CanFinish(g, s, work[|work| - 1].node)
    requires s.lowlink[work[|work| - 1].node] < s.index[work[|work| - 1].node]
    ensures var t := Finish(s, work[|work| - 1].node, work[|work| - 2].node);
            AtHead(g, t, work[..|work| - 1], stack) && Counted(g, t, steps + 1)
  {
    var v, p := work[|work| - 1].node, work[|work| - 2].node;
    assert !Fresh(work[..|work| - 1]);
    ParentOfWork(g, s, work);
    FinishKeepsInv(g, s, v, p);
    var t := Finish(s, v, p);
    PopKeepsWork(s, t, work);
    FinishCounted(g, s, t, v, steps);
    SameStack(s, t, stack);
  }

  lemma SameStack(s: State, t: State, stack: seq<File>)
    requires StackOrder(s, stack) && t.index == s.index && t.onStack == s.onStack
    ensures StackOrder(t, stack)
  {
  }

  lemma CloseStep(g: Graph, s: State, work: seq<Frame>, stack: seq<File>, steps: nat, p: nat)
    requires |work| > 0 && AtRest(g, s, work, stack) && Started(work[..|work| - 1]) && Counted(g, s, steps)
    requires CanClose(g, s, work[|work| - 1].node)
    requires p < |stack| && stack[p] == work[|work| - 1].node
    ensures var t := Close(s, work[|work| - 1].node);
            && AtHead(g, t, work[..|work| - 1], stack[..p])
            && Counted(g, t, steps + 1)
            && (forall x :: x in Segment(s, work[|work| - 1].node) <==> x in stack[p..])
  {
    hide Explored, Connected, LowSound, LowComplete, WellFormed, WorkOrder, Counted, Injective, Top, StackOrder;
    var v := work[|work| - 1].node;
    var t := Close(s, v);
    CloseKeepsInv(g, s, v);
    PopKeepsWork(s, t, work);
    FinishCounted(g, s, t, v, steps);
    SplitStack(s, stack, p);
  }

  lemma SegmentAt(s: State, stack: seq<File>, p: nat, i: nat)
    requires StackOrder(s, stack) && p < |stack| && i < |stack|
    ensures stack[i] in Segment(s, stack[p]) <==> i >= p
  {
  }

  lemma SegmentIsTop(s: State, stack: seq<File>, p: nat, x: File)
    requires StackOrder(s, stack) && p < |stack|
    ensures x in Segment(s, stack[p]) <==> x in stack[p..]
    ensures x in stack[..p] <==> x in Close(s, stack[p]).onStack
  {
    hide Segment, StackOrder;
    StackHolds(s, stack, x);
    if x in stack {
      var i :| 0 <= i < |stack| && stack[i] == x;
      SegmentAt(s, stack, p, i);
      if i < p {
        assert stack[..p][i] == x;
      } else {
        assert stack[p..][i - p] == x;
      }
      if x in stack[..p] {
        var j :| 0 <= j < p && stack[j] == x;
        SegmentAt(s, stack, p, j);
      }
      if x in stack[p..] {
        var j :| p <= j < |stack| && stack[j] == x;
        SegmentAt(s, stack, p, j);
      }
    } else if x in Segment(s, stack[p]) {
      SegmentOnStack(s, stack[p], x);
    }
  }

  lemma StackHolds(s: State, stack: seq<File>, x: File)
    requires StackOrder(s, stack)
    ensures x in stack <==> x in s.onStack
  {
  }

  lemma SegmentOnStack(s: State, v: File, x: File)
    requires x in Segment(s, v)
    ensures x in s.onStack
  {
  }

  /** Cutting the stack at `p` separates the entries indexed below `stack[p]` from the rest. */
  lemma SplitStack(s: State, stack: seq<File>, p: nat)
    requires StackOrder(s, stack) && p < |stack|
    ensures forall x :: x in Segment(s, stack[p]) <==> x in stack[p..]
    ensures StackOrder(Close(s, stack[p]), stack[..p])
  {
    hide Segment;
    forall x
      ensures x in Segment(s, stack[p]) <==> x in stack[p..]
      ensures x in stack[..p] <==> x in Close(s, stack[p]).onStack
    {
      SegmentIsTop(s, stack, p, x);
    }
  }

  // ---- the check itself ----

  /** Pops the stack down to and including `node`. */
  method PopComponent(stack: seq<File>, onStack: set<File>, node: File, ghost p: nat)
    returns (rest: seq<File>, restOn: set<File>, component: seq<File>)
    requires Distinct(stack) && p < |stack| && stack[p] == node
    ensures rest == stack[..p]
    ensures Distinct(component) && |component| == |stack| - p
    ensures forall x :: x in component <==> x in stack[p..]
    ensures forall x :: x in restOn <==> x in onStack && x !in stack[p..]
  {
    var member := stack[|stack| - 1];
    rest, restOn, component := stack[..|stack| - 1], onStack - {member}, [member];
    while member != node
      invariant p <= |rest| < |stack| && rest == stack[..|rest|] && member == stack[|rest|]
      invariant |component| == |stack| - |rest|
      invariant forall i :: 0 <= i < |component| ==> component[i] == stack[|stack| - 1 - i]
      invariant restOn == onStack - (set x | x in component)
      decreases |rest|
    {
      member := rest[|rest| - 1];
      rest, restOn, component := rest[..|rest| - 1], restOn - {member}, component + [member];
    }
    assert |rest| == p;
    forall x | x in stack[p..] ensures x in component {
      var i :| p <= i < |stack| && stack[i] == x;
      assert component[|stack| - 1 - i] == x;
    }
    forall i | 0 <= i < |component| ensures component[i] in stack[p..] {
      assert stack[p..][|stack| - 1 - i - p] == component[i];
    }
  }

  /** What the check reports: exactly the components with more than one member and the
      files that import themselves, each listed once. */
  ghost predicate ReportsCycles(g: Graph, cycles: seq<seq<File>>) {
    && (forall c :: c in cycles ==> IsComponent(g, c) && c != [] && (|c| > 1 || Edge(g, c[0], c[0])))
    && Apart(cycles)
    && (forall x :: OnCycle(g, x) <==> exists c :: c in cycles && x in c)
  }

  /** A numbering of all files in which every import leads to a smaller number, unless
      both ends are in one component. */
  ghost predicate ClosingOrder(g: Graph, rank: map<File, nat>) {
    && rank.Keys == g.adjacency.Keys
    && (forall x, y :: Edge(g, x, y) ==> y in rank && rank[y] <= rank[x])
    && (forall x, y :: x in rank && y in rank ==> (rank[x] == rank[y] <==> Mutual(g, x, y)))
  }

  lemma NumberedMutual(g: Graph, rank: map<File, nat>, comps: seq<seq<File>>, x: File, y: File)
    requires Numbering(g, rank, comps) && x in rank && y in rank
    ensures rank[x] == rank[y] <==> Mutual(g, x, y)
  {
    hide Reaches;
    if Mutual(g, x, y) {
      ReachesDescends(g, rank, x, y);
      ReachesDescends(g, rank, y, x);
    }
  }

  lemma NumberingOrders(g: Graph, rank: map<File, nat>, comps: seq<seq<File>>)
    requires WellFormed(g) && Numbering(g, rank, comps) && rank.Keys == g.adjacency.Keys
    ensures ClosingOrder(g, rank)
  {
    hide Mutual;
    forall x, y | x in rank && y in rank ensures rank[x] == rank[y] <==> Mutual(g, x, y) {
      NumberedMutual(g, rank, comps, x, y);
    }
  }

  lemma ReportedCover(g: Graph, rank: map<File, nat>, comps: seq<seq<File>>, x: File)
    requires Numbering(g, rank, comps) && rank.Keys == g.adjacency.Keys
    ensures OnCycle(g, x) <==> exists c :: c in Reported(g, comps) && x in c
  {
    hide OnCycle, Reported, Reaches;
    if x in rank {
      OnCycleIffReported(g, rank, comps, x);
      InReported(g, comps, comps[rank[x]]);
    } else {
      OnCycleIffSuccessorReturns(g, x);
    }
    if c :| c in Reported(g, comps) && x in c {
      InReported(g, comps, c);
    }
  }

  lemma NumberingNumbers(g: Graph, rank: map<File, nat>, comps: seq<seq<File>>)
    requires Numbering(g, rank, comps)
    ensures NumberedBy(rank, comps)
  {
    hide Reaches;
  }

  lemma NumberingReports(g: Graph, rank: map<File, nat>, comps: seq<seq<File>>)
    requires Numbering(g, rank, comps) && rank.Keys == g.adjacency.Keys
    ensures ReportsCycles(g, Reported(g, comps))
  {
    hide Numbering, IsComponent, OnCycle, Reported, Reaches, Apart;
    NumberingNumbers(g, rank, comps);
    ReportedApart(g, rank, comps);
    forall c | c in Reported(g, comps) ensures IsComponent(g, c) && c != [] && (|c| > 1 || Edge(g, c[0], c[0])) {
      InReported(g, comps, c);
      var i :| 0 <= i < |comps| && comps[i] == c && IsCycle(g, c);
      RankedIsComponent(g, rank, comps, i);
    }
    forall x ensures OnCycle(g, x) <==> exists c :: c in Reported(g, comps) && x in c {
      ReportedCover(g, rank, comps, x);
    }
  }

  /** Without a reported cycle, every import leads to a file closed strictly earlier. */
  lemma NoCycleOrder(g: Graph, rank: map<File, nat>, cycles: seq<seq<File>>)
    requires ClosingOrder(g, rank) && ReportsCycles(g, cycles)
    ensures cycles == [] <==> forall x :: !OnCycle(g, x)
    ensures cycles == [] ==> forall x, y :: Edge(g, x, y) ==> y in rank && x in rank && rank[y] < rank[x]
  {
    hide Reaches, Walk;
    if cycles != [] {
      assert cycles[0] in cycles && cycles[0][0] in cycles[0];
      assert OnCycle(g, cycles[0][0]);
    } else {
      forall x, y | Edge(g, x, y) ensures y in rank && x in rank && rank[y] < rank[x] {
        if rank[y] == rank[x] {
          OnCycleIffSuccessorReturns(g, x);
          assert false;
        }
      }
    }
  }

  lemma SameRanked(g: Graph, s: State, t: State, rank: map<File, nat>, comps: seq<seq<File>>)
    requires Ranked(g, s, rank, comps)
    requires forall x :: x in t.index && x !in t.onStack <==> x in s.index && x !in s.onStack
    ensures Ranked(g, t, rank, comps)
  {
    hide Numbering;
  }

  /** The facts about the top frame that the loop body relies on. */
  lemma TopFacts(g: Graph, s: State, work: seq<Frame>, stack: seq<File>)
    requires AtRest(g, s, work, stack) && |work| > 0
    ensures var v := work[|work| - 1].node;
            && v in s.next && s.next[v] == work[|work| - 1].next
            && v in g.adjacency && v in s.index && v in s.lowlink && s.next[v] <= |g.adjacency[v]|
            && s.lowlink[v] <= s.index[v] && s.onStack <= s.index.Keys
            && (s.next[v] < |g.adjacency[v]| ==> CanAdvance(g, s, v))
            && (s.next[v] == |g.adjacency[v]| ==> CanFinish(g, s, v))
            && Distinct(stack) && v in stack
  {
    hide Explored, Connected, LowComplete, WellFormed, Injective, HasLow;
    TopOfWork(g, s, work);
  }

  /** Updating the parent's lowlink after a component was closed changes nothing. */
  lemma ParentUnchanged(g: Graph, s: State, work: seq<Frame>, stack: seq<File>)
    requires AtRest(g, s, work, stack) && |work| > 1
    requires CanClose(g, s, work[|work| - 1].node)
    ensures var v, p := work[|work| - 1].node, work[|work| - 2].node;
            p in s.lowlink && Smaller(s.lowlink[p], s.lowlink[v]) == s.lowlink[p]
  {
    hide Explored, Connected, LowComplete, WellFormed, Injective, HasLow, StackOrder, Top, Covers;
  }

  lemma HeadAtRest(g: Graph, s: State, work: seq<Frame>, stack: seq<File>)
    requires AtHead(g, s, work, stack) && |work| > 0 && !Fresh(work)
    ensures AtRest(g, s, work, stack) && Started(work[..|work| - 1])
  {
    hide AtRest;
  }

  lemma CountedAtMost(g: Graph, s: State, work: seq<Frame>, stack: seq<File>, steps: nat)
    requires AtHead(g, s, work, stack) && Counted(g, s, steps)
    ensures WellFormed(g) && steps <= |g.files| + EdgeCount(g, g.files)
  {
    hide Explored, Connected, LowSound, LowComplete, StackOrder, WorkOrder, Injective, CanEnter;
    SpentAtMost(g, s, g.files);
  }

  lemma StartState(g: Graph)
    requires WellFormed(g)
    ensures var s := State(map[], map[], {}, map[], 0);
            AtHead(g, s, [], []) && Counted(g, s, 0) && Ranked(g, s, map[], []) && Reported(g, []) == []
  {
    var s := State(map[], map[], {}, map[], 0);
    NothingSpent(g, s, g.files);
  }

  lemma {:induction false} NothingSpent(g: Graph, s: State, files: seq<File>)
    requires s.index == map[] && s.next == map[]
    ensures TotalSpent(g, s, files) == 0
  {
    if files != [] {
      NothingSpent(g, s, files[1..]);
    }
  }

  lemma StartWalk(g: Graph, s: State, stack: seq<File>, start: File)
    requires AtHead(g, s, [], stack) && start in g.adjacency && start !in s.index
    ensures AtHead(g, s, [Frame(start, 0)], stack)
  {
    hide Connected, LowSound, LowComplete, Shape, StackOrder, Looked;
    assert s.next.Keys == {};
    assert [Frame(start, 0)][..0] == [];
  }

  lemma EndState(g: Graph, s: State, stack: seq<File>, rank: map<File, nat>, comps: seq<seq<File>>, steps: nat)
    requires AtHead(g, s, [], stack) && Counted(g, s, steps) && Ranked(g, s, rank, comps)
    requires WellFormed(g) && AllIndexed(s.index, g.files, |g.files|)
    ensures ClosingOrder(g, rank) && ReportsCycles(g, Reported(g, comps))
    ensures steps == |g.files| + EdgeCount(g, g.files)
  {
    EmptyWorkEmptyStack(g, s, stack);
    assert Shape(g, s) && WorkOrder(s, []) && StackOrder(s, []);
    assert rank.Keys == g.adjacency.Keys;
    NumberingOrders(g, rank, comps);
    NumberingReports(g, rank, comps);
    AllSpent(g, s, g.files);
  }

  // ---- the work loop ----

  /** The variables of the walk. */
  datatype Search = Search(
    index: map<File, nat>,
    lowlink: map<File, nat>,
    onStack: set<File>,
    stack: seq<File>,
    work: seq<Frame>,
    counter: nat,
    cycles: seq<seq<File>>)

  /** What the proof remembers: the abstract state, the closed components in closing
      order with their numbering, and the number of steps taken. */
  datatype Trace = Trace(s: State, comps: seq<seq<File>>, rank: map<File, nat>, steps: nat)

  ghost predicate Follows(g: Graph, w: Search, t: Trace) {
    && w.index == t.s.index && w.lowlink == t.s.lowlink && w.onStack == t.s.onStack && w.counter == t.s.counter
    && w.cycles == Reported(g, t.comps)
    && Ranked(g, t.s, t.rank, t.comps) && Counted(g, t.s, t.steps)
  }

  /** Holds at the head of the work loop. */
  ghost predicate Head(g: Graph, w: Search, t: Trace) {
    Follows(g, w, t) && AtHead(g, t.s, w.work, w.stack)
  }

  /** Holds once the top frame has been entered. */
  ghost predicate Entered(g: Graph, w: Search, t: Trace) {
    Follows(g, w, t) && |w.work| > 0 && AtRest(g, t.s, w.work, w.stack) && Started(w.work[..|w.work| - 1])
  }

  /** A frame at position 0 gets its index and goes on the stack. */
  method EnterTop(g: Graph, w: Search, ghost t: Trace) returns (w': Search, ghost t': Trace)
    requires Head(g, w, t) && |w.work| > 0
    ensures Entered(g, w', t') && t'.steps == t.steps && w'.work == w.work && |w'.work| > 0
    ensures w'.index.Keys == w.index.Keys + {w.work[|w.work| - 1].node}
  {
    hide AtHead, AtRest, Counted, Ranked, Reported, Started;
    var node := w.work[|w.work| - 1].node;
    if w.work[|w.work| - 1].next == 0 {
      w' := w.(index := w.index[node := w.counter], lowlink := w.lowlink[node := w.counter], counter := w.counter + 1,
               stack := w.stack + [node], onStack := w.onStack + {node});
      EnterStep(g, t.s, w.work, w.stack, t.steps);
      t' := t.(s := Enter(t.s, node));
      EnterRanked(g, t.s, w.work, w.stack, t.rank, t.comps);
    } else {
      w', t' := w, t;
      HeadAtRest(g, t.s, w.work, w.stack);
      TopFacts(g, t.s, w.work, w.stack);
    }
  }

  lemma EnterRanked(g: Graph, s: State, work: seq<Frame>, stack: seq<File>, rank: map<File, nat>, comps: seq<seq<File>>)
    requires Fresh(work) && AtHead(g, s, work, stack) && Ranked(g, s, rank, comps)
    ensures Ranked(g, Enter(s, work[|work| - 1].node), rank, comps)
  {
    hide Inv, StackOrder, WorkOrder, Started, Numbering;
  }

  /** Looks at the next successor of the top frame. */
  method StepEdge(g: Graph, w: Search, ghost t: Trace) returns (w': Search, ghost t': Trace)
    requires Entered(g, w, t)
    requires var top := w.work[|w.work| - 1]; top.node in g.adjacency && top.next < |g.adjacency[top.node]|
    ensures Head(g, w', t') && t'.steps == t.steps + 1 && w'.index == w.index
  {
    hide AtHead, AtRest, Counted, Ranked, Reported, Started, CanAdvance, CanFinish, Distinct;
    TopFacts(g, t.s, w.work, w.stack);
    AdvanceStep(g, t.s, w.work, w.stack, t.steps);
    var top := |w.work| - 1;
    var node, next := w.work[top].node, g.adjacency[w.work[top].node][w.work[top].next];
    t' := t.(s := Advance(g, t.s, node), steps := t.steps + 1);
    SameRanked(g, t.s, t'.s, t.rank, t.comps);
    var work := w.work[top := Frame(node, w.work[top].next + 1)];
    if next !in w.index {
      w' := w.(work := work + [Frame(next, 0)]);
    } else if next in w.onStack {
      w' := w.(work := work, lowlink := w.lowlink[node := Smaller(w.lowlink[node], w.index[next])]);
    } else {
      w' := w.(work := work);
    }
    assert w'.lowlink == t'.s.lowlink;
  }

  lemma HasParent(g: Graph, s: State, work: seq<Frame>, stack: seq<File>)
    requires AtRest(g, s, work, stack) && |work| > 0
    requires var v := work[|work| - 1].node; v in s.lowlink && v in s.index && s.lowlink[v] < s.index[v]
    ensures |work| > 1 && work[|work| - 2].node in s.lowlink
  {
    LowerRootMeansParent(g, s, work);
  }

  lemma ReportedPush(g: Graph, comps: seq<seq<File>>, c: seq<File>)
    ensures Reported(g, comps + [c]) == Reported(g, comps) + if IsCycle(g, c) then [c] else []
  {
    assert (comps + [c])[..|comps|] == comps;
  }

  lemma RestInv(g: Graph, s: State, work: seq<Frame>, stack: seq<File>)
    requires AtRest(g, s, work, stack)
    ensures Inv(g, s, {})
  {
  }

  /** Pops the component rooted in the top frame and reports it if it is a cycle. */
  method CloseComponent(g: Graph, w: Search, ghost t: Trace) returns (w': Search, ghost t': Trace)
    requires Entered(g, w, t)
    requires var top := w.work[|w.work| - 1];
             top.node in g.adjacency && top.next == |g.adjacency[top.node]| && CanClose(g, t.s, top.node)
    ensures Head(g, w', t') && t'.steps == t.steps + 1 && w'.index == w.index
    ensures w'.lowlink == w.lowlink && w'.work == w.work[..|w.work| - 1]
  {
    hide AtHead, AtRest, Counted, Ranked, Reported, Started, Distinct, CanClose, Segment;
    TopFacts(g, t.s, w.work, w.stack);
    var node := w.work[|w.work| - 1].node;
    ghost var p :| 0 <= p < |w.stack| && w.stack[p] == node;
    CloseStep(g, t.s, w.work, w.stack, t.steps, p);
    var stack, onStack, component := PopComponent(w.stack, w.onStack, node, p);
    var selfLoop := |component| == 1 && node in g.adjacency[node];
    w' := w.(stack := stack, onStack := onStack, work := w.work[..|w.work| - 1],
             cycles := if |component| > 1 || selfLoop then w.cycles + [component] else w.cycles);
    t' := Trace(Close(t.s, node), t.comps + [component], NumberAs(t.rank, Segment(t.s, node), |t.comps|), t.steps + 1);
    CloseKeepsRanked(g, t.s, node, t.rank, t.comps, component) by {
      RestInv(g, t.s, w.work, w.stack);
    }
    ReportedPush(g, t.comps, component);
    assert node in component by {
      assert w.stack[p..][0] == node;
    }
    assert w'.onStack == t'.s.onStack;
  }

  /** Closes out the top frame, with its component if it is the root of one. */
  method CloseTop(g: Graph, w: Search, ghost t: Trace) returns (w': Search, ghost t': Trace)
    requires Entered(g, w, t)
    requires var top := w.work[|w.work| - 1]; top.node in g.adjacency && top.next == |g.adjacency[top.node]|
    ensures Head(g, w', t') && t'.steps == t.steps + 1 && w'.index == w.index
  {
    hide AtHead, AtRest, Counted, Ranked, Reported, Started, CanAdvance, Distinct;
    TopFacts(g, t.s, w.work, w.stack);
    var top := |w.work| - 1;
    var node := w.work[top].node;
    if w.lowlink[node] == w.index[node] {
      w', t' := CloseComponent(g, w, t);
      if top > 0 {
        ParentUnchanged(g, t.s, w.work, w.stack);
      }
    } else {
      HasParent(g, t.s, w.work, w.stack);
      FinishStep(g, t.s, w.work, w.stack, t.steps);
      w' := w.(work := w.work[..top]);
      t' := t.(s := Finish(t.s, node, w.work[top - 1].node), steps := t.steps + 1);
      SameRanked(g, t.s, t'.s, t.rank, t.comps);
    }
    if top > 0 {
      var parent := w.work[top - 1].node;
      w' := w'.(lowlink := w'.lowlink[parent := Smaller(w'.lowlink[parent], w'.lowlink[node])]);
      assert w'.lowlink == t'.s.lowlink;
    }
  }

  ghost predicate AllIndexed(index: map<File, nat>, files: seq<File>, k: nat) {
    forall i :: 0 <= i < k && i < |files| ==> files[i] in index
  }

  /** The work loop from one start file, until its work stack is empty again. */
  method WalkFrom(g: Graph, start: File, w: Search, ghost t: Trace) returns (w': Search, ghost t': Trace)
    requires Head(g, w, t) && w.work == [] && start in g.files && start !in w.index
    ensures Head(g, w', t') && w'.work == []
    ensures w.index.Keys + {start} <= w'.index.Keys
  {
    hide Head, EdgeCount, Entered;
    StartSearch(g, w, t, start);
    w', t' := w.(work := [Frame(start, 0)]), t;
    while |w'.work| > 0
      invariant Head(g, w', t') && t'.steps <= |g.files| + EdgeCount(g, g.files)
      invariant w.index.Keys <= w'.index.Keys
      invariant start in w'.index || w'.work == [Frame(start, 0)]
      decreases |g.files| + EdgeCount(g, g.files) - t'.steps
    {
      w', t' := EnterTop(g, w', t');
      EnteredFacts(g, w', t');
      var top := w'.work[|w'.work| - 1];
      if top.next < |g.adjacency[top.node]| {
        w', t' := StepEdge(g, w', t');
      } else {
        w', t' := CloseTop(g, w', t');
      }
      HeadCounted(g, w', t');
    }
  }

  method FindCycles(g: Graph) returns (cycles: seq<seq<File>>, ghost rank: map<File, nat>, ghost steps: nat)
    requires WellFormed(g)
    ensures ReportsCycles(g, cycles)
    ensures cycles == [] <==> forall x :: !OnCycle(g, x)
    ensures ClosingOrder(g, rank)
    ensures cycles == [] ==> forall x, y :: Edge(g, x, y) ==> y in rank && x in rank && rank[y] < rank[x]
    ensures steps == |g.files| + EdgeCount(g, g.files)
  {
    hide Head, WellFormed, EdgeCount, ReportsCycles, ClosingOrder, OnCycle, Edge;
    var w := Search(map[], map[], {}, [], [], 0, []);
    ghost var t := Trace(State(map[], map[], {}, map[], 0), [], map[], 0);
    StartHead(g);
    for k := 0 to |g.files|
      invariant Head(g, w, t) && w.work == []
      invariant AllIndexed(w.index, g.files, k)
    {
      if g.files[k] !in w.index {
        w, t := WalkFrom(g, g.files[k], w, t);
      }
    }
    EndSearch(g, w, t);
    cycles, rank, steps := w.cycles, t.rank, t.steps;
    NoCycleOrder(g, rank, cycles);
  }

  lemma EndSearch(g: Graph, w: Search, t: Trace)
    requires WellFormed(g) && Head(g, w, t) && w.work == [] && AllIndexed(w.index, g.files, |g.files|)
    ensures ClosingOrder(g, t.rank) && ReportsCycles(g, w.cycles)
    ensures t.steps == |g.files| + EdgeCount(g, g.files)
  {
    hide AtHead, Counted, Ranked, WellFormed, ClosingOrder, ReportsCycles, Reported;
    EndState(g, t.s, w.stack, t.rank, t.comps, t.steps);
  }

  lemma StartHead(g: Graph)
    requires WellFormed(g)
    ensures Head(g, Search(map[], map[], {}, [], [], 0, []), Trace(State(map[], map[], {}, map[], 0), [], map[], 0))
  {
    StartState(g);
  }

  lemma StartSearch(g: Graph, w: Search, t: Trace, start: File)
    requires Head(g, w, t) && w.work == [] && start in g.files && start !in w.index
    ensures Head(g, w.(work := [Frame(start, 0)]), t)
    ensures t.steps <= |g.files| + EdgeCount(g, g.files)
  {
    hide AtHead, Counted, Ranked;
    CountedAtMost(g, t.s, w.work, w.stack, t.steps);
    StartWalk(g, t.s, w.stack, start);
  }

  lemma HeadCounted(g: Graph, w: Search, t: Trace)
    requires Head(g, w, t)
    ensures t.steps <= |g.files| + EdgeCount(g, g.files)
  {
    hide AtHead, Counted, Ranked;
    CountedAtMost(g, t.s, w.work, w.stack, t.steps);
  }

  lemma EnteredFacts(g: Graph, w: Search, t: Trace)
    requires Entered(g, w, t)
    ensures var top := w.work[|w.work| - 1];
            top.node in g.adjacency && top.next <= |g.adjacency[top.node]|
  {
    hide AtRest, Counted, Ranked, Started;
    TopFacts(g, t.s, w.work, w.stack);
  }
}
