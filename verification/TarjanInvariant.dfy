/** What every step of the iterative strongly-connected-components walk keeps. */
module TarjanInvariant {
  import opened ImportGraph

  /** The walk between two steps, without the order of its two stacks (both are ordered
      by `index`). `next` holds, for each file with an open work frame, the position of
      its next successor to look at. */
  datatype State = State(
    index: map<File, nat>,
    lowlink: map<File, nat>,
    onStack: set<File>,
    next: map<File, nat>,
    counter: nat)

  /** The edge from `x` to `y` has been stepped over. */
  ghost predicate Looked(g: Graph, s: State, x: File, y: File) {
    && x in s.index && Edge(g, x, y)
    && (x in s.next ==> s.next[x] <= |g.adjacency[x]| && y in g.adjacency[x][..s.next[x]])
  }

  /** `v` is the open file nearest to `x`, at or below it on the stack. */
  ghost predicate Owns(s: State, v: File, x: File) {
    && v in s.next && v in s.index && x in s.index
    && s.index[v] <= s.index[x]
    && (forall w :: w in s.next && w in s.index && s.index[w] <= s.index[x] ==> s.index[w] <= s.index[v])
  }

  ghost predicate Injective(m: map<File, nat>) {
    forall x, y {:trigger m[x], m[y]} :: x in m && y in m && m[x] == m[y] ==> x == y
  }

  ghost predicate Shape(g: Graph, s: State) {
    && Injective(s.index)
    && (forall x :: x in s.index ==> x in s.lowlink && x in g.adjacency && s.index[x] < s.counter)
    && (forall x :: x in s.onStack ==> x in s.index)
    && (forall x :: x in s.next ==> x in s.onStack && s.next[x] <= |g.adjacency[x]|)
  }

  /** Every successor looked at has an index or is the file about to be entered; files
      that left the stack only lead to files that left the stack. */
  ghost predicate Explored(g: Graph, s: State, pending: set<File>) {
    && (forall x, y :: Looked(g, s, x, y) ==> y in s.index || y in pending)
    && (forall x, y :: Looked(g, s, x, y) && x !in s.onStack ==> y in s.index && y !in s.onStack)
  }

  ghost predicate HasRoot(g: Graph, s: State, x: File, v: File) {
    && v in s.next && v in s.index && x in s.index
    && s.index[v] <= s.index[x]
    && Reaches(g, x, v)
  }

  /** `x` reaches an open file at or below it on the stack. */
  ghost predicate Rooted(g: Graph, s: State, x: File) {
    exists v :: HasRoot(g, s, x, v)
  }

  /** Lower stack entries reach higher ones, and each finished one reaches an open one at or below it. */
  ghost predicate Connected(g: Graph, s: State) {
    && (forall x, y {:trigger Reaches(g, x, y)} ::
          && x in s.onStack && y in s.onStack && x in s.index && y in s.index
          && s.index[x] <= s.index[y]
          ==> Reaches(g, x, y))
    && (forall x :: x in s.onStack && x !in s.next ==> Rooted(g, s, x))
  }

  lemma RootOf(g: Graph, s: State, x: File) returns (v: File)
    requires Shape(g, s) && Connected(g, s) && x in s.onStack
    ensures HasRoot(g, s, x, v)
  {
    if x in s.next {
      ReachesSelf(g, x);
      v := x;
    } else {
      v :| HasRoot(g, s, x, v);
    }
  }

  ghost predicate LowTarget(g: Graph, s: State, v: File, u: File) {
    && v in s.lowlink && u in s.onStack && u in s.index
    && s.index[u] == s.lowlink[v]
    && Reaches(g, v, u)
  }

  ghost predicate HasLow(g: Graph, s: State, v: File) {
    exists u :: LowTarget(g, s, v, u)
  }

  lemma LowOf(g: Graph, s: State, v: File) returns (u: File)
    requires HasLow(g, s, v)
    ensures LowTarget(g, s, v, u)
  {
    u :| LowTarget(g, s, v, u);
  }

  /** An open file's lowlink is the index of a stack entry that it reaches ... */
  ghost predicate LowSound(g: Graph, s: State)
    requires Shape(g, s)
  {
    forall v :: v in s.next ==> s.lowlink[v] <= s.index[v] && HasLow(g, s, v)
  }

  /** The edge from `x` to `y` was looked at from the segment of the stack that `v` owns. */
  ghost predicate SegmentEdge(g: Graph, s: State, v: File, x: File, y: File) {
    Owns(s, v, x) && Looked(g, s, x, y) && x in s.onStack && y in s.onStack
  }

  ghost predicate NotBelow(s: State, v: File, y: File) {
    v in s.lowlink && y in s.index && s.lowlink[v] <= s.index[y]
  }

  /** ... and no edge looked at from its segment of the stack leads lower. */
  ghost predicate LowComplete(g: Graph, s: State) {
    forall v, x, y :: SegmentEdge(g, s, v, x, y) ==> NotBelow(s, v, y)
  }

  ghost predicate Inv(g: Graph, s: State, pending: set<File>) {
    && WellFormed(g)
    && Shape(g, s)
    && Explored(g, s, pending)
    && Connected(g, s)
    && LowSound(g, s)
    && LowComplete(g, s)
  }

  /** `v` is the open file on top of the work stack. */
  ghost predicate Top(s: State, v: File) {
    && v in s.next && v in s.index
    && (forall w :: w in s.next && w in s.index ==> s.index[w] <= s.index[v])
  }

  // ---- entering a file ----

  function Enter(s: State, n: File): State {
    State(s.index[n := s.counter], s.lowlink[n := s.counter], s.onStack + {n}, s.next[n := 0], s.counter + 1)
  }

  /** `n` has no index and is the first file of a walk or a successor of the top one. */
  ghost predicate CanEnter(g: Graph, s: State, n: File) {
    && n in g.adjacency && n !in s.index
    && (s.next.Keys != {} ==> exists v :: Top(s, v) && Edge(g, v, n))
  }

  lemma TopReachesNew(g: Graph, s: State, n: File, x: File)
    requires Shape(g, s) && Connected(g, s) && CanEnter(g, s, n) && x in s.onStack
    ensures Reaches(g, x, n)
  {
    hide Injective, Reaches, Edge, Rooted;
    var r := RootOf(g, s, x);
    var v :| Top(s, v) && Edge(g, v, n);
    ReachesTrans(g, x, r, v);
    ReachesEdge(g, v, n);
    ReachesTrans(g, x, v, n);
  }

  lemma EnterLooked(g: Graph, s: State, n: File, x: File, y: File)
    requires Shape(g, s) && n !in s.index
    ensures Looked(g, Enter(s, n), x, y) <==> x != n && Looked(g, s, x, y)
  {
    hide Injective, Reaches;
  }

  lemma EnterKeepsShape(g: Graph, s: State, n: File)
    requires Shape(g, s) && n !in s.index && n in g.adjacency
    ensures Shape(g, Enter(s, n)) && Top(Enter(s, n), n)
  {
    var t := Enter(s, n);
    assert Injective(t.index);
  }

  lemma EnterKeepsExplored(g: Graph, s: State, n: File)
    requires Shape(g, s) && Explored(g, s, {n}) && n !in s.index
    ensures Explored(g, Enter(s, n), {})
  {
    hide Looked, Injective;
    forall x, y | Looked(g, Enter(s, n), x, y) ensures x != n && Looked(g, s, x, y) {
      EnterLooked(g, s, n, x, y);
    }
  }

  lemma EnterKeepsRooted(g: Graph, s: State, n: File, x: File)
    requires Shape(g, s) && Connected(g, s) && n !in s.index && x in s.onStack
    ensures Rooted(g, Enter(s, n), x)
  {
    hide Injective, Reaches;
    var v := RootOf(g, s, x);
    assert HasRoot(g, Enter(s, n), x, v);
  }

  lemma EnterKeepsConnected(g: Graph, s: State, n: File)
    requires Shape(g, s) && Connected(g, s) && CanEnter(g, s, n)
    ensures Connected(g, Enter(s, n))
  {
    hide Injective, Reaches, Edge, Top, Rooted;
    var t := Enter(s, n);
    ReachesSelf(g, n);
    forall x | x in s.onStack ensures Reaches(g, x, n) && Rooted(g, t, x) {
      TopReachesNew(g, s, n, x);
      EnterKeepsRooted(g, s, n, x);
    }
  }

  lemma EnterKeepsLowSound(g: Graph, s: State, n: File)
    requires Shape(g, s) && LowSound(g, s) && n !in s.index && Shape(g, Enter(s, n))
    ensures LowSound(g, Enter(s, n))
  {
    hide Injective, Reaches;
    var t := Enter(s, n);
    ReachesSelf(g, n);
    forall v | v in t.next ensures t.lowlink[v] <= t.index[v] && HasLow(g, t, v) {
      if v == n {
        assert LowTarget(g, t, v, n);
      } else {
        var u := LowOf(g, s, v);
        assert LowTarget(g, t, v, u);
      }
    }
  }

  lemma OwnsOpen(s: State, v: File, x: File)
    requires Owns(s, v, x)
    ensures v in s.next
  {
  }

  lemma OwnsBeforeEnter(s: State, n: File, v: File, x: File)
    requires n !in s.index && x in s.index && s.index[x] < s.counter
    requires Owns(Enter(s, n), v, x)
    ensures v != n && Owns(s, v, x)
  {
    forall w | w in s.next && w in s.index && s.index[w] <= s.index[x] ensures s.index[w] <= s.index[v] {
      assert w in Enter(s, n).next;
    }
  }

  lemma EnterLow(g: Graph, s: State, n: File, v: File, x: File, y: File)
    requires Shape(g, s) && n !in s.index && LowSound(g, s) && LowComplete(g, s)
    requires SegmentEdge(g, Enter(s, n), v, x, y)
    ensures NotBelow(Enter(s, n), v, y)
  {
    hide HasLow, Injective;
    EnterLooked(g, s, n, x, y);
    OwnsBeforeEnter(s, n, v, x);
    if y == n {
      assert v in s.next by { hide Shape, LowSound, LowComplete, NotBelow; OwnsOpen(s, v, x); }
    } else {
      assert SegmentEdge(g, s, v, x, y);
      assert NotBelow(s, v, y);
    }
  }

  lemma EnterKeepsLowComplete(g: Graph, s: State, n: File)
    requires Shape(g, s) && LowSound(g, s) && LowComplete(g, s) && n !in s.index
    ensures LowComplete(g, Enter(s, n))
  {
    forall v, x, y | SegmentEdge(g, Enter(s, n), v, x, y) ensures NotBelow(Enter(s, n), v, y) {
      EnterLow(g, s, n, v, x, y);
    }
  }

  lemma EnterKeepsInv(g: Graph, s: State, n: File)
    requires Inv(g, s, {n}) && CanEnter(g, s, n)
    ensures Inv(g, Enter(s, n), {}) && Top(Enter(s, n), n)
  {
    EnterKeepsShape(g, s, n);
    EnterKeepsExplored(g, s, n);
    EnterKeepsConnected(g, s, n);
    EnterKeepsLowSound(g, s, n);
    EnterKeepsLowComplete(g, s, n);
  }

  // ---- stepping over an edge ----

  function Smaller(a: nat, b: nat): nat {
    if b < a then b else a
  }

  /** The top file `v` looks at its next successor. */
  function Advance(g: Graph, s: State, v: File): State
    requires v in s.next && v in g.adjacency && s.next[v] < |g.adjacency[v]| && v in s.lowlink
    requires s.onStack <= s.index.Keys
  {
    var y := g.adjacency[v][s.next[v]];
    s.(next := s.next[v := s.next[v] + 1],
       lowlink := s.lowlink[v := if y in s.onStack then Smaller(s.lowlink[v], s.index[y]) else s.lowlink[v]])
  }

  ghost predicate CanAdvance(g: Graph, s: State, v: File) {
    Shape(g, s) && Top(s, v) && s.next[v] < |g.adjacency[v]|
  }

  lemma AdvanceLooked(g: Graph, s: State, v: File, x: File, z: File)
    requires CanAdvance(g, s, v) && WellFormed(g)
    ensures Looked(g, Advance(g, s, v), x, z) <==>
            Looked(g, s, x, z) || (x == v && z == g.adjacency[v][s.next[v]])
  {
    hide Injective;
    var k := s.next[v];
    assert g.adjacency[v][..k + 1] == g.adjacency[v][..k] + [g.adjacency[v][k]];
  }

  lemma AdvanceKeepsShape(g: Graph, s: State, v: File)
    requires CanAdvance(g, s, v)
    ensures Shape(g, Advance(g, s, v)) && Top(Advance(g, s, v), v)
  {
    hide Injective;
  }

  lemma AdvanceKeepsExplored(g: Graph, s: State, v: File)
    requires CanAdvance(g, s, v) && Explored(g, s, {}) && WellFormed(g)
    ensures var y := g.adjacency[v][s.next[v]];
            Explored(g, Advance(g, s, v), if y in s.index then {} else {y})
  {
    hide Injective, Looked, WellFormed;
    forall x, z | Looked(g, Advance(g, s, v), x, z)
      ensures Looked(g, s, x, z) || (x == v && z == g.adjacency[v][s.next[v]])
    {
      AdvanceLooked(g, s, v, x, z);
    }
  }

  lemma AdvanceKeepsConnected(g: Graph, s: State, v: File)
    requires CanAdvance(g, s, v) && Connected(g, s)
    ensures Connected(g, Advance(g, s, v))
  {
    hide Injective, Reaches;
    var t := Advance(g, s, v);
    forall x | x in s.onStack && x !in s.next ensures Rooted(g, t, x) {
      var r := RootOf(g, s, x);
      assert HasRoot(g, t, x, r);
    }
  }

  lemma AdvanceKeepsLowSound(g: Graph, s: State, v: File)
    requires CanAdvance(g, s, v) && LowSound(g, s) && Shape(g, Advance(g, s, v))
    ensures LowSound(g, Advance(g, s, v))
  {
    hide Injective, Reaches;
    var t, y := Advance(g, s, v), g.adjacency[v][s.next[v]];
    assert Edge(g, v, y);
    ReachesEdge(g, v, y);
    forall w | w in t.next ensures t.lowlink[w] <= t.index[w] && HasLow(g, t, w) {
      var u := LowOf(g, s, w);
      if w == v && t.lowlink[v] != s.lowlink[v] {
        assert LowTarget(g, t, v, y);
      } else {
        assert LowTarget(g, t, w, u);
      }
    }
  }

  lemma TopOwnsItself(g: Graph, s: State, v: File, w: File)
    requires Shape(g, s) && Top(s, v) && Owns(s, w, v)
    ensures w == v
  {
  }

  lemma AdvanceLow(g: Graph, s: State, v: File, w: File, x: File, z: File)
    requires CanAdvance(g, s, v) && LowComplete(g, s) && WellFormed(g)
    requires SegmentEdge(g, Advance(g, s, v), w, x, z)
    ensures NotBelow(Advance(g, s, v), w, z)
  {
    hide Injective, WellFormed;
    AdvanceLooked(g, s, v, x, z);
    assert Owns(s, w, x);
    if Looked(g, s, x, z) {
      assert SegmentEdge(g, s, w, x, z);
      assert NotBelow(s, w, z);
    } else {
      TopOwnsItself(g, s, v, w);
    }
  }

  lemma AdvanceKeepsLowComplete(g: Graph, s: State, v: File)
    requires CanAdvance(g, s, v) && LowComplete(g, s) && WellFormed(g)
    ensures LowComplete(g, Advance(g, s, v))
  {
    forall w, x, z | SegmentEdge(g, Advance(g, s, v), w, x, z) ensures NotBelow(Advance(g, s, v), w, z) {
      AdvanceLow(g, s, v, w, x, z);
    }
  }

  lemma AdvanceCanEnter(g: Graph, s: State, v: File)
    requires CanAdvance(g, s, v) && WellFormed(g) && Top(Advance(g, s, v), v)
    ensures var y := g.adjacency[v][s.next[v]];
            y !in s.index ==> CanEnter(g, Advance(g, s, v), y)
  {
    hide Injective;
    assert v in s.next && v in s.onStack;
    assert Edge(g, v, g.adjacency[v][s.next[v]]);
  }

  lemma AdvanceKeepsInv(g: Graph, s: State, v: File)
    requires Inv(g, s, {}) && CanAdvance(g, s, v)
    ensures var y := g.adjacency[v][s.next[v]];
            && Top(Advance(g, s, v), v)
            && (y in s.index ==> Inv(g, Advance(g, s, v), {}))
            && (y !in s.index ==> Inv(g, Advance(g, s, v), {y}) && CanEnter(g, Advance(g, s, v), y))
  {
    AdvanceKeepsShape(g, s, v);
    AdvanceKeepsExplored(g, s, v);
    AdvanceKeepsConnected(g, s, v);
    AdvanceKeepsLowSound(g, s, v);
    AdvanceKeepsLowComplete(g, s, v);
    AdvanceCanEnter(g, s, v);
  }

  // ---- finishing a file that is not the root of its component ----

  ghost predicate CanFinish(g: Graph, s: State, v: File) {
    Shape(g, s) && Top(s, v) && s.next[v] == |g.adjacency[v]|
  }

  /** `p` is the open file just below the top one. */
  ghost predicate Parent(s: State, v: File, p: File) {
    && p in s.next && p != v && p in s.index
    && (forall w :: w in s.next && w != v && w in s.index ==> s.index[w] <= s.index[p])
  }

  function Finish(s: State, v: File, p: File): State
    requires p in s.lowlink && v in s.lowlink
  {
    s.(next := s.next - {v}, lowlink := s.lowlink[p := Smaller(s.lowlink[p], s.lowlink[v])])
  }

  /** A file whose lowlink is below its index reaches an open file below it. */
  lemma LowerRoot(g: Graph, s: State, v: File) returns (r: File)
    requires Shape(g, s) && Connected(g, s) && LowSound(g, s) && v in s.next && s.lowlink[v] < s.index[v]
    ensures r in s.next && r in s.index && s.index[r] < s.index[v] && Reaches(g, v, r)
    ensures s.index[r] <= s.lowlink[v]
  {
    hide Injective, Reaches, Rooted;
    var u := LowOf(g, s, v);
    r := RootOf(g, s, u);
    ReachesTrans(g, v, u, r);
  }

  lemma FinishLooked(g: Graph, s: State, v: File, p: File, x: File, z: File)
    requires CanFinish(g, s, v) && Parent(s, v, p)
    ensures Looked(g, Finish(s, v, p), x, z) <==> Looked(g, s, x, z)
  {
    hide Injective;
    assert g.adjacency[v][..|g.adjacency[v]|] == g.adjacency[v];
  }

  lemma ParentIsLower(g: Graph, s: State, v: File, p: File)
    requires Shape(g, s) && Top(s, v) && Parent(s, v, p)
    ensures s.index[p] < s.index[v]
  {
  }

  lemma FinishKeepsShape(g: Graph, s: State, v: File, p: File)
    requires CanFinish(g, s, v) && Parent(s, v, p)
    ensures Shape(g, Finish(s, v, p)) && Top(Finish(s, v, p), p)
  {
    hide Injective;
  }

  lemma FinishKeepsExplored(g: Graph, s: State, v: File, p: File)
    requires CanFinish(g, s, v) && Parent(s, v, p) && Explored(g, s, {})
    ensures Explored(g, Finish(s, v, p), {})
  {
    hide Injective, Looked;
    forall x, z ensures Looked(g, Finish(s, v, p), x, z) <==> Looked(g, s, x, z) {
      FinishLooked(g, s, v, p, x, z);
    }
  }

  lemma FinishKeepsRooted(g: Graph, s: State, v: File, p: File, x: File)
    requires CanFinish(g, s, v) && Parent(s, v, p) && Connected(g, s) && LowSound(g, s)
    requires s.lowlink[v] < s.index[v] && x in s.onStack
    ensures Rooted(g, Finish(s, v, p), x)
  {
    hide Injective, Reaches;
    var r := RootOf(g, s, x);
    if r == v {
      r := LowerRoot(g, s, v);
      ReachesTrans(g, x, v, r);
    }
    assert HasRoot(g, Finish(s, v, p), x, r);
  }

  lemma FinishKeepsConnected(g: Graph, s: State, v: File, p: File)
    requires CanFinish(g, s, v) && Parent(s, v, p) && Connected(g, s) && LowSound(g, s)
    requires s.lowlink[v] < s.index[v]
    ensures Connected(g, Finish(s, v, p))
  {
    hide Injective, Reaches, Rooted, LowSound;
    forall x | x in s.onStack ensures Rooted(g, Finish(s, v, p), x) {
      FinishKeepsRooted(g, s, v, p, x);
    }
  }

  lemma FinishKeepsLowSound(g: Graph, s: State, v: File, p: File)
    requires CanFinish(g, s, v) && Parent(s, v, p) && Connected(g, s) && LowSound(g, s)
    requires Shape(g, Finish(s, v, p))
    ensures LowSound(g, Finish(s, v, p))
  {
    hide Reaches, Rooted;
    ParentIsLower(g, s, v, p);
    var t := Finish(s, v, p);
    var low := LowOf(g, s, v);
    assert Reaches(g, p, v);
    ReachesTrans(g, p, v, low);
    forall w | w in t.next ensures t.lowlink[w] <= t.index[w] && HasLow(g, t, w) {
      var u := LowOf(g, s, w);
      if w == p && t.lowlink[p] != s.lowlink[p] {
        assert LowTarget(g, t, p, low);
      } else {
        assert LowTarget(g, t, w, u);
      }
    }
  }

  /** The segment of a finished file goes to its parent; the other segments stay. */
  lemma OwnsAfterFinish(g: Graph, s: State, v: File, p: File, w: File, x: File)
    requires CanFinish(g, s, v) && Parent(s, v, p) && Owns(Finish(s, v, p), w, x)
    ensures Owns(s, w, x) || (w == p && Owns(s, v, x))
  {
    ParentIsLower(g, s, v, p);
    if s.index[x] < s.index[v] {
      assert Owns(s, w, x) by {
        forall q | q in s.next && q in s.index && s.index[q] <= s.index[x] ensures s.index[q] <= s.index[w] {
          assert q in Finish(s, v, p).next;
        }
      }
    } else {
      assert p in Finish(s, v, p).next;
      assert w == p;
      assert Owns(s, v, x);
    }
  }

  lemma FinishLow(g: Graph, s: State, v: File, p: File, w: File, x: File, z: File)
    requires CanFinish(g, s, v) && Parent(s, v, p) && LowComplete(g, s)
    requires SegmentEdge(g, Finish(s, v, p), w, x, z)
    ensures NotBelow(Finish(s, v, p), w, z)
  {
    hide Injective;
    FinishLooked(g, s, v, p, x, z);
    OwnsAfterFinish(g, s, v, p, w, x);
    if Owns(s, w, x) {
      assert SegmentEdge(g, s, w, x, z);
      assert NotBelow(s, w, z);
    } else {
      assert SegmentEdge(g, s, v, x, z);
      assert NotBelow(s, v, z);
    }
  }

  lemma FinishKeepsLowComplete(g: Graph, s: State, v: File, p: File)
    requires CanFinish(g, s, v) && Parent(s, v, p) && LowComplete(g, s)
    ensures LowComplete(g, Finish(s, v, p))
  {
    forall w, x, z | SegmentEdge(g, Finish(s, v, p), w, x, z) ensures NotBelow(Finish(s, v, p), w, z) {
      FinishLow(g, s, v, p, w, x, z);
    }
  }

  lemma FinishKeepsInv(g: Graph, s: State, v: File, p: File)
    requires Inv(g, s, {}) && CanFinish(g, s, v) && Parent(s, v, p) && s.lowlink[v] < s.index[v]
    ensures Inv(g, Finish(s, v, p), {}) && Top(Finish(s, v, p), p)
  {
    FinishKeepsShape(g, s, v, p);
    FinishKeepsExplored(g, s, v, p);
    FinishKeepsConnected(g, s, v, p);
    FinishKeepsLowSound(g, s, v, p);
    FinishKeepsLowComplete(g, s, v, p);
  }

  // ---- closing a component ----

  /** The stack from `v` up. */
  function Segment(s: State, v: File): set<File> {
    set x | x in s.onStack && x in s.index && v in s.index && s.index[x] >= s.index[v]
  }

  function Close(s: State, v: File): State {
    s.(onStack := s.onStack - Segment(s, v), next := s.next - {v})
  }

  ghost predicate CanClose(g: Graph, s: State, v: File) {
    CanFinish(g, s, v) && s.lowlink[v] == s.index[v]
  }

  lemma CloseLooked(g: Graph, s: State, v: File, x: File, z: File)
    requires CanClose(g, s, v)
    ensures Looked(g, Close(s, v), x, z) <==> Looked(g, s, x, z)
  {
    hide Injective;
    assert g.adjacency[v][..|g.adjacency[v]|] == g.adjacency[v];
  }

  /** Members of the closed segment reach each other. */
  lemma SegmentIsConnected(g: Graph, s: State, v: File, x: File, y: File)
    requires Shape(g, s) && Connected(g, s) && Top(s, v)
    requires x in Segment(s, v) && y in Segment(s, v)
    ensures Reaches(g, x, y)
  {
    hide Reaches, Rooted, Injective;
    var r := RootOf(g, s, x);
    assert Reaches(g, r, v);
    assert Reaches(g, v, y);
    ReachesTrans(g, x, r, v);
    ReachesTrans(g, x, v, y);
  }

  /** Edges out of the closed segment stay in it or lead to files closed before. */
  lemma SegmentIsClosed(g: Graph, s: State, v: File, x: File, y: File)
    requires CanClose(g, s, v) && Explored(g, s, {}) && LowComplete(g, s)
    requires x in Segment(s, v) && Looked(g, s, x, y)
    ensures y in s.index && (y in Segment(s, v) || y !in s.onStack)
  {
    hide Injective, Looked;
    if y in s.onStack {
      assert Owns(s, v, x);
      assert SegmentEdge(g, s, v, x, y);
      assert NotBelow(s, v, y);
    }
  }

  lemma CloseKeepsShape(g: Graph, s: State, v: File)
    requires CanClose(g, s, v)
    ensures Shape(g, Close(s, v))
  {
    forall w | w in s.next && w != v ensures w !in Segment(s, v) {
      assert s.index[w] != s.index[v];
    }
  }

  lemma CloseKeepsExplored(g: Graph, s: State, v: File)
    requires CanClose(g, s, v) && Explored(g, s, {}) && LowComplete(g, s)
    ensures Explored(g, Close(s, v), {})
  {
    hide Injective, Looked;
    forall x, z | Looked(g, Close(s, v), x, z)
      ensures Looked(g, s, x, z)
      ensures x in Segment(s, v) ==> z in s.index && (z in Segment(s, v) || z !in s.onStack)
    {
      hide Explored, LowComplete, Shape;
      CloseLooked(g, s, v, x, z);
      if x in Segment(s, v) {
        SegmentIsClosed(g, s, v, x, z);
      }
    }
  }

  lemma CloseKeepsConnected(g: Graph, s: State, v: File)
    requires CanClose(g, s, v) && Connected(g, s)
    ensures Connected(g, Close(s, v))
  {
    hide Injective, Reaches;
    var t := Close(s, v);
    forall x | x in t.onStack ensures Rooted(g, t, x) {
      var r := RootOf(g, s, x);
      assert HasRoot(g, t, x, r);
    }
  }

  lemma CloseKeepsLowSound(g: Graph, s: State, v: File)
    requires CanClose(g, s, v) && LowSound(g, s) && Shape(g, Close(s, v))
    ensures LowSound(g, Close(s, v))
  {
    hide Reaches;
    var t := Close(s, v);
    forall w | w in t.next ensures t.lowlink[w] <= t.index[w] && HasLow(g, t, w) {
      var u := LowOf(g, s, w);
      assert w in t.onStack;
      assert LowTarget(g, t, w, u);
    }
  }

  lemma CloseLow(g: Graph, s: State, v: File, w: File, x: File, z: File)
    requires CanClose(g, s, v) && LowComplete(g, s)
    requires SegmentEdge(g, Close(s, v), w, x, z)
    ensures NotBelow(Close(s, v), w, z)
  {
    hide Injective;
    CloseLooked(g, s, v, x, z);
    assert Owns(s, w, x) by {
      forall q | q in s.next && q in s.index && s.index[q] <= s.index[x] ensures s.index[q] <= s.index[w] {
        assert q in Close(s, v).next;
      }
    }
    assert SegmentEdge(g, s, w, x, z);
    assert NotBelow(s, w, z);
  }

  lemma CloseKeepsLowComplete(g: Graph, s: State, v: File)
    requires CanClose(g, s, v) && LowComplete(g, s)
    ensures LowComplete(g, Close(s, v))
  {
    forall w, x, z | SegmentEdge(g, Close(s, v), w, x, z) ensures NotBelow(Close(s, v), w, z) {
      CloseLow(g, s, v, w, x, z);
    }
  }

  lemma CloseKeepsInv(g: Graph, s: State, v: File)
    requires Inv(g, s, {}) && CanClose(g, s, v)
    ensures Inv(g, Close(s, v), {})
  {
    CloseKeepsShape(g, s, v);
    CloseKeepsExplored(g, s, v);
    CloseKeepsConnected(g, s, v);
    CloseKeepsLowSound(g, s, v);
    CloseKeepsLowComplete(g, s, v);
  }
}
