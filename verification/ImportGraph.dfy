/** The static import graph that the cycle check walks, and what reachability means on it. */
module ImportGraph {

  datatype File = File(path: string)

  /** `files` are the keys of the adjacency map in insertion order; a successor list
      is the insertion order of the corresponding successor set. */
  datatype Graph = Graph(files: seq<File>, adjacency: map<File, seq<File>>)

  predicate Distinct<T(==)>(s: seq<T>) {
    forall i, j :: 0 <= i < j < |s| ==> s[i] != s[j]
  }

  /** What building the graph guarantees: one entry per file, and every successor is a file. */
  ghost predicate WellFormed(g: Graph) {
    && Distinct(g.files)
    && (forall f :: f in g.files <==> f in g.adjacency)
    && (forall f, s :: f in g.adjacency && s in g.adjacency[f] ==> s in g.adjacency)
  }

  ghost predicate Edge(g: Graph, x: File, y: File) {
    x in g.adjacency && y in g.adjacency[x]
  }

  /** `p` is a sequence of files from `x` to `y` in which each one imports the next. */
  ghost predicate Walk(g: Graph, p: seq<File>, x: File, y: File) {
    && |p| > 0 && p[0] == x && p[|p| - 1] == y
    && (forall i :: 0 <= i < |p| - 1 ==> Edge(g, p[i], p[i + 1]))
  }

  ghost predicate Reaches(g: Graph, x: File, y: File) {
    exists p :: Walk(g, p, x, y)
  }

  /** A non-empty import chain leads from `x` back to `x`. */
  ghost predicate OnCycle(g: Graph, x: File) {
    exists p :: |p| > 1 && Walk(g, p, x, x)
  }

  ghost predicate Mutual(g: Graph, x: File, y: File) {
    Reaches(g, x, y) && Reaches(g, y, x)
  }

  /** A strongly connected component, listed without repetition: members reach each
      other and no outside file is mutually reachable with a member. */
  ghost predicate IsComponent(g: Graph, c: seq<File>) {
    && c != [] && Distinct(c)
    && (forall x, y :: x in c && y in c ==> Reaches(g, x, y))
    && (forall x, z :: x in c && Mutual(g, x, z) ==> z in c)
  }

  /** The number of imports of the given files. */
  function EdgeCount(g: Graph, files: seq<File>): nat {
    if files == [] then 0
    else (if files[0] in g.adjacency then |g.adjacency[files[0]]| else 0) + EdgeCount(g, files[1..])
  }

  lemma ReachesSelf(g: Graph, x: File)
    ensures Reaches(g, x, x)
  {
    assert Walk(g, [x], x, x);
  }

  lemma ReachesEdge(g: Graph, x: File, y: File)
    requires Edge(g, x, y)
    ensures Reaches(g, x, y)
  {
    assert Walk(g, [x, y], x, y);
  }

  lemma ReachesTrans(g: Graph, x: File, y: File, z: File)
    requires Reaches(g, x, y) && Reaches(g, y, z)
    ensures Reaches(g, x, z)
  {
    var p :| Walk(g, p, x, y);
    var q :| Walk(g, q, y, z);
    assert Walk(g, p + q[1..], x, z);
  }

  /** A numbering that no edge increases is increased by no walk either. */
  lemma {:induction false} WalkDescends(g: Graph, rank: map<File, nat>, p: seq<File>, x: File, y: File)
    requires Walk(g, p, x, y) && x in rank
    requires forall u, v :: u in rank && Edge(g, u, v) ==> v in rank && rank[v] <= rank[u]
    ensures y in rank && rank[y] <= rank[x]
    decreases |p|
  {
    if |p| > 1 {
      assert Edge(g, p[0], p[1]);
      assert Walk(g, p[1..], p[1], y) by {
        forall i | 0 <= i < |p[1..]| - 1 ensures Edge(g, p[1..][i], p[1..][i + 1]) {
          assert Edge(g, p[i + 1], p[i + 2]);
        }
      }
      WalkDescends(g, rank, p[1..], p[1], y);
    }
  }

  lemma ReachesDescends(g: Graph, rank: map<File, nat>, x: File, y: File)
    requires Reaches(g, x, y) && x in rank
    requires forall u, v :: u in rank && Edge(g, u, v) ==> v in rank && rank[v] <= rank[u]
    ensures y in rank && rank[y] <= rank[x]
  {
    var p :| Walk(g, p, x, y);
    WalkDescends(g, rank, p, x, y);
  }

  /** A file lies on a cycle exactly when one of its successors reaches it. */
  lemma OnCycleIffSuccessorReturns(g: Graph, x: File)
    ensures OnCycle(g, x) <==> exists y :: Edge(g, x, y) && Reaches(g, y, x)
  {
    if OnCycle(g, x) {
      var p :| |p| > 1 && Walk(g, p, x, x);
      assert Edge(g, p[0], p[1]);
      assert Walk(g, p[1..], p[1], x) by {
        forall i | 0 <= i < |p[1..]| - 1 ensures Edge(g, p[1..][i], p[1..][i + 1]) {
          assert Edge(g, p[i + 1], p[i + 2]);
        }
      }
    }
    if y :| Edge(g, x, y) && Reaches(g, y, x) {
      var p :| Walk(g, p, y, x);
      assert Walk(g, [x] + p, x, x);
    }
  }
}
