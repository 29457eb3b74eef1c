/** The spool file of pending signals: how it is read, bounded and appended to. */
module SignalSpool {
  import opened Wrappers

  type SignalId = string

  datatype Entry = Entry(id: SignalId, createdAt: int, body: string, attempts: nat)

  /** The lines of the file. */
  type Spool = seq<Entry>

  const MAX_ENTRIES := 200
  const MAX_AGE_MS := 172800000

  function Ids(s: Spool): set<SignalId> {
    set e | e in s :: e.id
  }

  // ---- reading ----

  /** A later line for an id replaces the earlier one, in its place. */
  function Put(s: Spool, e: Entry): Spool {
    if s == [] then [e]
    else if s[0].id == e.id then [e] + s[1..]
    else [s[0]] + Put(s[1..], e)
  }

  function ById(s: Spool): Spool {
    if s == [] then [] else Put(ById(s[..|s| - 1]), s[|s| - 1])
  }

  /** Into a list that is oldest first, behind the entries of the same age. */
  function Insert(s: Spool, e: Entry): Spool {
    if s == [] || s[|s| - 1].createdAt <= e.createdAt then s + [e]
    else Insert(s[..|s| - 1], e) + [s[|s| - 1]]
  }

  /** Oldest first; entries of the same age keep their order. */
  function Sort(s: Spool): Spool {
    if s == [] then [] else Insert(Sort(s[..|s| - 1]), s[|s| - 1])
  }

  function ReadPending(file: Spool): Spool {
    Sort(ById(file))
  }

  ghost predicate Sorted(s: Spool) {
    s == [] || (Sorted(s[..|s| - 1]) && forall e :: e in s[..|s| - 1] ==> e.createdAt <= s[|s| - 1].createdAt)
  }

  lemma SortedMore(s: Spool, e: Entry)
    requires Sorted(s) && forall x :: x in s ==> x.createdAt <= e.createdAt
    ensures Sorted(s + [e])
  {
    assert (s + [e])[..|s|] == s;
  }

  lemma {:induction false} PutIds(s: Spool, e: Entry)
    ensures Ids(Put(s, e)) == Ids(s) + {e.id}
  {
    if s != [] {
      IdsSplit([s[0]], s[1..]);
      assert [s[0]] + s[1..] == s;
      if s[0].id == e.id {
        IdsSplit([e], s[1..]);
        assert Ids([e]) == Ids([s[0]]);
      } else {
        PutIds(s[1..], e);
        IdsSplit([s[0]], Put(s[1..], e));
      }
    }
  }

  lemma IdsSplit(a: Spool, b: Spool)
    ensures Ids(a + b) == Ids(a) + Ids(b)
  {
  }

  lemma IdsLast(s: Spool)
    requires s != []
    ensures Ids(s) == Ids(s[..|s| - 1]) + {s[|s| - 1].id}
  {
    IdsSplit(s[..|s| - 1], [s[|s| - 1]]);
    assert s == s[..|s| - 1] + [s[|s| - 1]];
  }

  lemma {:induction false} ByIdIds(s: Spool)
    ensures Ids(ById(s)) == Ids(s)
  {
    hide Ids;
    if s != [] {
      ByIdIds(s[..|s| - 1]);
      PutIds(ById(s[..|s| - 1]), s[|s| - 1]);
      IdsLast(s);
    }
  }

  lemma SortedLast(s: Spool)
    requires Sorted(s) && s != []
    ensures Sorted(s[..|s| - 1]) && forall e :: e in s ==> e.createdAt <= s[|s| - 1].createdAt
  {
    assert s == s[..|s| - 1] + [s[|s| - 1]];
  }

  lemma InsertOf(s: Spool, e: Entry)
    ensures s == [] || s[|s| - 1].createdAt <= e.createdAt ==>
              Insert(s, e) == s + [e] == s[..|s|] + [e] + s[|s|..]
    ensures s != [] && s[|s| - 1].createdAt > e.createdAt ==> Insert(s, e) == Insert(s[..|s| - 1], e) + [s[|s| - 1]]
  {
  }

  /** The place where an entry is inserted. */
  lemma {:induction false} InsertAt(s: Spool, e: Entry) returns (k: nat)
    requires Sorted(s)
    ensures k <= |s| && Insert(s, e) == s[..k] + [e] + s[k..] && Sorted(Insert(s, e))
    ensures forall i :: 0 <= i < |s| ==> (s[i].createdAt <= e.createdAt <==> i < k)
  {
    hide Sorted, Insert;
    InsertOf(s, e);
    if s == [] || s[|s| - 1].createdAt <= e.createdAt {
      k := |s|;
      if s != [] {
        SortedLast(s);
      }
      SortedMore(s, e);
    } else {
      var init, last := s[..|s| - 1], s[|s| - 1];
      SortedLast(s);
      k := InsertAt(init, e);
      InsertMore(init, e, k, last);
      assert init + [last] == s;
      SortedMore(Insert(init, e), last);
    }
  }

  lemma InsertMore(s: Spool, e: Entry, k: nat, last: Entry)
    requires k <= |s|
    ensures s[..k] + [e] + s[k..] + [last] == (s + [last])[..k] + [e] + (s + [last])[k..]
    ensures forall x :: x in s[..k] + [e] + s[k..] ==> x in s || x == e
  {
  }

  lemma {:induction false} SortFacts(s: Spool)
    ensures Sorted(Sort(s)) && Ids(Sort(s)) == Ids(s)
  {
    hide Ids, Insert, Sorted;
    if s == [] {
      SortedOne();
    } else {
      var t, e := Sort(s[..|s| - 1]), s[|s| - 1];
      SortFacts(s[..|s| - 1]);
      var k := InsertAt(t, e);
      InsertIds(t, e, k);
      IdsLast(s);
    }
  }

  lemma SortedOne()
    ensures Sorted([])
  {
  }

  lemma InsertIds(t: Spool, e: Entry, k: nat)
    requires k <= |t|
    ensures Ids(t[..k] + [e] + t[k..]) == Ids(t) + {e.id}
  {
    IdsSplit(t[..k] + [e], t[k..]);
    IdsSplit(t[..k], [e]);
    IdsSplit(t[..k], t[k..]);
    assert t == t[..k] + t[k..];
  }

  lemma {:induction false} SortMembers(s: Spool)
    ensures forall e :: e in Sort(s) <==> e in s
    ensures |Sort(s)| == |s|
  {
    hide Insert;
    if s != [] {
      var init, e := s[..|s| - 1], s[|s| - 1];
      SortMembers(init);
      SortFacts(init);
      var t := Sort(init);
      var k := InsertAt(t, e);
      assert t == t[..k] + t[k..] && s == init + [e];
    }
  }

  // ---- which lines are read, and in what order ----

  /** The last line for an id. */
  function LastLine(file: Spool, id: SignalId): Option<Entry> {
    if file == [] then None
    else if file[|file| - 1].id == id then Some(file[|file| - 1])
    else LastLine(file[..|file| - 1], id)
  }

  /** Where an id comes first. */
  function FirstPlace(file: Spool, id: SignalId): nat {
    if file == [] then 0
    else if id in Ids(file[..|file| - 1]) then FirstPlace(file[..|file| - 1], id)
    else |file| - 1
  }

  /** Oldest first, entries of the same age by the place where their ids come first. */
  ghost predicate InOrder(file: Spool, s: Spool) {
    forall i, j :: 0 <= i < j < |s| ==>
      || s[i].createdAt < s[j].createdAt
      || (s[i].createdAt == s[j].createdAt && FirstPlace(file, s[i].id) < FirstPlace(file, s[j].id))
  }

  ghost predicate InPlace(file: Spool, s: Spool) {
    forall i, j :: 0 <= i < j < |s| ==> FirstPlace(file, s[i].id) < FirstPlace(file, s[j].id)
  }

  ghost predicate AllLast(file: Spool, s: Spool) {
    forall e :: e in s <==> LastLine(file, e.id) == Some(e)
  }

  lemma {:induction false} PlaceInFile(file: Spool, id: SignalId)
    requires id in Ids(file)
    ensures FirstPlace(file, id) < |file|
  {
    hide Ids;
    if file != [] {
      IdsLast(file);
      if id in Ids(file[..|file| - 1]) {
        PlaceInFile(file[..|file| - 1], id);
      }
    } else {
      NoIds();
    }
  }

  lemma NoIds()
    ensures Ids([]) == {}
  {
  }

  lemma {:induction false} PutAt(s: Spool, e: Entry)
    ensures e.id !in Ids(s) ==> Put(s, e) == s + [e]
    ensures e.id in Ids(s) ==>
              |Put(s, e)| == |s| && forall i :: 0 <= i < |s| ==> Put(s, e)[i].id == s[i].id
    ensures forall i :: 0 <= i < |s| && s[i].id != e.id ==> Put(s, e)[i] == s[i]
    ensures e in Put(s, e) && |Put(s, e)| >= |s|
  {
    if s != [] {
      IdsSplit([s[0]], s[1..]);
      assert s == [s[0]] + s[1..] && Ids([s[0]]) == {s[0].id};
      if s[0].id != e.id {
        PutAt(s[1..], e);
      }
    }
  }

  /** Collecting the lines by id keeps the last line of each, at the place of the first. */
  lemma {:induction false} ByIdPlaces(file: Spool)
    ensures InPlace(file, ById(file))
  {
    hide Ids, Put;
    if file != [] {
      var init, e := file[..|file| - 1], file[|file| - 1];
      var s := ById(init);
      ByIdPlaces(init);
      ByIdIds(init);
      PutAt(s, e);
      forall i, j | 0 <= i < j < |Put(s, e)| ensures FirstPlace(file, Put(s, e)[i].id) < FirstPlace(file, Put(s, e)[j].id) {
        HasId(s, i);
        HasId(s, j);
        PlaceInFile(init, s[i].id);
      }
    }
  }

  lemma HasId(s: Spool, i: nat)
    ensures i < |s| ==> s[i].id in Ids(s)
  {
  }

  lemma {:induction false} ByIdLast(file: Spool)
    ensures AllLast(file, ById(file))
  {
    hide Ids, Put;
    if file != [] {
      var init, e := file[..|file| - 1], file[|file| - 1];
      var s := ById(init);
      ByIdLast(init);
      ByIdPlaces(init);
      ByIdPlaces(file);
      PutAt(s, e);
      forall x ensures x in Put(s, e) <==> LastLine(file, x.id) == Some(x) {
        if x in Put(s, e) {
          var i :| 0 <= i < |Put(s, e)| && Put(s, e)[i] == x;
          var k :| 0 <= k < |Put(s, e)| && Put(s, e)[k] == e;
          if x.id == e.id {
            assert i == k;
          } else {
            assert i < |s| && s[i] == x;
          }
        }
        if LastLine(file, x.id) == Some(x) && x.id != e.id {
          var i :| 0 <= i < |s| && s[i] == x;
        }
      }
    }
  }

  lemma InsertInOrder(file: Spool, t: Spool, e: Entry, k: nat)
    requires InOrder(file, t) && k <= |t| && forall i :: 0 <= i < |t| ==> (t[i].createdAt <= e.createdAt <==> i < k)
    requires forall x :: x in t ==> FirstPlace(file, x.id) < FirstPlace(file, e.id)
    ensures InOrder(file, t[..k] + [e] + t[k..])
  {
    hide FirstPlace;
    var u := t[..k] + [e] + t[k..];
    forall i, j | 0 <= i < j < |u|
      ensures u[i].createdAt < u[j].createdAt || (u[i].createdAt == u[j].createdAt && FirstPlace(file, u[i].id) < FirstPlace(file, u[j].id))
    {
      var a, b := if i < k then i else i - 1, if j < k then j else j - 1;
      if i != k && j != k {
        assert u[i] == t[a] && u[j] == t[b];
      } else if j == k {
        assert u[i] == t[i] && t[i] in t;
      } else {
        assert u[j] == t[j - 1];
      }
    }
  }

  /** Sorting keeps the order of entries of the same age. */
  lemma {:induction false} SortInOrder(file: Spool, s: Spool)
    requires InPlace(file, s)
    ensures InOrder(file, Sort(s))
  {
    hide FirstPlace, Insert, Sorted;
    if s != [] {
      var init, e := s[..|s| - 1], s[|s| - 1];
      SortInOrder(file, init);
      SortMembers(init);
      SortFacts(init);
      var k := InsertAt(Sort(init), e);
      forall x | x in Sort(init) ensures FirstPlace(file, x.id) < FirstPlace(file, e.id) {
        var i :| 0 <= i < |init| && init[i] == x;
        assert s[i] == x;
      }
      InsertInOrder(file, Sort(init), e, k);
    }
  }

  /** Reading gives the last line of every id, each once, oldest first, and entries of the same
      age in the order in which their ids first came. */
  lemma ReadGivesLastLines(file: Spool)
    ensures AllLast(file, ReadPending(file)) && InOrder(file, ReadPending(file))
  {
    hide LastLine, InPlace, InOrder, Sort, ById;
    ByIdLast(file);
    ByIdPlaces(file);
    SortMembers(ById(file));
    SortInOrder(file, ById(file));
  }

  lemma ReadFacts(file: Spool)
    ensures Sorted(ReadPending(file)) && Ids(ReadPending(file)) == Ids(file)
  {
    SortFacts(ById(file));
    ByIdIds(file);
  }

  lemma {:induction false} SortSorted(s: Spool)
    requires Sorted(s)
    ensures Sort(s) == s
  {
    if s != [] {
      var init := s[..|s| - 1];
      SortSorted(init);
      assert s == init + [s[|s| - 1]];
    }
  }

  // ---- the bounds ----

  predicate Fresh(e: Entry, now: int) {
    now - e.createdAt <= MAX_AGE_MS
  }

  function FreshOf(s: Spool, now: int): Spool {
    if s == [] then []
    else FreshOf(s[..|s| - 1], now) + if Fresh(s[|s| - 1], now) then [s[|s| - 1]] else []
  }

  function Newest(s: Spool, n: nat): Spool {
    if |s| <= n then s else s[|s| - n..]
  }

  /** Too old entries are dropped, and beyond the limit the oldest. */
  function Bound(s: Spool, now: int, limit: nat): Spool {
    var young := FreshOf(s, now);
    if |young| > limit then Newest(Sort(young), limit) else young
  }

  /** What an append writes: the bounded spool, in which the new entry is kept in any case. */
  function AppendTo(seen: Spool, own: Entry, now: int): Spool {
    var kept := Bound(seen + [own], now, MAX_ENTRIES);
    if own.id in Ids(kept) then kept else Bound(seen, now, MAX_ENTRIES - 1) + [own]
  }

  // ---- what the bounds should keep ----

  /** Not older than two days. */
  predicate Young(e: Entry, now: int) {
    e.createdAt >= now - 2 * 24 * 60 * 60 * 1000
  }

  function YoungCount(s: Spool, now: int): nat {
    if s == [] then 0 else YoungCount(s[..|s| - 1], now) + if Young(s[|s| - 1], now) then 1 else 0
  }

  /** The bounds find something to drop. */
  predicate Prunes(s: Spool, now: int) {
    |s| > 200 || exists e :: e in s && !Young(e, now)
  }

  /** An entry for `id` is young enough and has fewer than `limit` young ones behind it. */
  predicate Keeps(seen: Spool, id: SignalId, now: int, limit: nat) {
    exists k :: 0 <= k < |seen| && seen[k].id == id && Young(seen[k], now) && YoungCount(seen[k + 1..], now) < limit
  }

  lemma FreshIsYoung(e: Entry, now: int)
    ensures Fresh(e, now) <==> Young(e, now)
  {
  }

  lemma {:induction false} FreshCount(s: Spool, now: int)
    ensures |FreshOf(s, now)| == YoungCount(s, now)
  {
    hide Fresh, Young;
    if s != [] {
      FreshCount(s[..|s| - 1], now);
      FreshIsYoung(s[|s| - 1], now);
    }
  }

  lemma {:induction false} FreshSplit(a: Spool, b: Spool, now: int)
    ensures FreshOf(a + b, now) == FreshOf(a, now) + FreshOf(b, now)
  {
    if b == [] {
      assert a + b == a;
    } else {
      var init, e := b[..|b| - 1], b[|b| - 1];
      FreshSplit(a, init, now);
      assert (a + b)[..|a + b| - 1] == a + init && (a + b)[|a + b| - 1] == e;
    }
  }

  lemma {:induction false} FreshFacts(s: Spool, now: int)
    ensures forall e :: e in FreshOf(s, now) <==> e in s && Fresh(e, now)
  {
    if s != [] {
      var init, e := s[..|s| - 1], s[|s| - 1];
      FreshFacts(init, now);
      assert s == init + [e];
    }
  }

  lemma {:induction false} FreshLength(s: Spool, now: int)
    ensures |FreshOf(s, now)| <= |s|
    ensures FreshOf(s, now) == s <==> |FreshOf(s, now)| == |s|
  {
    if s != [] {
      FreshLength(s[..|s| - 1], now);
      assert s == s[..|s| - 1] + [s[|s| - 1]];
    }
  }

  lemma {:induction false} FreshKeepsAll(s: Spool, now: int)
    requires forall e :: e in s ==> Fresh(e, now)
    ensures FreshOf(s, now) == s
  {
    hide FreshOf;
    if s == [] {
      FreshNone(now);
    } else {
      var init, e := s[..|s| - 1], s[|s| - 1];
      FreshKeepsAll(init, now);
      FreshSplit(init, [e], now);
      FreshOne(e, now);
      assert s == init + [e];
    }
  }

  lemma FreshNone(now: int)
    ensures FreshOf([], now) == []
  {
  }

  lemma AllFresh(s: Spool, now: int)
    ensures FreshOf(s, now) == s <==> forall e :: e in s ==> Fresh(e, now)
  {
    hide FreshOf;
    FreshFacts(s, now);
    if forall e :: e in s ==> Fresh(e, now) {
      FreshKeepsAll(s, now);
    }
  }

  lemma {:induction false} FreshSorted(s: Spool, now: int)
    requires Sorted(s)
    ensures Sorted(FreshOf(s, now))
  {
    if s != [] {
      var init, e := s[..|s| - 1], s[|s| - 1];
      FreshSorted(init, now);
      FreshFacts(init, now);
      if Fresh(e, now) {
        SortedMore(FreshOf(init, now), e);
      }
    }
  }

  /** The bounds drop nothing exactly when nothing is too old and there is not too much. */
  lemma BoundKeepsAll(s: Spool, now: int)
    requires Sorted(s)
    ensures Bound(s, now, MAX_ENTRIES) == s <==> !Prunes(s, now)
    ensures |Bound(s, now, MAX_ENTRIES)| == |s| <==> !Prunes(s, now)
  {
    hide Fresh, Young;
    forall e ensures Fresh(e, now) <==> Young(e, now) {
      FreshIsYoung(e, now);
    }
    AllFresh(s, now);
    FreshLength(s, now);
    FreshSorted(s, now);
    SortSorted(FreshOf(s, now));
  }

  lemma BoundIsNewest(s: Spool, now: int, limit: nat)
    requires Sorted(s)
    ensures Bound(s, now, limit) == Newest(FreshOf(s, now), limit)
  {
    FreshFacts(s, now);
    FreshSorted(s, now);
    SortSorted(FreshOf(s, now));
  }

  lemma KeepsIsKept(s: Spool, now: int, limit: nat, k: nat)
    requires k < |s| && Fresh(s[k], now) && |FreshOf(s[k + 1..], now)| < limit
    ensures s[k] in Newest(FreshOf(s, now), limit)
  {
    hide FreshOf;
    FreshAt(s, now, k);
    NewestHas(FreshOf(s[..k], now), s[k], FreshOf(s[k + 1..], now), limit);
  }

  lemma NewestHas(a: Spool, e: Entry, b: Spool, limit: nat)
    ensures |b| < limit ==> e in Newest(a + [e] + b, limit)
  {
    var s := a + [e] + b;
    if |b| < limit < |s| {
      assert s[|s| - limit..][|a| - (|s| - limit)] == e;
    } else {
      assert s[|a|] == e;
    }
  }

  lemma KeptIsKeeps(s: Spool, now: int, limit: nat, e: Entry) returns (k: nat)
    requires e in Newest(FreshOf(s, now), limit)
    ensures k < |s| && s[k] == e && Fresh(s[k], now) && |FreshOf(s[k + 1..], now)| < limit
  {
    hide FreshOf;
    var young := FreshOf(s, now);
    var kept := Newest(young, limit);
    var i :| 0 <= i < |kept| && kept[i] == e;
    k := FreshFrom(s, now, i + |young| - |kept|);
    FreshAt(s, now, k);
  }

  /** Which entries the bounds keep, told from the spool alone. */
  lemma BoundKeeps(s: Spool, now: int, limit: nat, id: SignalId)
    requires Sorted(s)
    ensures id in Ids(Bound(s, now, limit)) <==> Keeps(s, id, now, limit)
  {
    hide Bound, FreshOf, Newest, Sorted, YoungCount, Young, Fresh;
    BoundIsNewest(s, now, limit);
    if Keeps(s, id, now, limit) {
      var k :| 0 <= k < |s| && s[k].id == id && Young(s[k], now) && YoungCount(s[k + 1..], now) < limit;
      FreshIsYoung(s[k], now);
      FreshCount(s[k + 1..], now);
      KeepsIsKept(s, now, limit, k);
    }
    if id in Ids(Newest(FreshOf(s, now), limit)) {
      var e :| e in Newest(FreshOf(s, now), limit) && e.id == id;
      var k := KeptIsKeeps(s, now, limit, e);
      FreshIsYoung(s[k], now);
      FreshCount(s[k + 1..], now);
    }
  }

  /** A fresh entry stands behind the fresh ones before it. */
  lemma FreshAt(s: Spool, now: int, k: nat)
    requires k < |s| && Fresh(s[k], now)
    ensures FreshOf(s, now) == FreshOf(s[..k], now) + [s[k]] + FreshOf(s[k + 1..], now)
  {
    hide FreshOf;
    FreshSplit(s[..k], [s[k]], now);
    FreshSplit(s[..k] + [s[k]], s[k + 1..], now);
    FreshOne(s[k], now);
    assert s == s[..k] + [s[k]] + s[k + 1..];
  }

  lemma FreshOne(e: Entry, now: int)
    ensures FreshOf([e], now) == if Fresh(e, now) then [e] else []
  {
    assert [e][..0] == [];
  }

  /** Every fresh entry comes from somewhere. */
  lemma {:induction false} FreshFrom(s: Spool, now: int, i: nat) returns (k: nat)
    requires i < |FreshOf(s, now)|
    ensures k < |s| && s[k] == FreshOf(s, now)[i] && Fresh(s[k], now) && |FreshOf(s[..k], now)| == i
  {
    var init := s[..|s| - 1];
    if i < |FreshOf(init, now)| {
      k := FreshFrom(init, now, i);
      assert s[..k] == init[..k];
    } else {
      k := |s| - 1;
    }
  }

  // ---- appending ----

  /** An entry inserted among the newest `n` pushes the oldest of them out. */
  lemma NewestWith(s: Spool, e: Entry, k: nat, n: nat)
    requires k <= |s| && 0 < n <= |s| && k + n > |s|
    ensures Ids(Newest(s[..k] + [e] + s[k..], n)) == Ids(Newest(s, n - 1)) + {e.id}
  {
    hide Ids;
    var t, d := s[..k] + [e] + s[k..], |s| + 1 - n;
    var u := s[d..];
    assert Newest(s, n - 1) == u;
    assert t[d..] == u[..k - d] + [e] + u[k - d..];
    InsertIds(u, e, k - d);
  }

  /** An entry inserted before them is itself dropped. */
  lemma NewestWithout(s: Spool, e: Entry, k: nat, n: nat)
    requires k + n <= |s|
    ensures Newest(s[..k] + [e] + s[k..], n) == Newest(s, n)
  {
  }

  lemma SortAppended(s: Spool, e: Entry)
    requires Sorted(s)
    ensures Sort(s + [e]) == Insert(s, e)
  {
    SortSorted(s);
    assert (s + [e])[..|s|] == s;
  }

  /** Bounding with a young new entry: it is kept with the newest 199 others, or it is among
      the dropped ones. */
  lemma BoundAppended(seen: Spool, own: Entry, now: int)
    requires Sorted(seen) && own.id !in Ids(seen) && Fresh(own, now)
    ensures var kept := Ids(Bound(seen + [own], now, MAX_ENTRIES));
            own.id in kept ==> kept == Ids(Newest(FreshOf(seen, now), MAX_ENTRIES - 1)) + {own.id}
  {
    hide Insert, Sort, Sorted, FreshOf, Newest, Ids;
    var young := FreshOf(seen, now);
    FreshSorted(seen, now);
    FreshSplit(seen, [own], now);
    FreshOne(own, now);
    if |young| + 1 <= MAX_ENTRIES {
      IdsSplit(young, [own]);
      OneId(own);
      NewestOfFew(young, MAX_ENTRIES - 1);
    } else {
      SortAppended(young, own);
      YoungIsNew(seen, own, now);
      NewestInserted(young, own);
    }
  }

  lemma OneId(e: Entry)
    ensures Ids([e]) == {e.id}
  {
  }

  lemma NewestOfFew(s: Spool, n: nat)
    requires |s| <= n
    ensures Newest(s, n) == s
  {
  }

  lemma YoungIsNew(seen: Spool, own: Entry, now: int)
    requires own.id !in Ids(seen)
    ensures own.id !in Ids(FreshOf(seen, now))
  {
    FreshFacts(seen, now);
  }

  lemma NewestInserted(young: Spool, own: Entry)
    requires Sorted(young) && |young| >= MAX_ENTRIES && own.id !in Ids(young)
    ensures var kept := Ids(Newest(Insert(young, own), MAX_ENTRIES));
            own.id in kept ==> kept == Ids(Newest(young, MAX_ENTRIES - 1)) + {own.id}
  {
    hide Insert, Sorted;
    var k := InsertAt(young, own);
    if k + MAX_ENTRIES > |young| {
      NewestWith(young, own, k, MAX_ENTRIES);
    } else {
      NewestWithout(young, own, k, MAX_ENTRIES);
    }
  }

  lemma BoundEntries(s: Spool, now: int, limit: nat)
    ensures forall e :: e in Bound(s, now, limit) ==> e in s
  {
    FreshFacts(s, now);
    SortMembers(FreshOf(s, now));
  }

  /** Whichever way it takes, an append keeps its own entry and the newest of the other
      young ones. */
  lemma AppendIds(seen: Spool, own: Entry, now: int)
    requires Sorted(seen) && own.id !in Ids(seen)
    ensures Ids(AppendTo(seen, own, now)) == Ids(Newest(FreshOf(seen, now), 199)) + {own.id}
    ensures forall e :: e in AppendTo(seen, own, now) ==> e == own || e in seen
  {
    hide Bound, FreshOf, Newest, Sorted;
    BoundIsNewest(seen, now, MAX_ENTRIES - 1);
    IdsSplit(Bound(seen, now, MAX_ENTRIES - 1), [own]);
    BoundEntries(seen, now, MAX_ENTRIES - 1);
    BoundEntries(seen + [own], now, MAX_ENTRIES);
    if Fresh(own, now) {
      BoundAppended(seen, own, now);
    } else {
      StaleIsDropped(seen + [own], now, MAX_ENTRIES, own);
    }
  }
  /** A stale entry that is the only one for its id does not survive the bounds. */
  lemma StaleIsDropped(s: Spool, now: int, limit: nat, e: Entry)
    requires !Fresh(e, now) && forall x :: x in s && x.id == e.id ==> x == e
    ensures e.id !in Ids(Bound(s, now, limit))
  {
    var young := FreshOf(s, now);
    FreshFacts(s, now);
    SortFacts(young);
    assert e.id !in Ids(young);
  }

  /** An append keeps another signal exactly when it is young enough and fewer than
      199 young ones stand behind it. */
  lemma AppendKeeps(seen: Spool, own: Entry, now: int, id: SignalId)
    requires Sorted(seen) && own.id !in Ids(seen) && id != own.id
    ensures id in Ids(AppendTo(seen, own, now)) <==> Keeps(seen, id, now, 199)
  {
    AppendIds(seen, own, now);
    BoundIsNewest(seen, now, MAX_ENTRIES - 1);
    BoundKeeps(seen, now, MAX_ENTRIES - 1, id);
  }
}
