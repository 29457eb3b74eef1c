/** Reading and writing inside the details object, and its size seen from outside the
    collections that may be shortened. */
module StatusPaths {
  import opened Wrappers
  import opened StatusJson

  type Path = p: seq<string> | |p| > 0 witness ["agents"]

  /** There is an object for the last key of the path to be set in. */
  predicate CanSet(v: Json, path: Path)
    decreases |path|
  {
    v.Obj? && (|path| == 1 || (Find(v.fields, path[0]).Some? && CanSet(Find(v.fields, path[0]).value, path[1..])))
  }

  function GetPath(v: Json, path: Path): (r: Option<Json>)
    ensures r.Some? ==> CanSet(v, path)
    decreases |path|
  {
    if !v.Obj? then None
    else
      match Find(v.fields, path[0])
      case None => None
      case Some(w) => if |path| == 1 then Some(w) else GetPath(w, path[1..])
  }

  function SetPath(v: Json, path: Path, x: Json): (r: Json)
    requires CanSet(v, path)
    ensures r.Obj?
    decreases |path|
  {
    if |path| == 1 then Obj(Put(v.fields, path[0], x))
    else Obj(Put(v.fields, path[0], SetPath(Find(v.fields, path[0]).value, path[1..], x)))
  }

  lemma {:induction false} GetSet(v: Json, path: Path, x: Json)
    requires CanSet(v, path)
    ensures GetPath(SetPath(v, path, x), path) == Some(x)
    decreases |path|
  {
    if |path| == 1 {
      FindPut(v.fields, path[0], x, path[0]);
    } else {
      var w := Find(v.fields, path[0]).value;
      GetSet(w, path[1..], x);
      FindPut(v.fields, path[0], SetPath(w, path[1..], x), path[0]);
    }
  }

  lemma {:induction false} SetSet(v: Json, path: Path, x: Json, y: Json)
    requires CanSet(v, path)
    ensures CanSet(SetPath(v, path, x), path)
    ensures SetPath(SetPath(v, path, x), path, y) == SetPath(v, path, y)
    decreases |path|
  {
    GetSet(v, path, x);
    if |path| == 1 {
      PutPut(v.fields, path[0], x, y);
    } else {
      var w := Find(v.fields, path[0]).value;
      SetSet(w, path[1..], x, y);
      FindPut(v.fields, path[0], SetPath(w, path[1..], x), path[0]);
      PutPut(v.fields, path[0], SetPath(w, path[1..], x), SetPath(w, path[1..], y));
    }
  }

  /** What a write through `path` puts under the first key. */
  function Inner(v: Json, path: Path, x: Json): Json
    requires CanSet(v, path)
  {
    if |path| == 1 then x else SetPath(Find(v.fields, path[0]).value, path[1..], x)
  }

  lemma SetIsPut(v: Json, path: Path, x: Json)
    requires CanSet(v, path)
    ensures SetPath(v, path, x) == Obj(Put(v.fields, path[0], Inner(v, path, x)))
  {
  }

  lemma FirstKeyKept(v: Json, w: Json, path: Path)
    requires v.Obj? && w.Obj? && Find(v.fields, path[0]) == Find(w.fields, path[0])
    ensures GetPath(v, path) == GetPath(w, path) && CanSet(v, path) == CanSet(w, path)
    ensures CanSet(v, path) ==> forall x :: Inner(v, path, x) == Inner(w, path, x)
  {
  }

  /** Neither path leads through the other. */
  predicate Apart(p: Path, q: Path)
    decreases |p|
  {
    p[0] != q[0] || (|p| > 1 && |q| > 1 && Apart(p[1..], q[1..]))
  }

  lemma {:induction false} GetSetOther(v: Json, path: Path, x: Json, other: Path)
    requires CanSet(v, path) && Apart(path, other)
    ensures GetPath(SetPath(v, path, x), other) == GetPath(v, other)
    ensures CanSet(SetPath(v, path, x), other) == CanSet(v, other)
    decreases |path|
  {
    SetIsPut(v, path, x);
    FindPut(v.fields, path[0], Inner(v, path, x), other[0]);
    if path[0] != other[0] {
      FirstKeyKept(v, SetPath(v, path, x), other);
    } else {
      GetSetOther(Find(v.fields, path[0]).value, path[1..], x, other[1..]);
    }
  }

  lemma SetApart(v: Json, p: Path, x: Json, q: Path, y: Json)
    requires CanSet(v, p) && CanSet(v, q) && p[0] != q[0]
    ensures CanSet(SetPath(v, p, x), q)
    ensures SetPath(SetPath(v, p, x), q, y) == Obj(Put(Put(v.fields, p[0], Inner(v, p, x)), q[0], Inner(v, q, y)))
  {
    GetSetOther(v, p, x, q);
    FindPut(v.fields, p[0], Inner(v, p, x), q[0]);
    FirstKeyKept(v, SetPath(v, p, x), q);
    SetIsPut(SetPath(v, p, x), q, y);
  }

  /** The paths end in the same object. */
  predicate Siblings(p: Path, q: Path)
    decreases |p|
  {
    if |p| == 1 || |q| == 1 then |p| == |q| else p[0] == q[0] && Siblings(p[1..], q[1..])
  }

  /** Writes to two paths of which neither leads through the other are independent, unless
      both add a property to the same object (then their order is the order of the properties). */
  lemma {:induction false} SetCommutes(v: Json, p: Path, x: Json, q: Path, y: Json)
    requires CanSet(v, p) && CanSet(v, q) && Apart(p, q)
    ensures CanSet(SetPath(v, p, x), q) && CanSet(SetPath(v, q, y), p)
    ensures GetPath(v, p).Some? || GetPath(v, q).Some? || !Siblings(p, q) ==>
              SetPath(SetPath(v, p, x), q, y) == SetPath(SetPath(v, q, y), p, x)
    decreases |p|
  {
    hide SetPath, Put, Inner, Unique;
    if p[0] != q[0] {
      SetApart(v, p, x, q, y);
      SetApart(v, q, y, p, x);
      if GetPath(v, p).Some? || GetPath(v, q).Some? || !Siblings(p, q) {
        assert Find(v.fields, p[0]).Some? || Find(v.fields, q[0]).Some?;
        PutCommutes(v.fields, p[0], Inner(v, p, x), q[0], Inner(v, q, y));
      }
    } else {
      SetCommutes(Find(v.fields, p[0]).value, p[1..], x, q[1..], y);
      SetInside(v, p, x, q, y);
      SetInside(v, q, y, p, x);
    }
  }

  /** Two writes under the same first key are one write under it. */
  lemma SetInside(v: Json, p: Path, x: Json, q: Path, y: Json)
    requires CanSet(v, p) && |p| > 1 && |q| > 1 && p[0] == q[0]
    requires CanSet(SetPath(Find(v.fields, p[0]).value, p[1..], x), q[1..])
    ensures CanSet(SetPath(v, p, x), q)
    ensures SetPath(SetPath(v, p, x), q, y) ==
            Obj(Put(v.fields, p[0], SetPath(SetPath(Find(v.fields, p[0]).value, p[1..], x), q[1..], y)))
  {
    var w := Find(v.fields, p[0]).value;
    var w1 := SetPath(w, p[1..], x);
    FindPut(v.fields, p[0], w1, p[0]);
    PutPut(v.fields, p[0], w1, SetPath(w1, q[1..], y));
  }

  lemma {:induction false} SetSize(v: Json, path: Path, x: Json)
    requires GetPath(v, path).Some?
    ensures Size(SetPath(v, path, x)) + Size(GetPath(v, path).value) == Size(v) + Size(x)
    decreases |path|
  {
    if |path| > 1 {
      SetSize(Find(v.fields, path[0]).value, path[1..], x);
    }
    PutSize(v.fields, path[0], Inner(v, path, x));
  }

  lemma SetUnique(v: Json, path: Path, x: Json)
    requires CanSet(v, path) && Unique(v.fields)
    ensures Unique(SetPath(v, path, x).fields)
  {
    PutUnique(v.fields, path[0], Inner(v, path, x));
  }

  // ---- a top-level property beside the path ----

  function WithField(v: Json, key: string, x: Option<Json>): (r: Json)
    requires v.Obj?
    ensures r.Obj?
  {
    match x
    case None => Obj(Drop(v.fields, key))
    case Some(y) => Obj(Put(v.fields, key, y))
  }

  lemma FindWithField(v: Json, key: string, x: Option<Json>, other: string)
    requires v.Obj?
    ensures Find(WithField(v, key, x).fields, other) == if other == key then x else Find(v.fields, other)
  {
    FindDrop(v.fields, key, other);
    if x.Some? {
      FindPut(v.fields, key, x.value, other);
    }
  }

  lemma GetWithField(v: Json, key: string, x: Option<Json>, path: Path)
    requires v.Obj? && path[0] != key
    ensures GetPath(WithField(v, key, x), path) == GetPath(v, path)
  {
    FindWithField(v, key, x, path[0]);
    FirstKeyKept(v, WithField(v, key, x), path);
  }

  lemma WithFieldUnique(v: Json, key: string, x: Option<Json>)
    requires v.Obj? && Unique(v.fields)
    ensures Unique(WithField(v, key, x).fields)
  {
    DropUnique(v.fields, key);
    if x.Some? {
      PutUnique(v.fields, key, x.value);
    }
  }

  lemma DropAfterSet(v: Json, path: Path, x: Json, key: string)
    requires CanSet(v, path) && path[0] != key
    ensures CanSet(WithField(v, key, None), path)
    ensures WithField(SetPath(v, path, x), key, None) == SetPath(WithField(v, key, None), path, x)
  {
    GetWithField(v, key, None, path);
    FindDrop(v.fields, key, path[0]);
    FirstKeyKept(v, WithField(v, key, None), path);
    DropPutOther(v.fields, key, path[0], Inner(v, path, x));
  }

  lemma DropAfterWith(v: Json, key: string, x: Option<Json>)
    requires v.Obj?
    ensures WithField(WithField(v, key, x), key, None) == WithField(v, key, None)
  {
    DropDrop(v.fields, key);
    if x.Some? {
      DropPut(v.fields, key, x.value);
    }
  }

  // ---- the details without what may change ----

  const TRUNCATION := "truncation"
  const AGENTS: Path := ["agents"]
  const FINDINGS: Path := ["summary", "findings"]

  /** The array at `path`, replaced by the empty one. */
  function Emptied(v: Json, path: Path): Json {
    match GetPath(v, path)
    case Some(Arr(_)) => SetPath(v, path, Arr([]))
    case _ => v
  }

  /** The details with both collections emptied and without truncation metadata. */
  function Strip(v: Json): Json
    requires v.Obj?
  {
    WithField(Emptied(Emptied(v, AGENTS), FINDINGS), TRUNCATION, None)
  }

  /** Bytes the array at `path` takes beyond an empty array. */
  function Extra(v: Json, path: Path): nat {
    match GetPath(v, path)
    case Some(Arr(xs)) => if xs == [] then 0 else ItemsSize(xs) - 1
    case _ => 0
  }

  lemma EmptiedSize(v: Json, path: Path)
    requires v.Obj?
    ensures Emptied(v, path).Obj? && Size(v) == Size(Emptied(v, path)) + Extra(v, path)
  {
    if GetPath(v, path).Some? && GetPath(v, path).value.Arr? {
      SetSize(v, path, Arr([]));
    }
  }

  lemma EmptiedOther(v: Json, path: Path, other: Path)
    requires v.Obj? && path[0] != other[0]
    ensures Emptied(v, path).Obj? && GetPath(Emptied(v, path), other) == GetPath(v, other)
  {
    if GetPath(v, path).Some? && GetPath(v, path).value.Arr? {
      GetSetOther(v, path, Arr([]), other);
    }
  }

  lemma EmptiedUnique(v: Json, path: Path)
    requires v.Obj? && Unique(v.fields)
    ensures Emptied(v, path).Obj? && Unique(Emptied(v, path).fields)
  {
    if GetPath(v, path).Some? && GetPath(v, path).value.Arr? {
      SetUnique(v, path, Arr([]));
    }
  }

  lemma EmptiedFind(v: Json, path: Path, key: string)
    requires v.Obj? && key != path[0]
    ensures Emptied(v, path).Obj? && Find(Emptied(v, path).fields, key) == Find(v.fields, key)
  {
    if GetPath(v, path).Some? && GetPath(v, path).value.Arr? {
      SetIsPut(v, path, Arr([]));
      FindPut(v.fields, path[0], Inner(v, path, Arr([])), key);
    }
  }

  function MetaSize(x: Option<Json>): nat {
    match x
    case None => 0
    case Some(y) => FieldSize(Field(TRUNCATION, y)) + 1
  }

  /** The size of the details is that of the stripped details, what the two collections
      hold, and the metadata. */
  lemma StripSize(v: Json)
    requires v.Obj? && Unique(v.fields) && Strip(v).fields != []
    ensures Size(v) == Size(Strip(v)) + Extra(v, AGENTS) + Extra(v, FINDINGS) + MetaSize(Find(v.fields, TRUNCATION))
  {
    hide Size, FieldsSize, ItemsSize;
    EmptiedSize(v, AGENTS);
    EmptiedUnique(v, AGENTS);
    EmptiedFind(v, AGENTS, TRUNCATION);
    EmptiedOther(v, AGENTS, FINDINGS);
    var w := Emptied(v, AGENTS);
    EmptiedSize(w, FINDINGS);
    EmptiedUnique(w, FINDINGS);
    EmptiedFind(w, FINDINGS, TRUNCATION);
    var u := Emptied(w, FINDINGS);
    DropFieldSize(u, TRUNCATION);
  }

  lemma DropFieldSize(v: Json, key: string)
    requires v.Obj? && Unique(v.fields) && WithField(v, key, None).fields != []
    ensures Size(v) == Size(WithField(v, key, None)) +
              match Find(v.fields, key) case None => 0 case Some(y) => FieldSize(Field(key, y)) + 1
  {
    if Find(v.fields, key).Some? {
      DropSize(v.fields, key);
    } else {
      DropAbsent(v.fields, key);
    }
  }

  /** Writing an array to one of the two collections does not show in the stripped details. */
  lemma StripSet(v: Json, path: Path, xs: seq<Json>)
    requires v.Obj? && (path == AGENTS || path == FINDINGS)
    requires GetPath(v, path).Some? && GetPath(v, path).value.Arr?
    ensures Strip(SetPath(v, path, Arr(xs))) == Strip(v)
  {
    var t := SetPath(v, path, Arr(xs));
    GetSet(v, path, Arr(xs));
    SetSet(v, path, Arr(xs), Arr([]));
    if path == AGENTS {
      assert Emptied(t, AGENTS) == Emptied(v, AGENTS);
    } else {
      GetSetOther(v, FINDINGS, Arr(xs), AGENTS);
      EmptiedOther(v, AGENTS, FINDINGS);
      var w := Emptied(v, AGENTS);
      if GetPath(v, AGENTS).Some? && GetPath(v, AGENTS).value.Arr? {
        SetCommutes(v, FINDINGS, Arr(xs), AGENTS, Arr([]));
      }
      assert Emptied(t, AGENTS) == SetPath(w, FINDINGS, Arr(xs));
      GetSet(w, FINDINGS, Arr(xs));
      SetSet(w, FINDINGS, Arr(xs), Arr([]));
    }
  }

  lemma DropAfterEmptied(v: Json, path: Path)
    requires v.Obj? && path[0] != TRUNCATION
    ensures Emptied(v, path).Obj?
    ensures WithField(Emptied(v, path), TRUNCATION, None) == Emptied(WithField(v, TRUNCATION, None), path)
  {
    GetWithField(v, TRUNCATION, None, path);
    if GetPath(v, path).Some? && GetPath(v, path).value.Arr? {
      DropAfterSet(v, path, Arr([]), TRUNCATION);
    }
  }

  lemma StripDropsFirst(v: Json)
    requires v.Obj?
    ensures Strip(v) == Emptied(Emptied(WithField(v, TRUNCATION, None), AGENTS), FINDINGS)
  {
    DropAfterEmptied(v, AGENTS);
    DropAfterEmptied(Emptied(v, AGENTS), FINDINGS);
  }

  /** Neither does writing or removing the truncation metadata. */
  lemma StripMeta(v: Json, x: Option<Json>)
    requires v.Obj?
    ensures Strip(WithField(v, TRUNCATION, x)) == Strip(v)
  {
    StripDropsFirst(v);
    StripDropsFirst(WithField(v, TRUNCATION, x));
    DropAfterWith(v, TRUNCATION, x);
  }

  lemma EmptiedReads(v: Json, path: Path, other: Path)
    requires v.Obj? && Apart(path, other)
    ensures Emptied(v, path).Obj? && GetPath(Emptied(v, path), other) == GetPath(v, other)
  {
    if GetPath(v, path).Some? && GetPath(v, path).value.Arr? {
      GetSetOther(v, path, Arr([]), other);
    }
  }

  /** The stripped details read like the details everywhere but in the two collections and
      the metadata. */
  lemma StripReads(v: Json, other: Path)
    requires v.Obj? && Apart(AGENTS, other) && Apart(FINDINGS, other) && other[0] != TRUNCATION
    ensures GetPath(Strip(v), other) == GetPath(v, other)
  {
    EmptiedReads(v, AGENTS, other);
    var w := Emptied(v, AGENTS);
    EmptiedReads(w, FINDINGS, other);
    GetWithField(Emptied(w, FINDINGS), TRUNCATION, None, other);
  }
}
