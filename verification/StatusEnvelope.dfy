/** The byte-bounded JSON envelope of `kookr status --json`. */
module StatusEnvelope {
  import opened Wrappers
  import opened StatusJson
  import opened StatusPaths
  import Utf8

  // ---- strings ----

  /** Every string value cut to `cap` bytes; keys and structure stay. */
  function BoundStrings(v: Json, cap: int): Json
    decreases v, 1
  {
    match v
    case Str(s) => Str(Utf8.Truncate(s, cap))
    case Arr(items) => Arr(BoundItems(items, cap))
    case Obj(fields) => Obj(BoundFields(fields, cap))
    case _ => v
  }

  function BoundItems(items: seq<Json>, cap: int): seq<Json>
    decreases items, 0
  {
    if items == [] then [] else [BoundStrings(items[0], cap)] + BoundItems(items[1..], cap)
  }

  function BoundFields(fields: seq<Field>, cap: int): seq<Field>
    decreases fields, 0
  {
    if fields == [] then []
    else [Field(fields[0].key, BoundStrings(fields[0].value, cap))] + BoundFields(fields[1..], cap)
  }

  // ---- collections ----

  datatype Collection = Agents | Findings

  function PathOf(c: Collection): Path {
    match c case Agents => AGENTS case Findings => FINDINGS
  }

  function NameOf(c: Collection): string {
    match c case Agents => "agents" case Findings => "findings"
  }

  function Other(c: Collection): Collection {
    match c case Agents => Findings case Findings => Agents
  }

  /** The items of a collection, none if it is missing or not an array. */
  function ItemsAt(details: Json, c: Collection): seq<Json> {
    match GetPath(details, PathOf(c))
    case Some(Arr(items)) => items
    case _ => []
  }

  /** How many items of each collection are kept. */
  datatype Counts = Counts(agents: nat, findings: nat)

  function Of(n: Counts, c: Collection): nat {
    match c case Agents => n.agents case Findings => n.findings
  }

  function With(n: Counts, c: Collection, k: nat): Counts {
    match c case Agents => n.(agents := k) case Findings => n.(findings := k)
  }

  /** The metadata of a shortened collection. */
  function Entry(original: nat, returned: nat): Json {
    Obj([Field("truncated", Bool(true)),
         Field("originalCount", Num(Digits(original))),
         Field("returnedCount", Num(Digits(returned)))])
  }

  /** All items of a collection, before any shortening of the details `o`. */
  function All(o: Json, c: Collection): seq<Json> {
    ItemsAt(o, c)
  }

  predicate Shortened(o: Json, n: Counts, c: Collection) {
    Of(n, c) < |All(o, c)|
  }

  function EntryField(o: Json, n: Counts, c: Collection): Field {
    Field(NameOf(c), Entry(|All(o, c)|, Of(n, c)))
  }

  /** The metadata lists exactly the shortened collections, with their counts. */
  ghost predicate Lists(truncation: seq<Field>, o: Json, n: Counts) {
    var a, f := EntryField(o, n, Agents), EntryField(o, n, Findings);
    if Shortened(o, n, Agents) then
      if Shortened(o, n, Findings) then truncation == [a, f] || truncation == [f, a] else truncation == [a]
    else
      if Shortened(o, n, Findings) then truncation == [f] else truncation == []
  }

  function Meta(truncation: seq<Field>): Option<Json> {
    if truncation == [] then None else Some(Obj(truncation))
  }

  /** Collection `c` holds the first `Of(n, c)` of its original items. */
  ghost predicate Holds(details: Json, o: Json, n: Counts, c: Collection) {
    && Of(n, c) <= |All(o, c)|
    && (All(o, c) != [] ==> GetPath(details, PathOf(c)) == Some(Arr(All(o, c)[..Of(n, c)])))
    && (All(o, c) == [] ==> GetPath(details, PathOf(c)) == GetPath(o, PathOf(c)))
  }

  /** Nothing but the collections and the metadata differs from the original. */
  ghost predicate Intact(details: Json, o: Json) {
    && details.Obj? && Unique(details.fields)
    && o.Obj? && Unique(o.fields) && Strip(details) == Strip(o)
  }

  /** `details` with its metadata is the original shortened to the counts `n`. */
  ghost predicate Shows(details: Json, truncation: seq<Field>, o: Json, n: Counts) {
    && Intact(details, o)
    && Holds(details, o, n, Agents) && Holds(details, o, n, Findings)
    && Lists(truncation, o, n)
    && Find(details.fields, TRUNCATION) == Meta(truncation)
  }

  /** Like `Shows`, with collection `c` and its metadata in any state. */
  ghost predicate ShowsExcept(details: Json, truncation: seq<Field>, o: Json, n: Counts, c: Collection) {
    && Intact(details, o) && All(o, c) != []
    && GetPath(details, PathOf(c)).Some? && GetPath(details, PathOf(c)).value.Arr?
    && Holds(details, o, n, Other(c))
    && ListsExcept(truncation, o, n, c)
  }

  ghost predicate ListsExcept(truncation: seq<Field>, o: Json, n: Counts, c: Collection) {
    var d := EntryField(o, n, Other(c));
    var rest := if Shortened(o, n, Other(c)) then [d] else [];
    || truncation == rest
    || (|truncation| > 0 && truncation[0].key == NameOf(c) && truncation[1..] == rest)
    || (|truncation| > 0 && truncation[|truncation| - 1].key == NameOf(c) && truncation[..|truncation| - 1] == rest)
  }

  // ---- the effect of one probe ----

  function ApplyMeta(truncation: seq<Field>, c: Collection, original: nat, kept: nat): seq<Field> {
    if kept < original then Put(truncation, NameOf(c), Entry(original, kept)) else Drop(truncation, NameOf(c))
  }

  function ApplyDetails(details: Json, truncation: seq<Field>, c: Collection, sliced: seq<Json>): Json
    requires GetPath(details, PathOf(c)).Some?
  {
    WithField(SetPath(details, PathOf(c), Arr(sliced)), TRUNCATION, Meta(truncation))
  }

  lemma ApplyLists(truncation: seq<Field>, o: Json, n: Counts, c: Collection, k: nat)
    requires ListsExcept(truncation, o, n, c) && k <= |All(o, c)|
    ensures Lists(ApplyMeta(truncation, c, |All(o, c)|, k), o, With(n, c, k))
  {
    hide Entry, All;
    var d, mine := EntryField(o, n, Other(c)), Entry(|All(o, c)|, k);
    var rest := if Shortened(o, n, Other(c)) then [d] else [];
    assert EntryField(o, With(n, c, k), Other(c)) == d;
    assert EntryField(o, With(n, c, k), c) == Field(NameOf(c), mine);
    PutOfTwo(rest, truncation, NameOf(c), mine);
  }

  lemma PutOfTwo(rest: seq<Field>, t: seq<Field>, name: string, v: Json)
    requires |rest| <= 1 && (|rest| == 1 ==> rest[0].key != name)
    requires t == rest || (|t| > 0 && t[0].key == name && t[1..] == rest) ||
             (|t| > 0 && t[|t| - 1].key == name && t[..|t| - 1] == rest)
    ensures Put(t, name, v) == [Field(name, v)] + rest || Put(t, name, v) == rest + [Field(name, v)]
    ensures Drop(t, name) == rest
  {
    assert Drop([], name) == [] && Put([], name, v) == [Field(name, v)];
    if |t| == 2 {
      assert Drop(t[1..], name) == if t[1].key == name then [] else [t[1]];
      assert t == [t[0], t[1]] && t[1..] == [t[1]] && t[..1] == [t[0]] && [t[1]][1..] == [];
    } else if |t| == 1 {
      assert t == [t[0]] && t[1..] == [] && t[..0] == [];
    }
  }

  lemma ApplyShows(details: Json, truncation: seq<Field>, o: Json, n: Counts, c: Collection, k: nat)
    requires ShowsExcept(details, truncation, o, n, c) && k <= |All(o, c)|
    ensures var t := ApplyMeta(truncation, c, |All(o, c)|, k);
            Shows(ApplyDetails(details, t, c, All(o, c)[..k]), t, o, With(n, c, k))
  {
    hide Entry, ItemsAt, Strip, Lists, ListsExcept, ApplyMeta, SetPath, WithField, Unique;
    var t := ApplyMeta(truncation, c, |All(o, c)|, k);
    var items := All(o, c)[..k];
    ApplyLists(truncation, o, n, c, k);
    var d1 := SetPath(details, PathOf(c), Arr(items));
    GetSet(details, PathOf(c), Arr(items));
    GetSetOther(details, PathOf(c), Arr(items), PathOf(Other(c)));
    StripSet(details, PathOf(c), items);
    SetUnique(details, PathOf(c), Arr(items));
    var d2 := WithField(d1, TRUNCATION, Meta(t));
    GetWithField(d1, TRUNCATION, Meta(t), AGENTS);
    GetWithField(d1, TRUNCATION, Meta(t), FINDINGS);
    StripMeta(d1, Meta(t));
    WithFieldUnique(d1, TRUNCATION, Meta(t));
    FindWithField(d1, TRUNCATION, Meta(t), TRUNCATION);
  }

  lemma ShowsIsExcept(details: Json, truncation: seq<Field>, o: Json, n: Counts, c: Collection)
    requires Shows(details, truncation, o, n) && All(o, c) != []
    ensures ShowsExcept(details, truncation, o, n, c)
  {
    hide Entry, ItemsAt, Strip;
    match c {
      case Agents =>
      case Findings =>
    }
  }

  // ---- sizes ----

  function ExtraOf(items: seq<Json>): nat {
    if items == [] then 0 else ItemsSize(items) - 1
  }

  function EntrySize(o: Json, n: Counts, c: Collection): nat {
    if Shortened(o, n, c) then FieldSize(EntryField(o, n, c)) + 1 else 0
  }

  /** Bytes the metadata adds to the details. */
  function MetaTotal(o: Json, n: Counts): nat {
    if Shortened(o, n, Agents) || Shortened(o, n, Findings) then
      QuotedSize(TRUNCATION) + 3 + EntrySize(o, n, Agents) + EntrySize(o, n, Findings)
    else 0
  }

  /** The size of the details shortened to `n`. */
  function DetailsSize(o: Json, n: Counts): nat
    requires o.Obj? && n.agents <= |All(o, Agents)| && n.findings <= |All(o, Findings)|
  {
    Size(Strip(o)) + ExtraOf(All(o, Agents)[..n.agents]) + ExtraOf(All(o, Findings)[..n.findings]) + MetaTotal(o, n)
  }

  lemma ListsSize(truncation: seq<Field>, o: Json, n: Counts)
    requires Lists(truncation, o, n)
    ensures MetaSize(Meta(truncation)) == MetaTotal(o, n)
  {
    hide Entry, QuotedSize, Size;
    var a, f := EntryField(o, n, Agents), EntryField(o, n, Findings);
    TwoFieldsSize(a, f);
    TwoFieldsSize(f, a);
    ObjSize(truncation);
  }

  lemma ObjSize(fields: seq<Field>)
    ensures fields != [] ==> Size(Obj(fields)) == 1 + FieldsSize(fields)
  {
  }

  lemma TwoFieldsSize(a: Field, b: Field)
    ensures FieldsSize([a]) == FieldSize(a) + 1
    ensures FieldsSize([a, b]) == FieldSize(a) + FieldSize(b) + 2
  {
    hide Size, QuotedSize;
    assert [a][1..] == [] && [a, b][1..] == [b] && [b][1..] == [];
  }

  lemma StripNotEmpty(o: Json, c: Collection)
    requires o.Obj? && All(o, c) != []
    ensures Strip(o).fields != []
  {
    var d := o;
    var key := PathOf(c)[0];
    var e := Emptied(d, AGENTS);
    StaysFound(d, AGENTS, key);
    StaysFound(e, FINDINGS, key);
    FindDrop(Emptied(e, FINDINGS).fields, TRUNCATION, key);
  }

  lemma StaysFound(v: Json, path: Path, key: string)
    requires v.Obj? && Find(v.fields, key).Some?
    ensures Emptied(v, path).Obj? && Find(Emptied(v, path).fields, key).Some?
  {
    if GetPath(v, path).Some? && GetPath(v, path).value.Arr? {
      SetIsPut(v, path, Arr([]));
      FindPut(v.fields, path[0], Inner(v, path, Arr([])), key);
    }
  }

  lemma ShowsSize(details: Json, truncation: seq<Field>, o: Json, n: Counts, c: Collection)
    requires Shows(details, truncation, o, n) && All(o, c) != []
    ensures Size(details) == DetailsSize(o, n)
  {
    hide Size, Entry, Strip, MetaTotal, MetaSize, Lists, Unique, ItemsSize;
    StripNotEmpty(o, c);
    StripSize(details);
    ListsSize(truncation, o, n);
    HeldExtra(details, o, n, Agents);
    HeldExtra(details, o, n, Findings);
  }

  lemma HeldExtra(details: Json, o: Json, n: Counts, c: Collection)
    requires Holds(details, o, n, c)
    ensures Extra(details, PathOf(c)) == ExtraOf(All(o, c)[..Of(n, c)])
  {
    hide ItemsSize;
  }

  /** Among shortened documents, keeping more items never makes the document smaller. */
  lemma SizeGrows(o: Json, n: Counts, c: Collection, k: nat, m: nat)
    requires o.Obj? && n.agents <= |All(o, Agents)| && n.findings <= |All(o, Findings)|
    requires k <= m < |All(o, c)|
    ensures DetailsSize(o, With(n, c, k)) <= DetailsSize(o, With(n, c, m))
  {
    hide Size, Strip, ItemsSize, ItemsAt, QuotedSize;
    ExtraGrows(All(o, c), k, m);
    EntryGrows(o, n, c, k, m);
  }

  lemma ExtraGrows(items: seq<Json>, k: nat, m: nat)
    requires k <= m <= |items|
    ensures ExtraOf(items[..k]) <= ExtraOf(items[..m])
  {
    ItemsSizeGrows(items, k, m);
  }

  lemma EntryGrows(o: Json, n: Counts, c: Collection, k: nat, m: nat)
    requires k <= m < |All(o, c)|
    ensures EntrySize(o, With(n, c, k), c) <= EntrySize(o, With(n, c, m), c)
    ensures EntrySize(o, With(n, c, k), Other(c)) == EntrySize(o, With(n, c, m), Other(c))
  {
    hide ItemsAt, All;
    EntryValueGrows(|All(o, c)|, k, m);
  }

  lemma EntryValueGrows(original: nat, k: nat, m: nat)
    requires k <= m
    ensures Size(Entry(original, k)) <= Size(Entry(original, m))
  {
    DigitsGrow(k, m);
    var flag, count := Field("truncated", Bool(true)), Field("originalCount", Num(Digits(original)));
    ThreeFieldsSize(flag, count, Field("returnedCount", Num(Digits(k))));
    ThreeFieldsSize(flag, count, Field("returnedCount", Num(Digits(m))));
  }

  lemma ThreeFieldsSize(a: Field, b: Field, c: Field)
    ensures FieldsSize([a, b, c]) == FieldSize(a) + FieldSize(b) + FieldSize(c) + 3
  {
    hide Size, QuotedSize;
    assert [a, b, c][1..] == [b, c];
    TwoFieldsSize(b, c);
  }

  // ---- what fits ----

  function ToJson(ok: Json, code: Json, message: Json, details: Json): Json {
    Obj([Field("ok", ok), Field("code", code), Field("message", message), Field("details", details)])
  }

  function HeadSize(ok: Json, code: Json, message: Json): nat {
    FieldSize(Field("ok", ok)) + FieldSize(Field("code", code)) + FieldSize(Field("message", message))
      + QuotedSize("details") + 6
  }

  lemma EnvelopeSize(ok: Json, code: Json, message: Json, details: Json)
    ensures Size(ToJson(ok, code, message, details)) == HeadSize(ok, code, message) + Size(details)
  {
    hide QuotedSize;
    var a, b, c, d := Field("ok", ok), Field("code", code), Field("message", message), Field("details", details);
    assert [a, b, c, d][1..] == [b, c, d];
    ThreeFieldsSize(b, c, d);
  }

  ghost predicate Counted(o: Json, n: Counts) {
    o.Obj? && n.agents <= |All(o, Agents)| && n.findings <= |All(o, Findings)|
  }

  /** The details shortened to `n` take at most `room` bytes. */
  ghost predicate Fits(o: Json, n: Counts, room: int) {
    Counted(o, n) && DetailsSize(o, n) <= room
  }

  /** `k` is the whole collection if that fits, else the longest proper prefix that
      fits, else nothing. */
  ghost predicate Longest(o: Json, n: Counts, c: Collection, room: int, k: nat) {
    var all := |All(o, c)|;
    if Fits(o, With(n, c, all), room) then k == all
    else
      && k < all
      && (k > 0 ==> Fits(o, With(n, c, k), room))
      && (forall m :: k < m < all ==> !Fits(o, With(n, c, m), room))
  }

  /** If some length fits, the longest one does, and it is no shorter. */
  lemma LongestFits(o: Json, n: Counts, c: Collection, room: int, k: nat, m: nat)
    requires Longest(o, n, c, room, k) && Fits(o, With(n, c, m), room) && m <= |All(o, c)|
    ensures m <= k && Fits(o, With(n, c, k), room)
  {
    hide Fits;
  }

  lemma LongestUnique(o: Json, n: Counts, c: Collection, room: int, k: nat, m: nat)
    requires Longest(o, n, c, room, k) && Longest(o, n, c, room, m)
    ensures k == m
  {
    hide Fits;
  }

  /** What the first pass keeps: the collection listed first is cut to its longest fitting
      prefix, and the other one only if that is not enough. */
  ghost predicate FirstPass(o: Json, order: seq<Collection>, room: int, n: Counts)
    requires 1 <= |order| <= 2
  {
    var one := With(Full(o), order[0], Of(n, order[0]));
    && Longest(o, Full(o), order[0], room, Of(n, order[0]))
    && (if |order| == 1 || Fits(o, one, room) then n == one
        else n == With(one, order[1], Of(n, order[1])) && Longest(o, one, order[1], room, Of(n, order[1])))
  }

  /** What the second pass makes of that: first the agents and then the findings get as much
      as fits beside the other. */
  ghost predicate SecondPass(o: Json, room: int, first: Counts, n: Counts) {
    && (if All(o, Agents) == [] then n.agents == first.agents else Longest(o, first, Agents, room, n.agents))
    && (if All(o, Findings) == [] then n.findings == first.findings
        else Longest(o, With(first, Agents, n.agents), Findings, room, n.findings))
  }

  /** The two passes determine how many items are kept. */
  lemma PassesDetermine(o: Json, order: seq<Collection>, room: int, f: Counts, n: Counts, f': Counts, n': Counts)
    requires 1 <= |order| <= 2 && FirstPass(o, order, room, f) && FirstPass(o, order, room, f')
    requires |order| == 2 ==> order[0] != order[1]
    requires SecondPass(o, room, f, n) && SecondPass(o, room, f', n')
    ensures f == f' && n == n'
  {
    hide Longest, Fits, ItemsAt;
    LongestUniqueIf(o, Full(o), order[0], room, Of(f, order[0]), Of(f', order[0]));
    var one := With(Full(o), order[0], Of(f, order[0]));
    if |order| == 2 {
      LongestUniqueIf(o, one, order[1], room, Of(f, order[1]), Of(f', order[1]));
    }
    LongestUniqueIf(o, f, Agents, room, n.agents, n'.agents);
    LongestUniqueIf(o, With(f, Agents, n.agents), Findings, room, n.findings, n'.findings);
  }

  lemma LongestUniqueIf(o: Json, n: Counts, c: Collection, room: int, k: nat, m: nat)
    ensures Longest(o, n, c, room, k) && Longest(o, n, c, room, m) ==> k == m
  {
    hide Longest;
    if Longest(o, n, c, room, k) && Longest(o, n, c, room, m) {
      LongestUnique(o, n, c, room, k, m);
    }
  }

  /** Shortening can make the document larger: an unshortened one carries no metadata. */
  lemma FullCanBeSmaller()
    ensures var o := Obj([Field("agents", Arr([Num("1")]))]);
            && Counted(o, Counts(0, 0)) && Counted(o, Counts(1, 0))
            && DetailsSize(o, Counts(1, 0)) < DetailsSize(o, Counts(0, 0))
  {
    var one := [Num("1")];
    var o := Obj([Field("agents", Arr(one))]);
    assert Find(o.fields, "agents") == Some(Arr(one));
    assert Find(o.fields, "summary") == None by { assert o.fields[1..] == []; }
    assert All(o, Agents) == one && All(o, Findings) == [];
    assert one[..1] == one && ItemsSize(one) == 2 by { assert one[1..] == []; }
    assert MetaTotal(o, Counts(0, 0)) > 1 && MetaTotal(o, Counts(1, 0)) == 0;
  }

  // ---- the document being bounded ----

  class StatusDocument {
    const ok: Json
    const code: Json
    const message: Json
    var details: Json
    var truncation: seq<Field>

    constructor (ok: Json, code: Json, message: Json, details: Json)
      ensures this.ok == ok && this.code == code && this.message == message
      ensures this.details == details && truncation == []
    {
      this.ok, this.code, this.message := ok, code, message;
      this.details, truncation := details, [];
    }

    function Bytes(): nat
      reads this
    {
      Size(ToJson(ok, code, message, details))
    }

    /** Bytes left for the details. */
    ghost function Room(maxBytes: int): int {
      maxBytes - HeadSize(ok, code, message)
    }

    method Apply(c: Collection, originalCount: nat, sliced: seq<Json>)
      requires GetPath(details, PathOf(c)).Some?
      modifies this
      ensures truncation == ApplyMeta(old(truncation), c, originalCount, |sliced|)
      ensures details == ApplyDetails(old(details), truncation, c, sliced)
    {
      details := SetPath(details, PathOf(c), Arr(sliced));
      if |sliced| < originalCount {
        truncation := Put(truncation, NameOf(c), Entry(originalCount, |sliced|));
        details := WithField(details, TRUNCATION, Some(Obj(truncation)));
      } else {
        truncation := Drop(truncation, NameOf(c));
        details := WithField(details, TRUNCATION, if truncation == [] then None else Some(Obj(truncation)));
      }
      PutNotEmpty(old(truncation), NameOf(c), Entry(originalCount, |sliced|));
    }

    /** Whether the first `k` items fit; leaves that probe in the document. */
    method Probe(c: Collection, items: seq<Json>, k: nat, maxBytes: int, ghost o: Json, ghost n: Counts) returns (fits: bool)
      requires ShowsExcept(details, truncation, o, n, c) && items == All(o, c) && k <= |items|
      modifies this
      ensures Shows(details, truncation, o, With(n, c, k)) && ShowsExcept(details, truncation, o, n, c)
      ensures fits <==> Fits(o, With(n, c, k), Room(maxBytes))
    {
      hide Shows, ShowsExcept, HeadSize, DetailsSize, Size;
      ExceptHasPath(details, truncation, o, n, c);
      ApplyShows(details, truncation, o, n, c, k);
      Apply(c, |items|, items[..k]);
      ShowsIsExcept(details, truncation, o, With(n, c, k), c);
      ExceptForgets(details, truncation, o, n, c, k);
      fits := Bytes() <= maxBytes;
      EnvelopeSize(ok, code, message, details);
      ShowsSize(details, truncation, o, With(n, c, k), c);
      ShowsCounted(details, truncation, o, With(n, c, k));
    }

    method ShrinkArrayToFit(c: Collection, items: seq<Json>, maxBytes: int, ghost o: Json, ghost n: Counts)
      returns (r: seq<Json>)
      requires ShowsExcept(details, truncation, o, n, c) && items == All(o, c) && Counted(o, n)
      modifies this
      ensures ShowsExcept(details, truncation, o, n, c)
      ensures r <= items && Longest(o, n, c, Room(maxBytes), |r|)
    {
      hide Shows, ShowsExcept, Fits;
      assert |items| > 0 by { ExceptHasPath(details, truncation, o, n, c); }
      var fits := Probe(c, items, |items|, maxBytes, o, n);
      if fits {
        return items;
      }
      var lo, hi, best := 0, |items| - 1, 0;
      while lo <= hi
        invariant 0 <= lo <= hi + 1 <= |items| && best == (if lo > 0 then lo - 1 else 0)
        invariant ShowsExcept(details, truncation, o, n, c)
        invariant lo > 0 ==> Fits(o, With(n, c, lo - 1), Room(maxBytes))
        invariant forall m :: hi < m < |items| ==> !Fits(o, With(n, c, m), Room(maxBytes))
      {
        var mid := (lo + hi) / 2;
        fits := Probe(c, items, mid, maxBytes, o, n);
        if fits {
          best := mid;
          lo := mid + 1;
        } else {
          forall m | mid < m < |items| ensures !Fits(o, With(n, c, m), Room(maxBytes)) {
            FitsShrinks(o, n, c, Room(maxBytes), mid, m);
          }
          hi := mid - 1;
        }
      }
      r := items[..best];
    }

    /** Sets one collection to its longest fitting prefix, the rest being as it is. */
    method Refit(c: Collection, items: seq<Json>, maxBytes: int, ghost o: Json, ghost n: Counts) returns (ghost n': Counts)
      requires ShowsExcept(details, truncation, o, n, c) && items == All(o, c) && Counted(o, n)
      modifies this
      ensures Shows(details, truncation, o, n') && n' == With(n, c, Of(n', c)) && Counted(o, n')
      ensures Longest(o, n, c, Room(maxBytes), Of(n', c))
    {
      hide Shows, ShowsExcept, Longest;
      var kept := ShrinkArrayToFit(c, items, maxBytes, o, n);
      assert kept == items[..|kept|];
      ExceptHasPath(details, truncation, o, n, c);
      ApplyShows(details, truncation, o, n, c, |kept|);
      Apply(c, |items|, kept);
      n' := With(n, c, |kept|);
      ShowsCounted(details, truncation, o, n');
    }

    /** Marks a collection as emptied before the first probe on it. */
    method Announce(c: Collection, originalCount: nat, ghost o: Json, ghost n: Counts)
      requires ShowsExcept(details, truncation, o, n, c)
      modifies this
      ensures ShowsExcept(details, truncation, o, n, c)
    {
      hide Entry, Strip, ItemsAt;
      AnnounceLists(truncation, o, n, c, Entry(originalCount, 0));
      truncation := Put(truncation, NameOf(c), Entry(originalCount, 0));
      details := WithField(details, TRUNCATION, Some(Obj(truncation)));
      GetWithField(old(details), TRUNCATION, Some(Obj(truncation)), AGENTS);
      GetWithField(old(details), TRUNCATION, Some(Obj(truncation)), FINDINGS);
      StripMeta(old(details), Some(Obj(truncation)));
      WithFieldUnique(old(details), TRUNCATION, Some(Obj(truncation)));
    }

    /** Shrinks the largest collection first, until the document fits. */
    method ShrinkLargestFirst(maxBytes: int, order: seq<Collection>, agents: seq<Json>, findings: seq<Json>, ghost o: Json)
      returns (ghost n: Counts)
      requires o.Obj? && Unique(o.fields) && details == o && truncation == [] && Bytes() > maxBytes
      requires order == Present(o) != [] && agents == All(o, Agents) && findings == All(o, Findings)
      modifies this
      ensures Shows(details, truncation, o, n) && Counted(o, n)
      ensures Fits(o, Counts(0, 0), Room(maxBytes)) ==> Fits(o, n, Room(maxBytes))
      ensures LargerSuffices(o, Room(maxBytes)) ==>
                Fits(o, n, Room(maxBytes)) && Of(n, order[1]) == |All(o, order[1])|
      ensures |order| <= 2 && FirstPass(o, order, Room(maxBytes), n)
    {
      hide Shows, ShowsExcept, Fits, Longest, Size, Unique, Bytes, Room, ItemsAt, Present;
      PresentFacts(o);
      n := Full(o);
      var i := 0;
      while i < |order|
        invariant 0 <= i <= |order| && Counted(o, n)
        invariant i == 0 ==> details == o && truncation == [] && Bytes() > maxBytes
        invariant i > 0 ==> Shows(details, truncation, o, n)
        invariant forall j :: i <= j < |order| ==> Of(n, order[j]) == |All(o, order[j])|
        invariant i > 0 ==> Fits(o, n, Room(maxBytes)) || forall j :: 0 <= j < i ==> Of(n, order[j]) == 0
        invariant i == 0 ==> n == Full(o)
        invariant i == 1 ==> n == With(Full(o), order[0], Of(n, order[0])) &&
                             Longest(o, Full(o), order[0], Room(maxBytes), Of(n, order[0]))
        invariant i == 2 ==> FirstPass(o, order, Room(maxBytes), n)
        invariant LargerSuffices(o, Room(maxBytes)) ==> i <= 1 && (i == 1 ==> Fits(o, n, Room(maxBytes)))
      {
        if i > 0 {
          BytesFit(maxBytes, o, n, order[0]);
        }
        if Bytes() <= maxBytes {
          return;
        }
        var c := order[i];
        var items := match c case Agents => agents case Findings => findings;
        if i == 0 {
          StartsExcept(o, n, c);
        } else {
          ShowsIsExcept(details, truncation, o, n, c);
        }
        Announce(c, |items|, o, n);
        ghost var before := n;
        n := Refit(c, items, maxBytes, o, n);
        RefitFitsOrEmpty(o, before, n, c, Room(maxBytes));
        if i == 0 && LargerSuffices(o, Room(maxBytes)) {
          LongestFits(o, before, c, Room(maxBytes), Of(n, c), 0);
        }
        i := i + 1;
      }
    }

    /** Gives leftover room back, to the agents first and then to the findings. */
    method GiveBack(maxBytes: int, agents: seq<Json>, findings: seq<Json>, ghost o: Json, ghost first: Counts)
      returns (ghost n: Counts)
      requires Shows(details, truncation, o, first) && Counted(o, first)
      requires agents == All(o, Agents) && findings == All(o, Findings)
      modifies this
      ensures Shows(details, truncation, o, n) && Counted(o, n)
      ensures Fits(o, first, Room(maxBytes)) ==>
                Fits(o, n, Room(maxBytes)) && first.agents <= n.agents && first.findings <= n.findings
      ensures findings != [] ==> Longest(o, n, Findings, Room(maxBytes), n.findings)
      ensures SecondPass(o, Room(maxBytes), first, n)
    {
      hide Shows, ShowsExcept, Fits, Longest, ItemsAt, Room;
      n := first;
      var specs := [Agents, Findings];
      for i := 0 to 2
        invariant Shows(details, truncation, o, n) && Counted(o, n)
        invariant Fits(o, first, Room(maxBytes)) ==>
                    Fits(o, n, Room(maxBytes)) && first.agents <= n.agents && first.findings <= n.findings
        invariant i == 2 && findings != [] ==> Longest(o, n, Findings, Room(maxBytes), n.findings)
        invariant i == 0 ==> n == first
        invariant i == 1 ==> n == With(first, Agents, n.agents)
        invariant i > 0 && agents == [] ==> n.agents == first.agents
        invariant i > 0 && agents != [] ==> Longest(o, first, Agents, Room(maxBytes), n.agents)
        invariant i == 2 && findings == [] ==> n.findings == first.findings
        invariant i == 2 && findings != [] ==>
                    Longest(o, With(first, Agents, n.agents), Findings, Room(maxBytes), n.findings)
      {
        var c := specs[i];
        var original := match c case Agents => agents case Findings => findings;
        if original != [] {
          ghost var before := n;
          ShowsIsExcept(details, truncation, o, n, c);
          n := Refit(c, original, maxBytes, o, n);
          RefitKeepsFit(o, before, n, c, Room(maxBytes));
        }
      }
    }

    method Bound(maxBytes: int) returns (ghost first: Counts, ghost n: Counts)
      requires details.Obj? && Unique(details.fields) && truncation == [] && Bytes() > maxBytes
      modifies this
      ensures Present(old(details)) == [] ==> details == old(details)
      ensures Present(old(details)) != [] ==> Shows(details, truncation, old(details), n)
      ensures Present(old(details)) != [] && Fits(old(details), Counts(0, 0), Room(maxBytes)) ==>
                Bytes() <= maxBytes && first.agents <= n.agents && first.findings <= n.findings
      ensures LargerSuffices(old(details), Room(maxBytes)) ==>
                Bytes() <= maxBytes && Of(n, Present(old(details))[1]) == |All(old(details), Present(old(details))[1])|
      ensures All(old(details), Findings) != [] ==> Longest(old(details), n, Findings, Room(maxBytes), n.findings)
      ensures |Present(old(details))| in {1, 2} ==>
                && FirstPass(old(details), Present(old(details)), Room(maxBytes), first)
                && SecondPass(old(details), Room(maxBytes), first, n)
    {
      hide Shows, Fits, Longest, Size, ItemsAt, Present, Unique, Room, Bytes;
      ghost var o := details;
      var agents, findings := ItemsAt(details, Agents), ItemsAt(details, Findings);
      var present := Present(details);
      PresentFacts(o);
      first, n := Counts(0, 0), Counts(0, 0);
      if present != [] {
        assert All(o, present[0]) != [];
        first := ShrinkLargestFirst(maxBytes, present, agents, findings, o);
        n := GiveBack(maxBytes, agents, findings, o, first);
        BytesFit(maxBytes, o, n, present[0]);
      }
    }

    lemma BytesFit(maxBytes: int, o: Json, n: Counts, c: Collection)
      requires Shows(details, truncation, o, n) && All(o, c) != []
      ensures Bytes() <= maxBytes <==> Fits(o, n, Room(maxBytes))
    {
      hide Shows, DetailsSize, HeadSize, Size;
      EnvelopeSize(ok, code, message, details);
      ShowsSize(details, truncation, o, n, c);
      ShowsCounted(details, truncation, o, n);
    }
  }

  /** The collections with items, the one with the larger text first. */
  function Present(details: Json): seq<Collection> {
    var agents, findings := ItemsAt(details, Agents), ItemsAt(details, Findings);
    if agents == [] && findings == [] then []
    else if agents == [] then [Findings]
    else if findings == [] then [Agents]
    else if Size(Arr(findings)) > Size(Arr(agents)) then [Findings, Agents]
    else [Agents, Findings]
  }

  function Full(o: Json): Counts {
    Counts(|All(o, Agents)|, |All(o, Findings)|)
  }

  /** There are two collections, and emptying the larger one is enough. */
  ghost predicate LargerSuffices(o: Json, room: int) {
    |Present(o)| == 2 && Fits(o, With(Full(o), Present(o)[0], 0), room)
  }

  lemma PresentFacts(o: Json)
    ensures forall c :: c in Present(o) <==> All(o, c) != []
    ensures |Present(o)| <= 2
    ensures |Present(o)| == 2 ==>
              Present(o)[0] != Present(o)[1] && Size(Arr(All(o, Present(o)[0]))) >= Size(Arr(All(o, Present(o)[1])))
    ensures |Present(o)| == 2 && Size(Arr(All(o, Agents))) == Size(Arr(All(o, Findings))) ==> Present(o)[0] == Agents
  {
    hide ItemsAt, Size;
    forall c ensures c in Present(o) <==> All(o, c) != [] {
      match c
      case Agents =>
      case Findings =>
    }
  }

  lemma StartsExcept(o: Json, n: Counts, c: Collection)
    requires o.Obj? && Unique(o.fields) && All(o, c) != [] && n == Counts(|All(o, Agents)|, |All(o, Findings)|)
    ensures ShowsExcept(o, [], o, n, c)
  {
    hide Strip, Entry;
    assert All(o, Other(c))[..|All(o, Other(c))|] == All(o, Other(c));
  }

  lemma RefitFitsOrEmpty(o: Json, n: Counts, n': Counts, c: Collection, room: int)
    requires Longest(o, n, c, room, Of(n', c)) && n' == With(n, c, Of(n', c))
    ensures Fits(o, n', room) || Of(n', c) == 0
  {
    hide Fits;
  }

  /** Refitting a fitting document keeps it fitting and shortens nothing. */
  lemma RefitKeepsFit(o: Json, n: Counts, n': Counts, c: Collection, room: int)
    requires Longest(o, n, c, room, Of(n', c)) && n' == With(n, c, Of(n', c)) && Counted(o, n)
    ensures Fits(o, n, room) ==> Fits(o, n', room) && n.agents <= n'.agents && n.findings <= n'.findings
    ensures Longest(o, n', c, room, Of(n', c))
  {
    assert With(n, c, Of(n, c)) == n;
    assert forall k :: With(n', c, k) == With(n, c, k);
    if Fits(o, n, room) {
      LongestFits(o, n, c, room, Of(n', c), Of(n, c));
    }
  }

  lemma AnnounceLists(truncation: seq<Field>, o: Json, n: Counts, c: Collection, v: Json)
    requires ListsExcept(truncation, o, n, c)
    ensures ListsExcept(Put(truncation, NameOf(c), v), o, n, c)
  {
    hide Entry, ItemsAt;
    var rest := if Shortened(o, n, Other(c)) then [EntryField(o, n, Other(c))] else [];
    PutOfTwo(rest, truncation, NameOf(c), v);
    assert ([Field(NameOf(c), v)] + rest)[1..] == rest;
    assert (rest + [Field(NameOf(c), v)])[..|rest|] == rest;
  }

  lemma PutNotEmpty(fields: seq<Field>, key: string, v: Json)
    ensures Put(fields, key, v) != []
  {
  }

  lemma ExceptHasPath(details: Json, truncation: seq<Field>, o: Json, n: Counts, c: Collection)
    requires ShowsExcept(details, truncation, o, n, c)
    ensures GetPath(details, PathOf(c)).Some? && All(o, c) != []
  {
  }

  /** The count of `c` itself does not matter. */
  lemma ExceptForgets(details: Json, truncation: seq<Field>, o: Json, n: Counts, c: Collection, k: nat)
    ensures ShowsExcept(details, truncation, o, With(n, c, k), c) <==> ShowsExcept(details, truncation, o, n, c)
  {
    hide Entry, Strip, ItemsAt;
  }

  lemma ShowsCounted(details: Json, truncation: seq<Field>, o: Json, n: Counts)
    requires Shows(details, truncation, o, n)
    ensures Counted(o, n)
  {
  }

  lemma FitsShrinks(o: Json, n: Counts, c: Collection, room: int, k: nat, m: nat)
    requires Counted(o, n) && k <= m < |All(o, c)|
    ensures Fits(o, With(n, c, m), room) ==> Fits(o, With(n, c, k), room)
  {
    hide DetailsSize, ItemsAt;
    SizeGrows(o, n, c, k, m);
  }

  // ---- what a reader of the document finds ----

  /** The items of the array at `path`, none if there is no array. */
  function ArrayAt(details: Json, path: Path): seq<Json> {
    match GetPath(details, path)
    case Some(Arr(items)) => items
    case _ => []
  }

  /** The count written at `path`. */
  predicate CountAt(details: Json, path: Path, n: nat) {
    match GetPath(details, path)
    case Some(Num(text)) => DecimalValue(text) == n
    case _ => false
  }

  /** The array at `path` is a prefix of the one in `o`, and the metadata says so: under
      `truncation` and the name there are both counts exactly if it is shorter. */
  predicate ReportsCut(details: Json, o: Json, path: Path, name: string) {
    var before, after := ArrayAt(o, path), ArrayAt(details, path);
    && after <= before
    && (if |after| < |before| then
          && GetPath(details, ["truncation", name, "truncated"]) == Some(Bool(true))
          && CountAt(details, ["truncation", name, "originalCount"], |before|)
          && CountAt(details, ["truncation", name, "returnedCount"], |after|)
        else GetPath(details, ["truncation", name]).None?)
  }

  lemma FindInThree(a: Field, b: Field, c: Field)
    ensures Find([a, b, c], a.key) == Some(a.value)
    ensures b.key != a.key ==> Find([a, b, c], b.key) == Some(b.value)
    ensures c.key != a.key && c.key != b.key ==> Find([a, b, c], c.key) == Some(c.value)
  {
    assert [a, b, c][1..] == [b, c] && [b, c][1..] == [c];
    assert Find([c], c.key) == Some(c.value);
    assert c.key != b.key ==> Find([b, c], c.key) == Find([c], c.key);
  }

  lemma GetOne(fields: seq<Field>, key: string)
    ensures GetPath(Obj(fields), [key]) == Find(fields, key)
  {
  }

  lemma EntryReads(original: nat, returned: nat)
    ensures GetPath(Entry(original, returned), ["truncated"]) == Some(Bool(true))
    ensures CountAt(Entry(original, returned), ["originalCount"], original)
    ensures CountAt(Entry(original, returned), ["returnedCount"], returned)
  {
    hide GetPath, Find, Digits, DecimalValue;
    DigitsReadBack(original);
    DigitsReadBack(returned);
    var e := Entry(original, returned);
    FindInThree(e.fields[0], e.fields[1], e.fields[2]);
    assert e.fields == [e.fields[0], e.fields[1], e.fields[2]];
    assert "truncated"[0] == 't' && "originalCount"[0] == 'o' && "returnedCount"[0] == 'r';
    GetOne(e.fields, "truncated");
    GetOne(e.fields, "originalCount");
    GetOne(e.fields, "returnedCount");
  }

  lemma MetaReads(details: Json, meta: Json, name: string, key: string)
    requires details.Obj? && Find(details.fields, "truncation") == Some(meta) && meta.Obj?
    ensures GetPath(details, ["truncation", name]) == Find(meta.fields, name)
    ensures GetPath(details, ["truncation", name, key]) ==
            match Find(meta.fields, name) case None => None case Some(v) => GetPath(v, [key])
  {
    assert ["truncation", name][1..] == [name] && ["truncation", name, key][1..] == [name, key] && [name, key][1..] == [key];
    GetOne(meta.fields, name);
  }

  lemma NoMetaReads(details: Json, name: string)
    requires details.Obj? && Find(details.fields, "truncation").None?
    ensures GetPath(details, ["truncation", name]).None?
  {
  }

  lemma ListsFinds(truncation: seq<Field>, o: Json, n: Counts, c: Collection)
    requires Lists(truncation, o, n)
    ensures Find(truncation, NameOf(c)) == if Shortened(o, n, c) then Some(Entry(|All(o, c)|, Of(n, c))) else None
  {
    hide Entry, ItemsAt;
    if |truncation| == 2 {
      assert truncation[1..] == [truncation[1]] && [truncation[1]][1..] == [];
    } else if |truncation| == 1 {
      assert truncation[1..] == [];
    }
  }

  lemma ShowsReports(details: Json, truncation: seq<Field>, o: Json, n: Counts, c: Collection)
    requires Shows(details, truncation, o, n)
    ensures ReportsCut(details, o, PathOf(c), NameOf(c))
  {
    hide Entry, Strip, Lists, Unique, DecimalValue, GetPath;
    var before, after := ArrayAt(o, PathOf(c)), ArrayAt(details, PathOf(c));
    assert before == All(o, c);
    assert Holds(details, o, n, c);
    assert after == before[..Of(n, c)];
    ListsFinds(truncation, o, n, c);
    if truncation == [] {
      NoMetaReads(details, NameOf(c));
    } else {
      MetaReads(details, Obj(truncation), NameOf(c), "truncated");
      MetaReads(details, Obj(truncation), NameOf(c), "originalCount");
      MetaReads(details, Obj(truncation), NameOf(c), "returnedCount");
      EntryReads(|All(o, c)|, Of(n, c));
    }
  }

  /** With the names and places of the two collections written out. */
  lemma ShowsReportsBoth(details: Json, truncation: seq<Field>, o: Json, n: Counts)
    requires Shows(details, truncation, o, n)
    ensures ReportsCut(details, o, ["agents"], "agents")
    ensures ReportsCut(details, o, ["summary", "findings"], "findings")
  {
    hide Shows, ReportsCut;
    ShowsReports(details, truncation, o, n, Agents);
    ShowsReports(details, truncation, o, n, Findings);
  }

  /** The two documents read alike everywhere outside the two collections and the metadata. */
  ghost predicate SameElsewhere(a: Json, b: Json) {
    forall path: Path :: Apart(["agents"], path) && Apart(["summary", "findings"], path) && path[0] != "truncation" ==>
      GetPath(a, path) == GetPath(b, path)
  }

  lemma ShowsElsewhere(details: Json, truncation: seq<Field>, o: Json, n: Counts)
    requires Shows(details, truncation, o, n)
    ensures SameElsewhere(details, o)
  {
    hide Lists, Strip, Unique, Holds, GetPath, Apart;
    forall path: Path | Apart(["agents"], path) && Apart(["summary", "findings"], path) && path[0] != "truncation"
      ensures GetPath(details, path) == GetPath(o, path)
    {
      StripReads(details, path);
      StripReads(o, path);
    }
  }

  // ---- bounding the strings ----

  /** `r` is `v` with each string value cut to the longest prefix of whole code points within
      the cap, and nothing else changed. */
  ghost predicate CutTo(v: Json, r: Json, cap: int)
    decreases v
  {
    match v
    case Str(s) => r.Str? && Utf8.LongestFit(s, cap, r.s)
    case Arr(items) => r.Arr? && |r.items| == |items| && forall i :: 0 <= i < |items| ==> CutTo(items[i], r.items[i], cap)
    case Obj(fields) =>
      r.Obj? && |r.fields| == |fields| && forall i :: 0 <= i < |fields| ==>
        r.fields[i].key == fields[i].key && CutTo(fields[i].value, r.fields[i].value, cap)
    case _ => r == v
  }

  lemma {:induction false} BoundStringsCuts(v: Json, cap: int)
    ensures CutTo(v, BoundStrings(v, cap), cap)
    decreases v, 1
  {
    hide Utf8.LongestFit;
    match v
    case Str(s) => Utf8.TruncateIsLongestFit(s, cap);
    case Arr(items) => BoundItemsCut(items, cap);
    case Obj(fields) => BoundFieldsCut(fields, cap);
    case _ =>
  }

  lemma {:induction false} BoundItemsCut(items: seq<Json>, cap: int)
    ensures |BoundItems(items, cap)| == |items|
    ensures forall i :: 0 <= i < |items| ==> CutTo(items[i], BoundItems(items, cap)[i], cap)
    decreases items, 0
  {
    hide CutTo;
    if items != [] {
      BoundStringsCuts(items[0], cap);
      BoundItemsCut(items[1..], cap);
    }
  }

  lemma {:induction false} BoundFieldsCut(fields: seq<Field>, cap: int)
    ensures |BoundFields(fields, cap)| == |fields|
    ensures forall i :: 0 <= i < |fields| ==>
              BoundFields(fields, cap)[i].key == fields[i].key &&
              CutTo(fields[i].value, BoundFields(fields, cap)[i].value, cap)
    decreases fields, 0
  {
    hide CutTo;
    if fields != [] {
      BoundStringsCuts(fields[0].value, cap);
      BoundFieldsCut(fields[1..], cap);
    }
  }

  lemma {:induction false} FindBound(fields: seq<Field>, key: string, cap: int)
    ensures Find(BoundFields(fields, cap), key) ==
            match Find(fields, key) case None => None case Some(v) => Some(BoundStrings(v, cap))
  {
    if fields != [] {
      FindBound(fields[1..], key, cap);
    }
  }

  lemma {:induction false} BoundUnique(fields: seq<Field>, cap: int)
    requires Unique(fields)
    ensures Unique(BoundFields(fields, cap))
  {
    if fields != [] {
      BoundUnique(fields[1..], cap);
      FindBound(fields[1..], fields[0].key, cap);
    }
  }

  lemma {:induction false} GetBound(v: Json, path: Path, cap: int)
    ensures GetPath(BoundStrings(v, cap), path) ==
            match GetPath(v, path) case None => None case Some(w) => Some(BoundStrings(w, cap))
    decreases |path|
  {
    if v.Obj? {
      FindBound(v.fields, path[0], cap);
      if Find(v.fields, path[0]).Some? && |path| > 1 {
        GetBound(Find(v.fields, path[0]).value, path[1..], cap);
      }
    }
  }

  lemma {:induction false} BoundItemsCount(items: seq<Json>, cap: int)
    ensures |BoundItems(items, cap)| == |items|
  {
    if items != [] {
      BoundItemsCount(items[1..], cap);
    }
  }

  /** Cutting strings does not change how many items a collection has. */
  lemma BoundKeepsCounts(v: Json, c: Collection, cap: int)
    ensures |ItemsAt(BoundStrings(v, cap), c)| == |ItemsAt(v, c)|
  {
    GetBound(v, PathOf(c), cap);
    BoundItemsCount(ItemsAt(v, c), cap);
  }

  /** Every string value takes at most `cap` bytes. */
  ghost predicate Capped(v: Json, cap: nat)
    decreases v
  {
    match v
    case Str(s) => |Utf8.Encode(s)| <= cap
    case Arr(items) => forall x :: x in items ==> Capped(x, cap)
    case Obj(fields) => forall f :: f in fields ==> Capped(f.value, cap)
    case _ => true
  }

  lemma {:induction false} BoundStringsCapped(v: Json, cap: nat)
    ensures Capped(BoundStrings(v, cap), cap)
    decreases v, 1
  {
    match v
    case Str(s) => Utf8.TruncateIsLongestFit(s, cap);
    case Arr(items) => BoundItemsCapped(items, cap);
    case Obj(fields) => BoundFieldsCapped(fields, cap);
    case _ =>
  }

  lemma {:induction false} BoundItemsCapped(items: seq<Json>, cap: nat)
    ensures forall x :: x in BoundItems(items, cap) ==> Capped(x, cap)
    decreases items, 0
  {
    if items != [] {
      BoundStringsCapped(items[0], cap);
      BoundItemsCapped(items[1..], cap);
    }
  }

  lemma {:induction false} BoundFieldsCapped(fields: seq<Field>, cap: nat)
    ensures forall f :: f in BoundFields(fields, cap) ==> Capped(f.value, cap)
    decreases fields, 0
  {
    if fields != [] {
      BoundStringsCapped(fields[0].value, cap);
      BoundFieldsCapped(fields[1..], cap);
    }
  }

  // ---- the whole operation ----

  datatype Envelope = Envelope(ok: Json, code: Json, message: Json, details: Json)

  function EnvelopeBytes(e: Envelope): nat {
    Size(ToJson(e.ok, e.code, e.message, e.details))
  }

  /** The envelope with its strings cut, before any collection is shortened. */
  function Unshortened(e: Envelope, maxStringBytes: int): Envelope {
    Envelope(
      e.ok, e.code,
      match e.message
      case Str(s) => Str(Utf8.Truncate(s, if maxStringBytes < 256 then 256 else maxStringBytes))
      case _ => e.message,
      BoundStrings(if e.details.Null? then Obj([]) else e.details, maxStringBytes))
  }

  /** The message is cut at the cap or at 256 bytes, whichever is more, the details at the cap;
      missing details are an empty object. */
  lemma UnshortenedIsCut(e: Envelope, maxStringBytes: int)
    ensures var u := Unshortened(e, maxStringBytes);
            && u.ok == e.ok && u.code == e.code
            && (if e.message.Str? then
                  u.message.Str? && Utf8.LongestFit(e.message.s, if maxStringBytes > 256 then maxStringBytes else 256, u.message.s)
                else u.message == e.message)
            && CutTo(if e.details.Null? then Obj([]) else e.details, u.details, maxStringBytes)
  {
    hide CutTo, Utf8.LongestFit;
    if e.message.Str? {
      Utf8.TruncateIsLongestFit(e.message.s, if maxStringBytes < 256 then 256 else maxStringBytes);
    }
    BoundStringsCuts(if e.details.Null? then Obj([]) else e.details, maxStringBytes);
  }

  /** The room for the details of an envelope. */
  function RoomIn(e: Envelope, maxBytes: int): int {
    maxBytes - HeadSize(e.ok, e.code, e.message)
  }

  method BoundStatusJson(e: Envelope, maxBytes: int, maxStringBytes: int)
    returns (next: Envelope, ghost truncation: seq<Field>, ghost first: Counts, ghost n: Counts)
    requires e.details.Obj? ==> Unique(e.details.fields)
    ensures var u := Unshortened(e, maxStringBytes);
            && next == u.(details := next.details)
            && (EnvelopeBytes(u) <= maxBytes || !u.details.Obj? || Present(u.details) == [] ==> next == u)
            && (u.details.Obj? && Present(u.details) != [] && Fits(u.details, Counts(0, 0), RoomIn(u, maxBytes)) ==>
                  EnvelopeBytes(next) <= maxBytes)
            && (EnvelopeBytes(u) > maxBytes && u.details.Obj? && Present(u.details) != [] ==>
                  && ReportsCut(next.details, u.details, ["agents"], "agents")
                  && ReportsCut(next.details, u.details, ["summary", "findings"], "findings")
                  && SameElsewhere(next.details, u.details))
    ensures var u := Unshortened(e, maxStringBytes);
            && (EnvelopeBytes(u) > maxBytes && u.details.Obj? && Present(u.details) != [] ==>
                  && Shows(next.details, truncation, u.details, n)
                  && |Present(u.details)| <= 2 && FirstPass(u.details, Present(u.details), RoomIn(u, maxBytes), first)
                  && SecondPass(u.details, RoomIn(u, maxBytes), first, n)
                  && (LargerSuffices(u.details, RoomIn(u, maxBytes)) ==>
                        var smaller := Present(u.details)[1]; Of(n, smaller) == |All(u.details, smaller)|)
                  && (All(u.details, Findings) != [] ==> Longest(u.details, n, Findings, RoomIn(u, maxBytes), n.findings)))
  {
    hide Shows, Fits, Longest, Size, Present, HeadSize, ItemsAt, ReportsCut, SameElsewhere, FirstPass, SecondPass;
    truncation, first, n := [], Counts(0, 0), Counts(0, 0);
    var message := e.message;
    if e.message.Str? {
      var cut := Utf8.TruncateUtf8(e.message.s, if maxStringBytes < 256 then 256 else maxStringBytes);
      message := Str(cut);
    }
    var raw := if e.details.Null? then Obj([]) else e.details;
    next := Envelope(e.ok, e.code, message, BoundStrings(raw, maxStringBytes));
    if EnvelopeBytes(next) <= maxBytes || !next.details.Obj? {
      return;
    }
    BoundUnique(raw.fields, maxStringBytes);
    var doc := new StatusDocument(next.ok, next.code, next.message, next.details);
    PresentFacts(next.details);
    ghost var o := next.details;
    first, n := doc.Bound(maxBytes);
    next, truncation := next.(details := doc.details), doc.truncation;
    if Present(o) != [] {
      ShowsReportsBoth(next.details, truncation, o, n);
      ShowsElsewhere(next.details, truncation, o, n);
    }
  }
}
