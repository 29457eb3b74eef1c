/** JSON texts (sections 2, 4 and 7 of RFC 8259) and the proof that the record scanner
    undoes printing them. */
module HookPrinter {
  import opened Wrappers
  import opened HookRecords

  /** A character of a string literal, as written. */
  datatype Item = Plain(c: char) | Escape(c: char) | Unicode(hex: string)

  /** JSON values with the white space of their text. */
  datatype Value =
    | Literal(text: string)
    | Text(items: seq<Item>)
    | Array(elements: seq<Element>, pad: string)
    | Object(members: seq<Member>, pad: string)

  datatype Element = Element(before: string, value: Value, after: string)

  datatype Member = Member(before: string, key: seq<Item>, middle: string, afterColon: string, value: Value, after: string)

  predicate JsonSpace(s: string) {
    forall i :: 0 <= i < |s| ==> s[i] in " \t\n\r"
  }

  predicate HexDigit(c: char) {
    '0' <= c <= '9' || 'a' <= c <= 'f' || 'A' <= c <= 'F'
  }

  predicate WfItem(i: Item) {
    match i
    case Plain(c) => c != '"' && c != '\\' && c as int >= 0x20
    case Escape(c) => c in "\"\\/bfnrt"
    case Unicode(hex) => |hex| == 4 && forall k :: 0 <= k < 4 ==> HexDigit(hex[k])
  }

  predicate WfItems(items: seq<Item>) {
    forall k :: 0 <= k < |items| ==> WfItem(items[k])
  }

  predicate WfLiteral(text: string) {
    text == "true" || text == "false" || text == "null" ||
    (text != "" && forall k :: 0 <= k < |text| ==> '0' <= text[k] <= '9' || text[k] in "+-.eE")
  }

  predicate WfValue(v: Value)
    decreases v
  {
    match v
    case Literal(text) => WfLiteral(text)
    case Text(items) => WfItems(items)
    case Array(elements, pad) => JsonSpace(pad) && forall e :: e in elements ==> WfElement(e)
    case Object(members, pad) => JsonSpace(pad) && forall m :: m in members ==> WfMember(m)
  }

  predicate WfElement(e: Element)
    decreases e
  {
    JsonSpace(e.before) && WfValue(e.value) && JsonSpace(e.after)
  }

  predicate WfMember(m: Member)
    decreases m
  {
    && JsonSpace(m.before) && WfItems(m.key) && JsonSpace(m.middle) && JsonSpace(m.afterColon)
    && WfValue(m.value) && JsonSpace(m.after)
  }

  // ---- printing ----

  function PrintItem(i: Item): string {
    match i
    case Plain(c) => [c]
    case Escape(c) => ['\\', c]
    case Unicode(hex) => "\\u" + hex
  }

  function PrintItems(items: seq<Item>): string {
    if items == [] then "" else PrintItem(items[0]) + PrintItems(items[1..])
  }

  function Quote(items: seq<Item>): string {
    "\"" + PrintItems(items) + "\""
  }

  function Print(v: Value): string
    decreases v, 1
  {
    match v
    case Literal(text) => text
    case Text(items) => Quote(items)
    case Array(elements, pad) => "[" + PrintElements(elements) + pad + "]"
    case Object(members, pad) => "{" + PrintMembers(members) + pad + "}"
  }

  function PrintElements(elements: seq<Element>): string
    decreases elements, 0
  {
    if elements == [] then ""
    else
      var e := elements[0];
      e.before + Print(e.value) + e.after + (if |elements| > 1 then "," else "") + PrintElements(elements[1..])
  }

  function PrintKey(m: Member): string {
    m.before + Quote(m.key) + m.middle + ":"
  }

  function PrintMember(m: Member, comma: string): string
    decreases m, 2
  {
    PrintKey(m) + (m.afterColon + Print(m.value) + m.after + comma)
  }

  function PrintMembers(members: seq<Member>): string
    decreases members, 0
  {
    if members == [] then ""
    else PrintMember(members[0], if |members| > 1 then "," else "") + PrintMembers(members[1..])
  }

  // ---- texts the scanner passes over ----

  function Run(m: Mode, t: string): Mode
    decreases |t|
  {
    if t == "" then m else Run(Step(m, t[0]), t[1..])
  }

  lemma {:induction false} CloseSkips(m: Mode, a: string, b: string)
    requires Close(m, a).None?
    ensures Close(m, a + b) == match Close(Run(m, a), b) case None => None case Some(n) => Some(|a| + n)
    decreases |a|
  {
    if a == "" {
      assert a + b == b;
    } else {
      assert (a + b)[1..] == a[1..] + b;
      CloseSkips(Step(m, a[0]), a[1..], b);
    }
  }

  lemma {:induction false} RunConcat(m: Mode, a: string, b: string)
    ensures Run(m, a + b) == Run(Run(m, a), b)
    decreases |a|
  {
    if a == "" {
      assert a + b == b;
    } else {
      assert (a + b)[1..] == a[1..] + b;
      RunConcat(Step(m, a[0]), a[1..], b);
    }
  }

  /** Scanning `t` from mode `m` closes nothing and ends in `m` again. */
  ghost predicate Passes(m: Mode, t: string) {
    Close(m, t).None? && Run(m, t) == m
  }

  lemma PassesBoth(m: Mode, a: string, b: string)
    requires Passes(m, a) && Passes(m, b)
    ensures Passes(m, a + b)
  {
    CloseSkips(m, a, b);
    RunConcat(m, a, b);
  }

  /** Text without quotes and braces passes outside of strings. */
  predicate Quiet(t: string) {
    forall i :: 0 <= i < |t| ==> t[i] != '"' && t[i] != '{' && t[i] != '}'
  }

  lemma {:induction false} QuietPasses(m: Mode, t: string)
    requires Quiet(t) && !m.inString
    ensures Passes(m, t)
    decreases |t|
  {
    if t != "" {
      QuietPasses(m, t[1..]);
    }
  }

  lemma {:induction false} PlainPasses(m: Mode, t: string)
    requires m.inString && !m.escaped && forall i :: 0 <= i < |t| ==> t[i] != '"' && t[i] != '\\'
    ensures Passes(m, t)
    decreases |t|
  {
    if t != "" {
      PlainPasses(m, t[1..]);
    }
  }

  lemma ItemPasses(m: Mode, i: Item)
    requires m.inString && !m.escaped && WfItem(i)
    ensures Passes(m, PrintItem(i))
  {
    match i
    case Plain(c) =>
      PlainPasses(m, [c]);
    case Escape(c) =>
      EscapePasses(m, c);
    case Unicode(hex) =>
      EscapePasses(m, 'u');
      PlainPasses(m, hex);
      PassesBoth(m, ['\\', 'u'], hex);
      assert PrintItem(i) == ['\\', 'u'] + hex;
  }

  lemma EscapePasses(m: Mode, c: char)
    requires m.inString && !m.escaped
    ensures Passes(m, ['\\', c])
  {
    var t := ['\\', c];
    assert t[1..] == [c] && [c][1..] == "";
    var m1 := Step(m, '\\');
    assert Step(m1, c) == m;
    assert Close(m1, [c]).None? && Run(m1, [c]) == m;
  }

  lemma {:induction false} ItemsPass(m: Mode, items: seq<Item>)
    requires m.inString && !m.escaped && WfItems(items)
    ensures Passes(m, PrintItems(items))
  {
    if items != [] {
      ItemPasses(m, items[0]);
      ItemsPass(m, items[1..]);
      PassesBoth(m, PrintItem(items[0]), PrintItems(items[1..]));
    }
  }

  /** A string literal passes, whatever braces, quotes and backslashes it stands for. */
  lemma QuotePasses(m: Mode, items: seq<Item>)
    requires !m.inString && !m.escaped && WfItems(items)
    ensures Passes(m, Quote(items))
  {
    var inside := m.(inString := true);
    var body := PrintItems(items);
    ItemsPass(inside, items);
    assert Close(inside, "\"").None? && Run(inside, "\"") == m by { assert "\""[1..] == ""; }
    CloseSkips(inside, body, "\"");
    RunConcat(inside, body, "\"");
    assert Quote(items) == "\"" + (body + "\"") && ("\"" + (body + "\""))[1..] == body + "\"";
  }

  /** The scanner's mode at nesting depth `d`, outside of strings. */
  function At(d: int): Mode {
    Mode(d, false, false)
  }

  lemma BracesPass(d: int, inner: string)
    requires d >= 1 && Passes(At(d + 1), inner)
    ensures Passes(At(d), "{" + inner + "}")
  {
    var t := "{" + inner + "}";
    assert t[1..] == inner + "}";
    CloseSkips(At(d + 1), inner, "}");
    RunConcat(At(d + 1), inner, "}");
    assert Close(At(d + 1), "}").None? && Run(At(d + 1), "}") == At(d) by { assert "}"[1..] == ""; }
  }

  lemma {:induction false} ValuePasses(d: int, v: Value)
    requires d >= 1 && WfValue(v)
    ensures Passes(At(d), Print(v))
    decreases v, 1
  {
    hide Passes, PrintElements, PrintMembers, Quote;
    match v
    case Literal(text) =>
      QuietPasses(At(d), text);
    case Text(items) =>
      QuotePasses(At(d), items);
    case Array(elements, pad) =>
      ElementsPass(d, elements);
      Passes4(At(d), "[", PrintElements(elements), pad, "]");
    case Object(members, pad) =>
      ObjectInside(d + 1, members, pad);
      BracesPass(d, PrintMembers(members) + pad);
      assert "{" + (PrintMembers(members) + pad) + "}" == Print(v);
  }

  lemma {:induction false} ObjectInside(d: int, members: seq<Member>, pad: string)
    requires d >= 1 && JsonSpace(pad) && forall m :: m in members ==> WfMember(m)
    ensures Passes(At(d), PrintMembers(members) + pad)
    decreases members, 1
  {
    MembersPass(d, members);
    QuietPasses(At(d), pad);
    PassesBoth(At(d), PrintMembers(members), pad);
  }

  lemma Passes4(m: Mode, a: string, b: string, c: string, d: string)
    requires !m.inString && Quiet(a) && Passes(m, b) && Quiet(c) && Quiet(d)
    ensures Passes(m, a + b + c + d)
  {
    QuietPasses(m, a);
    QuietPasses(m, c);
    QuietPasses(m, d);
    PassesBoth(m, a, b);
    PassesBoth(m, a + b, c);
    PassesBoth(m, a + b + c, d);
  }

  lemma {:induction false} ElementsPass(d: int, elements: seq<Element>)
    requires d >= 1 && forall e :: e in elements ==> WfElement(e)
    ensures Passes(At(d), PrintElements(elements))
    decreases elements, 0
  {
    hide Passes, Print, WfValue;
    if elements == [] {
      QuietPasses(At(d), "");
    } else {
      var e, comma := elements[0], if |elements| > 1 then "," else "";
      assert e in elements && WfElement(e);
      ValuePasses(d, e.value);
      ElementsPass(d, elements[1..]);
      Passes4(At(d), e.before, Print(e.value), e.after, comma);
      PassesBoth(At(d), e.before + Print(e.value) + e.after + comma, PrintElements(elements[1..]));
    }
  }

  lemma {:induction false} MemberPasses(d: int, m: Member, comma: string)
    requires d >= 1 && WfMember(m) && Quiet(comma)
    ensures Passes(At(d), PrintMember(m, comma))
    decreases m, 2
  {
    ValuePasses(d, m.value);
    QuotePasses(At(d), m.key);
    Passes4(At(d), m.before, Quote(m.key), m.middle, ":");
    Passes4(At(d), m.afterColon, Print(m.value), m.after, comma);
    PassesBoth(At(d), PrintKey(m), m.afterColon + Print(m.value) + m.after + comma);
  }

  lemma {:induction false} MembersPass(d: int, members: seq<Member>)
    requires d >= 1 && forall m :: m in members ==> WfMember(m)
    ensures Passes(At(d), PrintMembers(members))
    decreases members, 0
  {
    hide Passes, PrintMember, WfMember;
    if members == [] {
      QuietPasses(At(d), "");
    } else {
      var comma := if |members| > 1 then "," else "";
      assert members[0] in members;
      MemberPasses(d, members[0], comma);
      MembersPass(d, members[1..]);
      PassesBoth(At(d), PrintMember(members[0], comma), PrintMembers(members[1..]));
    }
  }

  // ---- records ----

  /** The scan of a printed object ends exactly at its last brace. */
  lemma ObjectCloses(v: Value, rest: string)
    requires v.Object? && WfValue(v)
    ensures Print(v) != "" && Print(v)[0] == '{'
    ensures Close(START, Print(v) + rest) == Some(|Print(v)|)
  {
    hide Close, PrintMembers;
    var inner := PrintMembers(v.members) + v.pad;
    ObjectInside(1, v.members, v.pad);
    assert Print(v) + rest == "{" + (inner + ("}" + rest));
    OpenBrace(inner + ("}" + rest));
    CloseSkips(At(1), inner, "}" + rest);
    CloseBrace(rest);
  }

  lemma OpenBrace(t: string)
    ensures Close(START, "{" + t) == match Close(At(1), t) case None => None case Some(n) => Some(n + 1)
  {
    assert ("{" + t)[1..] == t;
  }

  lemma CloseBrace(rest: string)
    ensures Close(At(1), "}" + rest) == Some(1)
  {
  }

  function PrintAll(values: seq<Value>): seq<string> {
    if values == [] then [] else [Print(values[0])] + PrintAll(values[1..])
  }

  /** However a list of objects is printed and whatever white space, even none, stands
      between them, the splitter returns the printed texts and consumes everything. */
  lemma {:induction false} SplitUndoesPrint(values: seq<Value>, gaps: seq<string>)
    requires |gaps| == |values| + 1 && forall i :: 0 <= i < |gaps| ==> Blank(gaps[i])
    requires forall v :: v in values ==> v.Object? && WfValue(v)
    ensures |PrintAll(values)| == |values|
    ensures var text := Weave(gaps, PrintAll(values));
            SplitText(text) == Split(PrintAll(values), |text|)
  {
    hide SplitText, Print, WfValue, Blank;
    var records := PrintAll(values);
    if values == [] {
      SplitAfterSpace(gaps[0], "") by { assert Blank(gaps[0]); }
      assert gaps[0] + "" == gaps[0];
      SplitEnds("", [], 0, 0) by { assert SplitUpTo("", [], 0); }
    } else {
      SplitUndoesPrint(values[1..], gaps[1..]);
      var rest := Weave(gaps[1..], PrintAll(values[1..]));
      var u := records[0] + rest;
      assert records[1..] == PrintAll(values[1..]);
      assert Weave(gaps, records) == gaps[0] + u;
      SplitAfterSpace(gaps[0], u);
      ObjectCloses(values[0], rest);
      SplitPrintedFirst(records[0], rest);
    }
  }

  lemma SplitPrintedFirst(r: string, rest: string)
    requires r != "" && r[0] == '{' && Close(START, r + rest) == Some(|r|)
    ensures SplitText(r + rest) == Shift([r], |r|, SplitText(rest))
  {
    var u := r + rest;
    assert SpaceCount(u) == 0 && u[0..] == u;
    SplitFirst(u, 0, |r|, |r|);
    assert u[0..|r|] == r && u[|r|..] == rest;
  }

  /** A reader that looks while the log is being written sees a prefix of the records. */
  lemma PartialReadIsPrefix(values: seq<Value>, gaps: seq<string>, seen: nat)
    requires |gaps| == |values| + 1 && forall i :: 0 <= i < |gaps| ==> Blank(gaps[i])
    requires forall v :: v in values ==> v.Object? && WfValue(v)
    requires |PrintAll(values)| == |values| && seen <= |Weave(gaps, PrintAll(values))|
    ensures SplitText(Weave(gaps, PrintAll(values))[..seen]).records <= PrintAll(values)
  {
    var log := Weave(gaps, PrintAll(values));
    SplitUndoesPrint(values, gaps);
    assert log == log[..seen] + log[seen..];
    SplitIsIncremental(log[..seen], log[seen..]);
  }

  /** A log that ends inside a record yields the complete records before it and is refused. */
  lemma CutRecordIsRefused(values: seq<Value>, gaps: seq<string>, v: Value, m: nat)
    requires |gaps| == |values| + 1 && forall i :: 0 <= i < |gaps| ==> Blank(gaps[i])
    requires forall w :: w in values ==> w.Object? && WfValue(w)
    requires v.Object? && WfValue(v) && 0 < m < |Print(v)|
    ensures |PrintAll(values)| == |values|
    ensures var log := Weave(gaps, PrintAll(values)) + Print(v)[..m];
            SplitText(log).records == PrintAll(values) && Incomplete(log)
  {
    hide Print, WfValue, Weave, Blank, SplitText;
    SplitUndoesPrint(values, gaps);
    var a, b := Weave(gaps, PrintAll(values)), Print(v)[..m];
    SplitIsIncremental(a, b);
    assert a[|a|..] + b == b;
    HalfObject(v, m);
    IncompleteIffLeftOver(a + b);
  }

  lemma HalfObject(v: Value, m: nat)
    requires v.Object? && WfValue(v) && 0 < m < |Print(v)|
    ensures SplitText(Print(v)[..m]) == Split([], 0)
  {
    hide Print, WfValue;
    var t, b := Print(v), Print(v)[..m];
    ObjectCloses(v, "");
    assert t + "" == t && b + t[m..] == t;
    if Close(START, b).Some? {
      CloseIsStable(START, b, t[m..]);
    }
    assert SpaceCount(b) == 0 && b[0..] == b;
  }
}
