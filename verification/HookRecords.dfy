/** Splitting a hook log into records: a scanner that must undo any JSON-object printer. */
module HookRecords {
  import opened Wrappers

  // ---- the scanner ----

  /** White space as the `\s` class has it. */
  predicate IsSpace(c: char) {
    var n := c as int;
    || 9 <= n <= 13 || n == 0x20 || n == 0xA0 || n == 0x1680 || 0x2000 <= n <= 0x200A
    || n == 0x2028 || n == 0x2029 || n == 0x202F || n == 0x205F || n == 0x3000 || n == 0xFEFF
  }

  /** How many characters of leading white space. */
  function SpaceCount(t: string): (n: nat)
    ensures n <= |t| && (forall i :: 0 <= i < n ==> IsSpace(t[i])) && (n < |t| ==> !IsSpace(t[n]))
  {
    if t == "" || !IsSpace(t[0]) then 0 else 1 + SpaceCount(t[1..])
  }

  function IndexOfNewline(t: string): (r: Option<nat>)
    ensures r.Some? ==> r.value < |t| && t[r.value] == '\n' && '\n' !in t[..r.value]
    ensures r.None? ==> '\n' !in t
  {
    if t == "" then None
    else if t[0] == '\n' then Some(0)
    else match IndexOfNewline(t[1..]) case None => None case Some(n) => Some(n + 1)
  }

  /** Where the scan of an object stands. */
  datatype Mode = Mode(depth: int, inString: bool, escaped: bool)

  const START := Mode(0, false, false)

  function Step(m: Mode, ch: char): Mode {
    if m.inString then
      if m.escaped then m.(escaped := false)
      else if ch == '\\' then m.(escaped := true)
      else if ch == '"' then m.(inString := false)
      else m
    else if ch == '"' then m.(inString := true)
    else if ch == '{' then m.(depth := m.depth + 1)
    else if ch == '}' then m.(depth := m.depth - 1)
    else m
  }

  predicate Closes(m: Mode, ch: char) {
    !m.inString && ch == '}' && m.depth - 1 == 0
  }

  /** Length of the text up to and including the brace that closes the object. */
  function Close(m: Mode, t: string): (r: Option<nat>)
    ensures r.Some? ==> 0 < r.value <= |t|
    decreases |t|
  {
    if t == "" then None
    else if Closes(m, t[0]) then Some(1)
    else match Close(Step(m, t[0]), t[1..]) case None => None case Some(n) => Some(n + 1)
  }

  datatype Split = Split(records: seq<string>, consumed: nat)

  function Shift(first: seq<string>, used: nat, s: Split): Split {
    Split(first + s.records, used + s.consumed)
  }

  /** The first record of a text that does not start with white space: its length and
      how much of the text it uses up. */
  function FirstRecord(u: string): (r: Option<(nat, nat)>)
    requires u != ""
    ensures r.Some? ==> r.value.0 <= r.value.1 <= |u| && 0 < r.value.1
  {
    if u[0] == '{' then
      match Close(START, u) case None => None case Some(n) => Some((n, n))
    else
      match IndexOfNewline(u) case None => None case Some(n) => Some((n, n + 1))
  }

  function SplitText(t: string): Split
    decreases |t|
  {
    var k := SpaceCount(t);
    var u := t[k..];
    if u == "" then Split([], |t|)
    else
      match FirstRecord(u)
      case None => Split([], k)
      case Some((n, used)) => Shift([u[..n]], k + used, SplitText(u[used..]))
  }

  lemma ShiftShift(a: seq<string>, i: nat, b: seq<string>, j: nat, s: Split)
    ensures Shift(a, i, Shift(b, j, s)) == Shift(a + b, i + j, s)
  {
    assert a + (b + s.records) == a + b + s.records;
  }

  lemma SplitFirst(t: string, k: nat, n: nat, used: nat)
    requires k == SpaceCount(t) < |t| && FirstRecord(t[k..]) == Some((n, used))
    ensures SplitText(t) == Shift([t[k..k + n]], k + used, SplitText(t[k + used..]))
  {
    hide SplitText, FirstRecord, SpaceCount;
    SplitUnfolds(t, k, n, used);
    assert t[k..][..n] == t[k..k + n] && t[k..][used..] == t[k + used..];
  }

  lemma SplitUnfolds(t: string, k: nat, n: nat, used: nat)
    requires k == SpaceCount(t) < |t| && FirstRecord(t[k..]) == Some((n, used))
    ensures SplitText(t) == Shift([t[k..][..n]], k + used, SplitText(t[k..][used..]))
  {
  }

  /** `records` are the records of the first `i` characters, and splitting may go on there. */
  ghost predicate SplitUpTo(content: string, records: seq<string>, i: nat) {
    i <= |content| && SplitText(content) == Shift(records, i, SplitText(content[i..]))
  }

  lemma SplitOn(content: string, records: seq<string>, from: nat, start: nat, n: nat, used: nat)
    requires SplitUpTo(content, records, from)
    requires from <= start < |content| && SpaceCount(content[from..]) == start - from
    requires FirstRecord(content[start..]) == Some((n, used))
    ensures SplitUpTo(content, records + [content[start..start + n]], start + used)
  {
    hide SplitText, FirstRecord, SpaceCount;
    var t, k := content[from..], start - from;
    assert t[k..] == content[start..];
    SplitFirst(t, k, n, used);
    assert t[k..k + n] == content[start..start + n] && t[k + used..] == content[start + used..];
    ShiftShift(records, from, [content[start..start + n]], k + used, SplitText(content[start + used..]));
  }

  lemma SplitEnds(content: string, records: seq<string>, from: nat, start: nat)
    requires SplitUpTo(content, records, from)
    requires from <= start <= |content| && SpaceCount(content[from..]) == start - from
    requires start < |content| ==> FirstRecord(content[start..]).None?
    ensures SplitText(content) == Split(records, start)
  {
    assert content[from..][start - from..] == content[start..];
    assert records + [] == records;
  }

  method SplitJsonRecords(content: string) returns (records: seq<string>, consumedChars: nat)
    ensures Split(records, consumedChars) == SplitText(content)
  {
    hide SplitText, Close, SpaceCount, IndexOfNewline, SplitUpTo, FirstRecord;
    records, consumedChars := [], 0;
    var i := 0;
    SplitBegins(content);
    while i < |content|
      invariant i <= |content| && consumedChars == i
      invariant SplitUpTo(content, records, i)
    {
      ghost var from := i;
      i := SkipSpace(content, i);
      consumedChars := i;
      if i >= |content| {
        SplitEnds(content, records, from, i);
        return;
      }
      var start := i;
      if content[i] != '{' {
        var lineEnd := IndexOfNewline(content[i..]);
        FirstIsLine(content[i..]);
        if lineEnd.None? {
          SplitEnds(content, records, from, start);
          return;
        }
        SplitOn(content, records, from, start, lineEnd.value, lineEnd.value + 1);
        records := records + [content[start..start + lineEnd.value]];
        i := start + lineEnd.value + 1;
      } else {
        var end := ScanObject(content, i);
        FirstIsObject(content[i..]);
        if end.None? {
          SplitEnds(content, records, from, start);
          return;
        }
        SplitOn(content, records, from, start, end.value - start, end.value - start);
        i := end.value;
        records := records + [content[start..i]];
      }
      consumedChars := i;
    }
    NoSpace(content, i);
    SplitEnds(content, records, i, i);
  }

  lemma SplitBegins(content: string)
    ensures SplitUpTo(content, [], 0)
  {
    assert content[0..] == content && [] + SplitText(content).records == SplitText(content).records;
  }

  lemma FirstIsLine(u: string)
    requires u != "" && u[0] != '{'
    ensures FirstRecord(u) == match IndexOfNewline(u) case None => None case Some(n) => Some((n, n + 1))
  {
  }

  lemma FirstIsObject(u: string)
    requires u != "" && u[0] == '{'
    ensures FirstRecord(u) == match Close(START, u) case None => None case Some(n) => Some((n, n))
  {
  }

  lemma NoSpace(content: string, i: nat)
    requires i == |content|
    ensures SpaceCount(content[i..]) == 0
  {
  }

  method SkipSpace(content: string, from: nat) returns (i: nat)
    requires from <= |content|
    ensures i == from + SpaceCount(content[from..])
  {
    ghost var t := content[from..];
    i := from;
    while i < |content| && IsSpace(content[i])
      invariant from <= i <= from + SpaceCount(t)
    {
      assert content[i] == t[i - from];
      i := i + 1;
    }
    assert i - from < |t| ==> t[i - from] == content[i];
  }

  /** The inner loop: the end of the object that starts at `from`. */
  method ScanObject(content: string, from: nat) returns (end: Option<nat>)
    requires from < |content|
    ensures end == Moved(Close(START, content[from..]), from)
  {
    hide Close;
    CloseEnd(START);
    var i, depth, inString, escaped := from, 0, false, false;
    while i < |content|
      invariant from <= i <= |content|
      invariant Close(START, content[from..]) == Moved(Close(Mode(depth, inString, escaped), content[i..]), i - from)
    {
      var ch := content[i];
      CloseNext(Mode(depth, inString, escaped), content, i);
      if inString {
        if escaped {
          escaped := false;
        } else if ch == '\\' {
          escaped := true;
        } else if ch == '"' {
          inString := false;
        }
      } else if ch == '"' {
        inString := true;
      } else if ch == '{' {
        depth := depth + 1;
      } else if ch == '}' {
        depth := depth - 1;
        if depth == 0 {
          return Some(i + 1);
        }
      }
      i := i + 1;
    }
    CloseEnd(Mode(depth, inString, escaped));
    end := None;
  }

  /** A position found in a text that starts `far` characters further on. */
  function Moved(end: Option<nat>, far: nat): Option<nat> {
    match end case None => None case Some(n) => Some(far + n)
  }

  lemma CloseNext(m: Mode, content: string, i: nat)
    requires i < |content|
    ensures Close(m, content[i..]) ==
            if Closes(m, content[i]) then Some(1) else Moved(Close(Step(m, content[i]), content[i + 1..]), 1)
  {
    assert content[i..][1..] == content[i + 1..];
  }

  lemma CloseEnd(m: Mode)
    ensures Close(m, "") == None
  {
  }

  // ---- splitting is incremental and lossless ----

  lemma {:induction false} SpaceCountOf(ws: string, t: string)
    requires Blank(ws)
    ensures SpaceCount(ws + t) == |ws| + SpaceCount(t)
  {
    if ws == "" {
      assert ws + t == t;
    } else {
      assert (ws + t)[1..] == ws[1..] + t;
      SpaceCountOf(ws[1..], t);
    }
  }

  /** Leading white space is consumed and otherwise does not matter. */
  lemma SplitAfterSpace(ws: string, t: string)
    requires Blank(ws)
    ensures SplitText(ws + t) == Shift([], |ws|, SplitText(t))
  {
    SpaceCountOf(ws, t);
    assert (ws + t)[SpaceCount(ws + t)..] == t[SpaceCount(t)..];
    var s := SplitText(t);
    assert [] + s.records == s.records;
  }

  /** White space, character by character. */
  lemma SpaceIsListed(c: char)
    ensures IsSpace(c) <==>
            c as int in {0x09, 0x0A, 0x0B, 0x0C, 0x0D, 0x20, 0xA0, 0x1680, 0x2000, 0x2001, 0x2002, 0x2003, 0x2004, 0x2005,
                         0x2006, 0x2007, 0x2008, 0x2009, 0x200A, 0x2028, 0x2029, 0x202F, 0x205F, 0x3000, 0xFEFF}
  {
  }

  lemma {:induction false} NewlineAt(line: string, rest: string)
    requires '\n' !in line
    ensures IndexOfNewline(line + "\n" + rest) == Some(|line|)
    ensures IndexOfNewline(line) == None
  {
    if line == "" {
      assert line + "\n" + rest == "\n" + rest;
    } else {
      assert (line + "\n" + rest)[1..] == line[1..] + "\n" + rest;
      NewlineAt(line[1..], rest);
    }
  }

  /** A record that is no object is the text up to the first newline, which is dropped. */
  lemma LineRecord(ws: string, line: string, rest: string)
    requires Blank(ws) && line != "" && line[0] != '{' && !IsSpace(line[0]) && '\n' !in line
    ensures var s := SplitText(ws + (line + "\n" + rest));
            && s.records == [line] + SplitText(rest).records
            && s.consumed == |ws| + |line| + 1 + SplitText(rest).consumed
    ensures SplitText(ws + line) == Split([], |ws|)
  {
    hide SplitText, FirstRecord, IsSpace;
    var u := line + "\n" + rest;
    NewlineAt(line, rest);
    FirstLine(line, rest);
    assert SpaceCount(u) == 0 && u[0] == line[0];
    SplitFirst(u, 0, |line|, |line| + 1) by { assert u[0..] == u; }
    assert u[0..|line|] == line && u[|line| + 1..] == rest;
    SplitAfterSpace(ws, u);
    ShiftOf([line], |line| + 1, SplitText(rest));
    ShiftOf([], |ws|, SplitText(u));
    SplitAfterSpace(ws, line);
    assert SpaceCount(line) == 0;
    NoRecord(line);
    ShiftOf([], |ws|, SplitText(line));
  }

  lemma FirstLine(line: string, rest: string)
    requires line != "" && line[0] != '{' && '\n' !in line
    ensures FirstRecord(line + "\n" + rest) == Some((|line|, |line| + 1)) && FirstRecord(line) == None
  {
    NewlineAt(line, rest);
    assert (line + "\n" + rest)[0] == line[0];
  }

  lemma NoRecord(line: string)
    requires line != "" && !IsSpace(line[0]) && FirstRecord(line) == None
    ensures SplitText(line) == Split([], 0)
  {
    hide FirstRecord;
    assert SpaceCount(line) == 0 && line[0..] == line;
  }

  lemma {:induction false} CloseIsStable(m: Mode, t: string, more: string)
    requires Close(m, t).Some?
    ensures Close(m, t + more) == Close(m, t)
    decreases |t|
  {
    if !Closes(m, t[0]) {
      assert (t + more)[1..] == t[1..] + more;
      CloseIsStable(Step(m, t[0]), t[1..], more);
    }
  }

  lemma {:induction false} NewlineIsStable(t: string, more: string)
    requires IndexOfNewline(t).Some?
    ensures IndexOfNewline(t + more) == IndexOfNewline(t)
  {
    if t[0] != '\n' {
      assert (t + more)[1..] == t[1..] + more;
      NewlineIsStable(t[1..], more);
    }
  }

  lemma FirstRecordIsStable(u: string, more: string)
    requires u != "" && FirstRecord(u).Some?
    ensures FirstRecord(u + more) == FirstRecord(u)
  {
    if u[0] == '{' {
      CloseIsStable(START, u, more);
    } else {
      NewlineIsStable(u, more);
    }
  }

  lemma {:induction false} ConsumedInRange(t: string)
    ensures SplitText(t).consumed <= |t|
    decreases |t|
  {
    var k := SpaceCount(t);
    var u := t[k..];
    if u != "" && FirstRecord(u).Some? {
      ConsumedInRange(u[FirstRecord(u).value.1..]);
    }
  }

  /** Splitting what has arrived and later the unconsumed rest with what came since is
      splitting everything at once. */
  lemma {:induction false} SplitIsIncremental(a: string, b: string)
    ensures SplitText(a).consumed <= |a|
    ensures var s := SplitText(a);
            SplitText(a + b) == Shift(s.records, s.consumed, SplitText(a[s.consumed..] + b))
    decreases |a|
  {
    ConsumedInRange(a);
    var k := SpaceCount(a);
    if k == |a| || FirstRecord(a[k..]).None? {
      var s := SplitText(a);
      assert a + b == a[..k] + (a[k..] + b);
      SplitAfterSpace(a[..k], a[k..] + b);
    } else {
      var (n, used) := FirstRecord(a[k..]).value;
      SplitIsIncremental(a[k + used..], b);
      SplitFirst(a, k, n, used);
      IncrementalStep(a, b, k, n, used);
    }
  }

  lemma FirstRecordStays(a: string, b: string, k: nat)
    requires k == SpaceCount(a) < |a| && FirstRecord(a[k..]).Some?
    ensures SpaceCount(a + b) == k && FirstRecord((a + b)[k..]) == FirstRecord(a[k..])
  {
    hide FirstRecord;
    var ws, u := a[..k], a[k..];
    assert a + b == ws + (u + b);
    SpaceCountOf(ws, u + b);
    assert (u + b)[0] == u[0] && SpaceCount(u + b) == 0;
    FirstRecordIsStable(u, b);
    assert (a + b)[k..] == u + b;
  }

  lemma IncrementalStep(a: string, b: string, k: nat, n: nat, used: nat)
    requires k == SpaceCount(a) < |a| && FirstRecord(a[k..]) == Some((n, used))
    requires var rest := a[k + used..];
             var r := SplitText(rest);
             && r.consumed <= |rest|
             && SplitText(rest + b) == Shift(r.records, r.consumed, SplitText(rest[r.consumed..] + b))
             && SplitText(a) == Shift([a[k..k + n]], k + used, r)
    ensures var s := SplitText(a);
            s.consumed <= |a| && SplitText(a + b) == Shift(s.records, s.consumed, SplitText(a[s.consumed..] + b))
  {
    hide SplitText, FirstRecord, SpaceCount, Shift;
    FirstRecordStays(a, b, k);
    SplitFirst(a + b, k, n, used);
    var rest := a[k + used..];
    var r := SplitText(rest);
    assert (a + b)[k..k + n] == a[k..k + n] && (a + b)[k + used..] == rest + b;
    assert a[k + used + r.consumed..] == rest[r.consumed..];
    var tail := SplitText(rest[r.consumed..] + b);
    ShiftShift([a[k..k + n]], k + used, r.records, r.consumed, tail);
    ShiftOf([a[k..k + n]], k + used, r);
  }

  lemma ShiftOf(first: seq<string>, used: nat, s: Split)
    ensures Shift(first, used, s).records == first + s.records && Shift(first, used, s).consumed == used + s.consumed
  {
  }

  /** The capture refuses a log whose unconsumed rest is more than white space. */
  predicate Incomplete(content: string) {
    var consumed := SplitText(content).consumed;
    consumed > |content| || !Blank(content[consumed..])
  }

  /** That is the case exactly when something is left over. */
  lemma {:induction false} IncompleteIffLeftOver(t: string)
    ensures SplitText(t).consumed < |t| ==> !IsSpace(t[SplitText(t).consumed])
    ensures Incomplete(t) <==> SplitText(t).consumed < |t|
    decreases |t|
  {
    ConsumedInRange(t);
    var k := SpaceCount(t);
    if k < |t| && FirstRecord(t[k..]).Some? {
      var (n, used) := FirstRecord(t[k..]).value;
      SplitFirst(t, k, n, used);
      IncompleteIffLeftOver(t[k + used..]);
    }
    var c := SplitText(t).consumed;
    assert c < |t| ==> t[c..][0] == t[c];
  }

  predicate Blank(s: string) {
    forall i :: 0 <= i < |s| ==> IsSpace(s[i])
  }

  /** The gaps and records in turn, starting and ending with a gap. */
  function Weave(gaps: seq<string>, records: seq<string>): string
    requires |gaps| == |records| + 1
  {
    if records == [] then gaps[0] else gaps[0] + records[0] + Weave(gaps[1..], records[1..])
  }

  /** The consumed text is the records in order with nothing but white space between. */
  lemma {:induction false} SplitIsLossless(t: string) returns (gaps: seq<string>)
    ensures |gaps| == |SplitText(t).records| + 1 && forall i :: 0 <= i < |gaps| ==> Blank(gaps[i])
    ensures SplitText(t).consumed <= |t| && Weave(gaps, SplitText(t).records) == t[..SplitText(t).consumed]
    decreases |t|
  {
    ConsumedInRange(t);
    var k := SpaceCount(t);
    if k == |t| || FirstRecord(t[k..]).None? {
      gaps := [t[..k]];
    } else {
      var (n, used) := FirstRecord(t[k..]).value;
      var inner := SplitIsLossless(t[k + used..]);
      SplitFirst(t, k, n, used);
      DroppedIsBlank(t[k..], n, used);
      gaps := WeaveStep(t, k, n, used, inner);
    }
  }

  lemma DroppedIsBlank(u: string, n: nat, used: nat)
    requires u != "" && FirstRecord(u) == Some((n, used))
    ensures Blank(u[n..used])
  {
  }

  lemma WeaveStep(t: string, k: nat, n: nat, used: nat, inner: seq<string>) returns (gaps: seq<string>)
    requires n <= used && k + used <= |t| && Blank(t[..k]) && Blank(t[k..][n..used])
    requires var r := SplitText(t[k + used..]);
             && SplitText(t) == Shift([t[k..k + n]], k + used, r) && r.consumed <= |t| - k - used
             && |inner| == |r.records| + 1 && (forall i :: 0 <= i < |inner| ==> Blank(inner[i]))
             && Weave(inner, r.records) == t[k + used..][..r.consumed]
    ensures |gaps| == |SplitText(t).records| + 1 && forall i :: 0 <= i < |gaps| ==> Blank(gaps[i])
    ensures Weave(gaps, SplitText(t).records) == t[..SplitText(t).consumed]
  {
    hide SplitText, FirstRecord, SpaceCount;
    var r := SplitText(t[k + used..]);
    var dropped := t[k..][n..used];
    var gaps' := [dropped + inner[0]] + inner[1..];
    gaps := [t[..k]] + gaps';
    WeaveGap(dropped, inner, r.records);
    var records := [t[k..k + n]] + r.records;
    assert gaps[1..] == gaps' && records[1..] == r.records;
    SliceJoin(t, k, n, used, r.consumed);
  }

  lemma SliceJoin(t: string, k: nat, n: nat, used: nat, c: nat)
    requires n <= used && k + used + c <= |t|
    ensures t[..k] + t[k..k + n] + (t[k..][n..used] + t[k + used..][..c]) == t[..k + used + c]
  {
  }

  lemma WeaveGap(gap: string, gaps: seq<string>, records: seq<string>)
    requires |gaps| == |records| + 1
    ensures Weave([gap + gaps[0]] + gaps[1..], records) == gap + Weave(gaps, records)
  {
    var g := [gap + gaps[0]] + gaps[1..];
    assert g[1..] == gaps[1..];
    if records != [] {
      JoinAssociates(gap, gaps[0], records[0], Weave(gaps[1..], records[1..]));
    }
  }

  lemma JoinAssociates(a: string, b: string, c: string, d: string)
    ensures a + (b + c + d) == a + b + c + d
  {
  }
}
