/** Label escaping of the relay's Prometheus exposition, and the reader it must satisfy. */
module PrometheusLabels {
  import opened Wrappers

  datatype Label = Label(name: string, value: string)

  // ---- the exposition ----

  /** One global replacement pass: every `c` becomes `to`. */
  function ReplaceAll(s: string, c: char, to: string): string {
    if s == "" then "" else (if s[0] == c then to else [s[0]]) + ReplaceAll(s[1..], c, to)
  }

  function EscapeLabelValue(value: string): string {
    ReplaceAll(ReplaceAll(ReplaceAll(value, '\\', "\\\\"), '\n', "\\n"), '"', "\\\"")
  }

  function FormatEntry(l: Label): string {
    l.name + "=\"" + EscapeLabelValue(l.value) + "\""
  }

  function JoinEntries(labels: seq<Label>): string
    requires labels != []
  {
    if |labels| == 1 then FormatEntry(labels[0]) else FormatEntry(labels[0]) + "," + JoinEntries(labels[1..])
  }

  function FormatLabels(labels: seq<Label>): string {
    if labels == [] then "" else "{" + JoinEntries(labels) + "}"
  }

  // ---- the text format 0.0.4, as a reader sees it ----

  /** What a reader of the format makes of an escape sequence. */
  function Unescaped(c: char): Option<char> {
    match c
    case '\\' => Some('\\')
    case 'n' => Some('\n')
    case '"' => Some('"')
    case _ => None
  }

  /** Reads a label value up to its closing quote: the value and the text after the quote.
      A raw newline or an unknown escape is an error. */
  function ReadValue(s: string): (r: Option<(string, string)>)
    ensures r.Some? ==> |r.value.1| < |s|
  {
    if s == "" || s[0] == '\n' then None
    else if s[0] == '"' then Some(("", s[1..]))
    else if s[0] == '\\' then
      if |s| < 2 || Unescaped(s[1]).None? then None
      else
        match ReadValue(s[2..])
        case None => None
        case Some((v, rest)) => Some(([Unescaped(s[1]).value] + v, rest))
    else
      match ReadValue(s[1..])
      case None => None
      case Some((v, rest)) => Some(([s[0]] + v, rest))
  }

  predicate NameStart(c: char) {
    'a' <= c <= 'z' || 'A' <= c <= 'Z' || c == '_'
  }

  predicate NameChar(c: char) {
    NameStart(c) || '0' <= c <= '9'
  }

  predicate WellFormedName(name: string) {
    name != "" && NameStart(name[0]) && forall i :: 0 <= i < |name| ==> NameChar(name[i])
  }

  function NameLength(s: string): (n: nat)
    ensures n <= |s|
  {
    if s == "" || !NameChar(s[0]) then 0 else 1 + NameLength(s[1..])
  }

  /** Reads `name="value"` entries separated by commas up to the closing brace. */
  function ReadEntries(s: string): Option<(seq<Label>, string)>
    decreases |s|
  {
    var n := NameLength(s);
    if !(n > 0 && n + 2 <= |s| && s[n] == '=' && s[n + 1] == '"') then None
    else
      match ReadValue(s[n + 2..])
      case None => None
      case Some((v, rest)) =>
        if rest == "" then None
        else if rest[0] == '}' then Some(([Label(s[..n], v)], rest[1..]))
        else if rest[0] != ',' then None
        else
          match ReadEntries(rest[1..])
          case None => None
          case Some((ls, after)) => Some(([Label(s[..n], v)] + ls, after))
  }

  /** Reads the label block after a metric name: the labels and the text that follows. */
  function ReadLabels(s: string): Option<(seq<Label>, string)> {
    if s == "" || s[0] != '{' then Some(([], s)) else ReadEntries(s[1..])
  }

  // ---- three passes are one left-to-right escape ----

  function EscapeChar(c: char): string {
    match c
    case '\\' => "\\\\"
    case '\n' => "\\n"
    case '"' => "\\\""
    case _ => [c]
  }

  function EscapeOnce(s: string): string {
    if s == "" then "" else EscapeChar(s[0]) + EscapeOnce(s[1..])
  }

  lemma {:induction false} ReplaceAllConcat(a: string, b: string, c: char, to: string)
    ensures ReplaceAll(a + b, c, to) == ReplaceAll(a, c, to) + ReplaceAll(b, c, to)
  {
    if a == "" {
      assert a + b == b;
    } else {
      assert (a + b)[1..] == a[1..] + b;
      ReplaceAllConcat(a[1..], b, c, to);
    }
  }

  lemma ReplaceAllShort(a: char, b: char, c: char, to: string)
    ensures ReplaceAll([a], c, to) == if a == c then to else [a]
    ensures ReplaceAll([a, b], c, to) == (if a == c then to else [a]) + (if b == c then to else [b])
  {
    assert [a][1..] == "";
    assert [a, b][1..] == [b] && [b][1..] == "";
  }

  lemma EscapeOneChar(c: char)
    ensures EscapeLabelValue([c]) == EscapeChar(c)
  {
    ReplaceAllShort(c, c, '\\', "\\\\");
    ReplaceAllShort(c, c, '\n', "\\n");
    ReplaceAllShort(c, c, '"', "\\\"");
    ReplaceAllShort('\\', '\\', '\n', "\\n");
    ReplaceAllShort('\\', '\\', '"', "\\\"");
    ReplaceAllShort('\\', 'n', '"', "\\\"");
  }

  lemma {:induction false} EscapeIsOnePass(value: string)
    ensures EscapeLabelValue(value) == EscapeOnce(value)
  {
    if value != "" {
      var c, rest := [value[0]], value[1..];
      assert value == c + rest;
      EscapeIsOnePass(rest);
      ReplaceAllConcat(c, rest, '\\', "\\\\");
      var c1, r1 := ReplaceAll(c, '\\', "\\\\"), ReplaceAll(rest, '\\', "\\\\");
      ReplaceAllConcat(c1, r1, '\n', "\\n");
      ReplaceAllConcat(ReplaceAll(c1, '\n', "\\n"), ReplaceAll(r1, '\n', "\\n"), '"', "\\\"");
      EscapeOneChar(value[0]);
    }
  }

  // ---- the reader undoes the escape ----

  lemma ReadOneChar(c: char, tail: string)
    ensures ReadValue(EscapeChar(c) + tail) ==
            match ReadValue(tail) case None => None case Some((v, rest)) => Some(([c] + v, rest))
  {
    var s := EscapeChar(c) + tail;
    assert s[|EscapeChar(c)|..] == tail;
  }

  lemma {:induction false} ReadEscaped(value: string, rest: string)
    ensures ReadValue(EscapeLabelValue(value) + "\"" + rest) == Some((value, rest))
  {
    hide ReadValue, EscapeLabelValue, EscapeChar;
    EscapeIsOnePass(value);
    if value == "" {
      assert EscapeOnce(value) + "\"" + rest == "\"" + rest;
      ReadQuote(rest);
    } else {
      var tail := EscapeOnce(value[1..]) + "\"" + rest;
      assert EscapeOnce(value) + "\"" + rest == EscapeChar(value[0]) + tail;
      EscapeIsOnePass(value[1..]);
      ReadEscaped(value[1..], rest);
      ReadOneChar(value[0], tail);
      assert value == [value[0]] + value[1..];
    }
  }

  lemma ReadQuote(rest: string)
    ensures ReadValue("\"" + rest) == Some(("", rest))
  {
  }

  lemma {:induction false} EscapedIsOneLine(value: string)
    ensures '\n' !in EscapeLabelValue(value)
  {
    EscapeIsOnePass(value);
    if value != "" {
      EscapeIsOnePass(value[1..]);
      EscapedIsOneLine(value[1..]);
    }
  }

  lemma {:induction false} NameLengthOf(name: string, rest: string)
    requires (forall i :: 0 <= i < |name| ==> NameChar(name[i])) && (rest == "" || !NameChar(rest[0]))
    ensures NameLength(name + rest) == |name|
  {
    if name == "" {
      assert name + rest == rest;
    } else {
      assert (name + rest)[1..] == name[1..] + rest;
      NameLengthOf(name[1..], rest);
    }
  }

  lemma ReadEntry(l: Label, rest: string)
    requires WellFormedName(l.name)
    ensures var s := FormatEntry(l) + rest;
            && NameLength(s) == |l.name| > 0 && s[..|l.name|] == l.name
            && |l.name| + 2 <= |s| && s[|l.name|] == '=' && s[|l.name| + 1] == '"'
            && ReadValue(s[|l.name| + 2..]) == Some((l.value, rest))
  {
    var s, tail := FormatEntry(l) + rest, EscapeLabelValue(l.value) + "\"" + rest;
    assert s == l.name + ("=\"" + tail);
    NameLengthOf(l.name, "=\"" + tail);
    assert s[|l.name| + 2..] == tail;
    ReadEscaped(l.value, rest);
  }

  lemma {:induction false} ReadJoined(labels: seq<Label>, after: string)
    requires labels != [] && forall i :: 0 <= i < |labels| ==> WellFormedName(labels[i].name)
    ensures ReadEntries(JoinEntries(labels) + "}" + after) == Some((labels, after))
  {
    hide ReadValue, FormatEntry, WellFormedName, NameLength;
    var l := labels[0];
    var s := JoinEntries(labels) + "}" + after;
    if |labels| == 1 {
      var rest := "}" + after;
      assert s == FormatEntry(l) + rest;
      ReadEntry(l, rest);
      assert labels == [l] && rest[1..] == after;
    } else {
      var inner := JoinEntries(labels[1..]) + "}" + after;
      assert s == FormatEntry(l) + ("," + inner);
      ReadEntry(l, "," + inner);
      assert ("," + inner)[1..] == inner;
      ReadJoined(labels[1..], after);
      assert labels == [l] + labels[1..];
    }
  }

  lemma BlockOf(labels: seq<Label>)
    requires labels != []
    ensures FormatLabels(labels) == "{" + JoinEntries(labels) + "}"
  {
  }

  lemma DropBrace(inner: string, after: string)
    ensures var s := "{" + inner + "}" + after; s[0] == '{' && s[1..] == inner + "}" + after
  {
  }

  /** Reading a formatted label block gives back the labels, whatever their values and
      whatever follows the block. */
  lemma FormatThenRead(labels: seq<Label>, after: string)
    requires forall i :: 0 <= i < |labels| ==> WellFormedName(labels[i].name)
    requires after == "" || after[0] != '{'
    ensures ReadLabels(FormatLabels(labels) + after) == Some((labels, after))
  {
    var s := FormatLabels(labels) + after;
    if labels == [] {
      assert s == after;
    } else {
      ReadJoined(labels, after);
      DropBrace(JoinEntries(labels), after);
      assert FormatLabels(labels) == "{" + JoinEntries(labels) + "}" by { BlockOf(labels); }
    }
  }

  lemma FormatLabelsInjective(a: seq<Label>, b: seq<Label>)
    requires forall i :: 0 <= i < |a| ==> WellFormedName(a[i].name)
    requires forall i :: 0 <= i < |b| ==> WellFormedName(b[i].name)
    requires FormatLabels(a) == FormatLabels(b)
    ensures a == b
  {
    assert FormatLabels(a) + "" == FormatLabels(a) && FormatLabels(b) + "" == FormatLabels(b);
    FormatThenRead(a, "");
    FormatThenRead(b, "");
  }
}
