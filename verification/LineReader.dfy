/** The prompt reader of `kookr spawn`: lines out of a stream of text chunks. */
module LineReader {
  import opened Wrappers

  /** A `\r?\n` match starts at `i`. */
  predicate BreakAt(s: string, i: nat) {
    i < |s| && (s[i] == '\n' || (s[i] == '\r' && i + 1 < |s| && s[i + 1] == '\n'))
  }

  /** The first match position at or after `from`. */
  function FirstBreak(s: string, from: nat): (r: Option<nat>)
    ensures r.Some? ==> from <= r.value && BreakAt(s, r.value) && forall j :: from <= j < r.value ==> !BreakAt(s, j)
    ensures r.None? ==> forall j :: from <= j ==> !BreakAt(s, j)
    decreases |s| - from
  {
    if from >= |s| then None
    else if BreakAt(s, from) then Some(from)
    else FirstBreak(s, from + 1)
  }

  function AfterBreak(s: string, i: nat): (n: nat)
    requires BreakAt(s, i)
    ensures i < n <= |s|
  {
    if s[i] == '\r' && i + 1 < |s| && s[i + 1] == '\n' then i + 2 else i + 1
  }

  /** The lines of a whole text: split at `\r?\n`, a non-empty remainder is the last line. */
  function Lines(s: string): seq<string> {
    match FirstBreak(s, 0)
    case None => if s == "" then [] else [s]
    case Some(i) => [s[..i]] + Lines(s[AfterBreak(s, i)..])
  }

  function Concat(chunks: seq<string>): string {
    if chunks == [] then "" else chunks[0] + Concat(chunks[1..])
  }

  /** A break found in what has arrived is the first break of the whole text. */
  lemma BreakIsStable(s: string, more: string)
    requires FirstBreak(s, 0).Some?
    ensures var i := FirstBreak(s, 0).value;
            && FirstBreak(s + more, 0) == Some(i) && AfterBreak(s + more, i) == AfterBreak(s, i)
            && (s + more)[..i] == s[..i]
            && (s + more)[AfterBreak(s, i)..] == s[AfterBreak(s, i)..] + more
  {
    var i := FirstBreak(s, 0).value;
    assert BreakAt(s + more, i);
    forall j | 0 <= j < i ensures !BreakAt(s + more, j) {
      assert !BreakAt(s, j);
    }
  }

  class Reader {
    var buffered: string
    /** Chunks the stream has still to deliver. */
    var chunks: seq<string>

    /** The text not yet handed out. */
    ghost function Text(): string
      reads this
    {
      buffered + Concat(chunks)
    }

    constructor (chunks: seq<string>)
      ensures Text() == Concat(chunks)
    {
      this.chunks := chunks;
      buffered := "";
    }

    method ReadPromptLine() returns (line: Option<string>)
      modifies this
      ensures old(Lines(Text())) == [] ==> line == None && Lines(Text()) == []
      ensures old(Lines(Text())) != [] ==> line.Some? && old(Lines(Text())) == [line.value] + Lines(Text())
    {
      while true
        invariant Text() == old(Text())
        decreases |chunks|
      {
        match FirstBreak(buffered, 0)
        case Some(newline) =>
          BreakIsStable(buffered, Concat(chunks));
          line := Some(buffered[..newline]);
          buffered := buffered[AfterBreak(buffered, newline)..];
          return;
        case None =>
          if chunks == [] {
            assert Text() == buffered;
            if buffered == "" {
              line := None;
            } else {
              line := Some(buffered);
              buffered := "";
              assert Text() == "";
            }
            return;
          }
          assert buffered + chunks[0] + Concat(chunks[1..]) == buffered + Concat(chunks);
          buffered, chunks := buffered + chunks[0], chunks[1..];
      }
    }
  }

  /** Reading to the end of the stream gives the lines of the whole text, however the
      text was cut into chunks. */
  method ReadAll(chunks: seq<string>) returns (lines: seq<string>)
    ensures lines == Lines(Concat(chunks))
  {
    var reader := new Reader(chunks);
    lines := [];
    var line := reader.ReadPromptLine();
    while line.Some?
      invariant line.Some? ==> Lines(Concat(chunks)) == lines + [line.value] + Lines(reader.Text())
      invariant line.None? ==> Lines(Concat(chunks)) == lines
      decreases line.Some?, |Lines(reader.Text())|
    {
      lines := lines + [line.value];
      line := reader.ReadPromptLine();
    }
  }

  /** Each line with its own line break. */
  function JoinLines(lines: seq<string>, breaks: seq<string>): string
    requires |breaks| == |lines|
  {
    if lines == [] then "" else lines[0] + breaks[0] + JoinLines(lines[1..], breaks[1..])
  }

  /** A line that a break of the given form ends where it should. */
  predicate EndsWith(line: string, end: string) {
    && '\n' !in line
    && (end == "\r\n" || (end == "\n" && (line != "" ==> line[|line| - 1] != '\r')))
  }

  /** The first line of a text that begins with a line and its break. */
  lemma FirstLine(line: string, end: string, rest: string)
    requires EndsWith(line, end)
    ensures Lines(line + end + rest) == [line] + Lines(rest)
  {
    var s, n := line + end + rest, |line|;
    assert s[n..n + |end|] == end && s[n] == end[0];
    assert |end| == 2 ==> s[n + 1] == end[1];
    assert BreakAt(s, n);
    forall j | 0 <= j < n ensures !BreakAt(s, j) {
      assert s[j] == line[j] && (j + 1 < n ==> s[j + 1] == line[j + 1]);
    }
    assert FirstBreak(s, 0) == Some(n);
    assert AfterBreak(s, n) == n + |end|;
    assert s[n + |end|..] == rest && s[..n] == line;
  }

  /** Lines without newlines survive being joined and read back, whatever mixture of breaks
      ends them (a line before a bare newline must not itself end in a carriage return), and
      so does an unterminated last line. */
  lemma {:induction false} JoinThenRead(lines: seq<string>, breaks: seq<string>, last: string)
    requires |breaks| == |lines| && forall i :: 0 <= i < |lines| ==> EndsWith(lines[i], breaks[i])
    requires '\n' !in last
    ensures Lines(JoinLines(lines, breaks) + last) == lines + if last == "" then [] else [last]
  {
    hide Lines;
    if lines == [] {
      assert "" + last == last;
      LastLine(last);
    } else {
      JoinThenRead(lines[1..], breaks[1..], last);
      var rest := JoinLines(lines[1..], breaks[1..]) + last;
      assert JoinLines(lines, breaks) + last == lines[0] + breaks[0] + rest;
      FirstLine(lines[0], breaks[0], rest);
      assert lines == [lines[0]] + lines[1..];
    }
  }

  lemma LastLine(last: string)
    requires '\n' !in last
    ensures Lines(last) == if last == "" then [] else [last]
  {
    forall j: nat ensures !BreakAt(last, j) {
    }
  }
}
