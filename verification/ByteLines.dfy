/** Reading lines from byte chunks: each chunk is decoded on its own, so the result is right
    exactly when no chunk boundary falls inside a code point. */
module ByteLines {
  import opened Wrappers
  import U = Utf8
  import L = LineReader

  const REPLACEMENT := 0xFFFD as char

  // ---- the platform's decoder ----

  /** How many continuation bytes come first. */
  function ContinuationCount(b: seq<int>): (n: nat)
    ensures n <= |b| && forall i :: 0 <= i < n ==> U.IsContinuation(b[i])
  {
    if b == [] || !U.IsContinuation(b[0]) then 0 else 1 + ContinuationCount(b[1..])
  }

  /** The bytes that one replacement character stands for: a byte and perhaps continuation
      bytes behind it, as many as the decoder cares to take (`wanted`). */
  function Covered(wanted: seq<int> -> nat, b: seq<int>): (n: nat)
    requires b != []
    ensures 1 <= n <= |b| && forall i :: 1 <= i < n ==> U.IsContinuation(b[i])
  {
    var most := 1 + ContinuationCount(b[1..]);
    if wanted(b) < 1 then 1 else if wanted(b) < most then wanted(b) else most
  }

  /** Code points where there are some, replacement characters for what is none. */
  function ToText(wanted: seq<int> -> nat, b: seq<int>): string
    decreases |b|
  {
    if b == [] then ""
    else
      match U.DecodeFirst(b)
      case Some((c, len)) => if 0 < len <= |b| then [c] + ToText(wanted, b[len..]) else ""
      case None => [REPLACEMENT] + ToText(wanted, b[Covered(wanted, b)..])
  }

  function JoinBytes(chunks: seq<seq<int>>): seq<int> {
    if chunks == [] then [] else chunks[0] + JoinBytes(chunks[1..])
  }

  /** The chunks as the reader sees them. */
  function Texts(wanted: seq<int> -> nat, chunks: seq<seq<int>>): seq<string> {
    if chunks == [] then [] else [ToText(wanted, chunks[0])] + Texts(wanted, chunks[1..])
  }

  /** All that the reader sees. */
  function Received(wanted: seq<int> -> nat, chunks: seq<seq<int>>): string {
    L.Concat(Texts(wanted, chunks))
  }

  lemma ReceivedFirst(wanted: seq<int> -> nat, chunks: seq<seq<int>>)
    requires chunks != []
    ensures Received(wanted, chunks) == ToText(wanted, chunks[0]) + Received(wanted, chunks[1..])
  {
    assert Texts(wanted, chunks)[1..] == Texts(wanted, chunks[1..]);
  }

  /** Every chunk is whole code points. */
  predicate CutsBetweenCodePoints(chunks: seq<seq<int>>) {
    forall i :: 0 <= i < |chunks| ==> U.Decode(chunks[i]).Some?
  }

  lemma EncodeOne(c: char)
    ensures U.Encode([c]) == U.CharBytes(c)
  {
    assert [c][..0] == "" && U.Encode("") == [];
  }

  lemma DecodesChar(wanted: seq<int> -> nat, c: char, tail: seq<int>)
    ensures ToText(wanted, U.CharBytes(c) + tail) == [c] + ToText(wanted, tail)
  {
    hide U.CharBytes, U.DecodeFirst;
    U.DecodeOne(c, tail);
    assert (U.CharBytes(c) + tail)[|U.CharBytes(c)|..] == tail;
  }

  lemma EncodeFirst(s: string, rest: seq<int>)
    requires s != ""
    ensures U.Encode(s) + rest == U.CharBytes(s[0]) + (U.Encode(s[1..]) + rest)
  {
    hide U.CharBytes, U.Encode;
    U.EncodeConcat([s[0]], s[1..]);
    EncodeOne(s[0]);
    assert s == [s[0]] + s[1..];
  }

  /** Whole code points at the front are decoded as they are. */
  lemma {:induction false} DecodesFront(wanted: seq<int> -> nat, s: string, rest: seq<int>)
    ensures ToText(wanted, U.Encode(s) + rest) == s + ToText(wanted, rest)
    decreases |s|
  {
    hide U.CharBytes, U.Encode, ToText;
    if s == "" {
      U.EncodeEmpty("");
      assert U.Encode(s) + rest == rest;
    } else {
      EncodeFirst(s, rest);
      DecodesChar(wanted, s[0], U.Encode(s[1..]) + rest);
      DecodesFront(wanted, s[1..], rest);
      assert s == [s[0]] + s[1..];
    }
  }

  // ---- chunks of whole code points ----

  lemma FirstIsEncoded(b: seq<int>)
    requires b != [] && U.DecodeFirst(b).Some?
    ensures var (c, len) := U.DecodeFirst(b).value; 0 < len <= |b| && U.CharBytes(c) == b[..len]
  {
    hide U.CharBytes;
  }

  lemma {:induction false} DecodeThenEncode(b: seq<int>)
    ensures U.Decode(b).Some? ==> U.Encode(U.Decode(b).value) == b
    decreases |b|
  {
    hide U.DecodeFirst, U.CharBytes, U.Encode;
    if b == [] {
      U.EncodeEmpty("");
    } else if U.Decode(b).Some? {
      FirstIsEncoded(b);
      var (c, len) := U.DecodeFirst(b).value;
      DecodeThenEncode(b[len..]);
      var rest := U.Decode(b[len..]).value;
      U.EncodeConcat([c], rest);
      EncodeOne(c);
      assert b == b[..len] + b[len..];
    }
  }

  /** Chunks cut between code points are received as the text of the whole. */
  lemma {:induction false} WholeChunks(wanted: seq<int> -> nat, chunks: seq<seq<int>>)
    requires CutsBetweenCodePoints(chunks)
    ensures U.Encode(Received(wanted, chunks)) == JoinBytes(chunks)
  {
    hide U.Encode, U.Decode, ToText, Received;
    if chunks == [] {
      NothingReceived(wanted);
      U.EncodeEmpty("");
    } else {
      assert CutsBetweenCodePoints(chunks[1..]);
      WholeChunks(wanted, chunks[1..]);
      DecodeThenEncode(chunks[0]);
      var first := U.Decode(chunks[0]).value;
      DecodesFront(wanted, first, []);
      EmptyText(wanted);
      assert U.Encode(first) + [] == chunks[0] && first + "" == first;
      ReceivedFirst(wanted, chunks);
      U.EncodeConcat(first, Received(wanted, chunks[1..]));
    }
  }

  lemma EmptyText(wanted: seq<int> -> nat)
    ensures ToText(wanted, []) == ""
  {
  }

  lemma NothingReceived(wanted: seq<int> -> nat)
    ensures Received(wanted, []) == ""
  {
  }

  // ---- a torn code point leaves more replacement characters than were sent ----

  function Marks(s: string): nat {
    multiset(s)[REPLACEMENT]
  }

  lemma MarksOf(a: string, b: string)
    ensures Marks(a + b) == Marks(a) + Marks(b)
    ensures Marks([REPLACEMENT] + b) == 1 + Marks(b)
    ensures |a| == 1 ==> Marks(a) <= 1
  {
    assert multiset([REPLACEMENT] + b) == multiset([REPLACEMENT]) + multiset(b);
  }

  predicate AllContinuation(t: seq<int>) {
    forall i :: 0 <= i < |t| ==> U.IsContinuation(t[i])
  }

  lemma ContinuationIsNoStart(b: seq<int>)
    requires b != [] && U.IsContinuation(b[0])
    ensures U.DecodeFirst(b).None?
  {
    hide U.CharBytes;
    if U.DecodeFirst(b).Some? {
      FirstIsEncoded(b);
    }
  }

  /** The end of a code point at the start of a chunk leaves a mark. */
  lemma {:induction false} TailLeavesMark(wanted: seq<int> -> nat, t: seq<int>, rest: seq<int>)
    requires AllContinuation(t) && (rest != [] ==> !U.IsContinuation(rest[0]))
    ensures Marks(ToText(wanted, t + rest)) >= Marks(ToText(wanted, rest)) + if t == [] then 0 else 1
    decreases |t|
  {
    hide Marks, U.DecodeFirst, U.IsContinuation;
    if t == [] {
      assert t + rest == rest;
    } else {
      var b := t + rest;
      ContinuationIsNoStart(b);
      var k := Covered(wanted, b);
      assert rest != [] ==> b[|t|] == rest[0];
      assert k <= |t|;
      assert b[k..] == t[k..] + rest;
      TailLeavesMark(wanted, t[k..], rest);
      MarksOf([REPLACEMENT], ToText(wanted, b[k..]));
    }
  }

  lemma ShortOfBytes(c: char, h: nat)
    requires 0 < h < |U.CharBytes(c)|
    ensures U.DecodeFirst(U.CharBytes(c)[..h]).None?
  {
  }

  /** So does the start of a code point at the end of a chunk. */
  lemma HeadLeavesMark(wanted: seq<int> -> nat, c: char, h: nat)
    requires 0 < h < |U.CharBytes(c)|
    ensures Marks(ToText(wanted, U.CharBytes(c)[..h])) >= 1
  {
    hide Marks, U.DecodeFirst, U.CharBytes;
    var b := U.CharBytes(c)[..h];
    ShortOfBytes(c, h);
    MarksOf([REPLACEMENT], ToText(wanted, b[Covered(wanted, b)..]));
  }

  /** A prefix of an encoded text is whole code points and the start of one more, if any. */
  lemma CutText(s: string, at: nat) returns (k: nat, h: nat)
    requires at <= |U.Encode(s)|
    ensures k <= |s| && (if k == |s| then h == 0 else h < |U.CharBytes(s[k])|)
    ensures U.Encode(s)[..at] == U.Encode(s[..k]) + (if h == 0 then [] else U.CharBytes(s[k])[..h])
    ensures U.Encode(s)[at..] == if h == 0 then U.Encode(s[k..]) else U.CharBytes(s[k])[h..] + U.Encode(s[k + 1..])
  {
    hide U.Encode, U.CharBytes;
    if at == |U.Encode(s)| {
      k, h := |s|, 0;
      assert s[..k] == s && s[k..] == "";
      U.EncodeEmpty("");
    } else {
      k := U.CutPoint(s, at);
      h := at - |U.Encode(s[..k])|;
      U.BytesOf(s, k);
      CutInside(s, k, h);
    }
  }

  lemma CutInside(s: string, k: nat, h: nat)
    requires k < |s| && h < |U.CharBytes(s[k])|
    ensures var at := |U.Encode(s[..k])| + h;
            && at <= |U.Encode(s)|
            && U.Encode(s)[..at] == U.Encode(s[..k]) + U.CharBytes(s[k])[..h]
            && U.Encode(s)[at..] == U.CharBytes(s[k])[h..] + U.Encode(s[k + 1..])
            && U.CharBytes(s[k]) + U.Encode(s[k + 1..]) == U.Encode(s[k..])
  {
    hide U.Encode, U.CharBytes;
    U.EncodeConcat(s[..k], s[k..]);
    U.EncodeConcat([s[k]], s[k + 1..]);
    EncodeOne(s[k]);
    assert s == s[..k] + s[k..] && s[k..] == [s[k]] + s[k + 1..];
    var bytes := U.CharBytes(s[k]);
    assert bytes == bytes[..h] + bytes[h..];
  }

  /** Marks of one chunk: the end of a code point, whole ones, the start of one. */
  lemma ChunkMarks(wanted: seq<int> -> nat, t: seq<int>, s: string, head: seq<int>)
    requires AllContinuation(t) && (head != [] ==> !U.IsContinuation(head[0]))
    ensures Marks(ToText(wanted, t + (U.Encode(s) + head))) >=
            (if t == [] then 0 else 1) + Marks(s) + Marks(ToText(wanted, head))
  {
    hide U.Encode, Marks, ToText;
    StartsFresh(s, head);
    TailLeavesMark(wanted, t, U.Encode(s) + head);
    DecodesFront(wanted, s, head);
    MarksOf(s, ToText(wanted, head));
  }

  lemma StartsFresh(s: string, head: seq<int>)
    requires head != [] ==> !U.IsContinuation(head[0])
    ensures U.Encode(s) + head != [] ==> !U.IsContinuation((U.Encode(s) + head)[0])
  {
    hide U.Encode, U.CharBytes, U.IsContinuation;
    if s == "" {
      U.EncodeEmpty("");
    } else {
      U.EncodeConcat([s[0]], s[1..]);
      EncodeOne(s[0]);
      assert s == [s[0]] + s[1..];
    }
  }

  /** A stream of bytes that begins inside a code point. */
  ghost predicate Carries(chunks: seq<seq<int>>, t: seq<int>, s: string) {
    AllContinuation(t) && JoinBytes(chunks) == t + U.Encode(s)
  }

  lemma JoinFirst(chunks: seq<seq<int>>)
    requires chunks != []
    ensures JoinBytes(chunks)[..|chunks[0]|] == chunks[0] && JoinBytes(chunks)[|chunks[0]|..] == JoinBytes(chunks[1..])
  {
  }

  /** What the first chunk takes of the bytes that finish a code point. */
  lemma TakesTail(chunks: seq<seq<int>>, t: seq<int>, s: string)
    requires chunks != [] && Carries(chunks, t, s) && |chunks[0]| <= |t|
    ensures Carries(chunks[1..], t[|chunks[0]|..], s) && chunks[0] == t[..|chunks[0]|]
  {
    hide U.Encode, U.IsContinuation;
    JoinFirst(chunks);
    var c := chunks[0];
    assert (t + U.Encode(s))[|c|..] == t[|c|..] + U.Encode(s);
    assert (t + U.Encode(s))[..|c|] == t[..|c|];
  }

  /** What it takes beyond them. */
  lemma TakesMore(chunks: seq<seq<int>>, t: seq<int>, s: string) returns (k: nat, h: nat)
    requires chunks != [] && Carries(chunks, t, s) && |chunks[0]| > |t|
    ensures k <= |s| && (if k == |s| then h == 0 else h < |U.CharBytes(s[k])|)
    ensures chunks[0] == t + (U.Encode(s[..k]) + if h == 0 then [] else U.CharBytes(s[k])[..h])
    ensures h == 0 ==> Carries(chunks[1..], [], s[k..])
    ensures h > 0 ==> U.CharBytes(s[k])[h..] != [] && Carries(chunks[1..], U.CharBytes(s[k])[h..], s[k + 1..])
  {
    hide U.Encode, U.CharBytes, U.IsContinuation;
    JoinFirst(chunks);
    var c := chunks[0];
    var at := |c| - |t|;
    assert (t + U.Encode(s))[..|c|] == t + U.Encode(s)[..at];
    assert (t + U.Encode(s))[|c|..] == U.Encode(s)[at..];
    k, h := CutText(s, at);
  }

  /** The text received has at least the marks of the text sent, and one more if the stream
      begins inside a code point or a chunk is cut inside one. */
  lemma {:induction false} TornLeavesMark(wanted: seq<int> -> nat, chunks: seq<seq<int>>, t: seq<int>, s: string)
    requires Carries(chunks, t, s)
    ensures Marks(Received(wanted, chunks)) >= Marks(s) + if t == [] && CutsBetweenCodePoints(chunks) then 0 else 1
    decreases |chunks|
  {
    hide U.Encode, U.CharBytes, U.IsContinuation, U.Decode, Marks, ToText, Received;
    if chunks == [] {
      U.PrefixBytes(s, 0, |s|);
      assert s[..|s|] == s && s == "" && t == [];
      NothingReceived(wanted);
    } else {
      var rest := chunks[1..];
      ReceivedFirst(wanted, chunks);
      MarksOf(ToText(wanted, chunks[0]), Received(wanted, rest));
      if |chunks[0]| <= |t| {
        TakesTail(chunks, t, s);
        TornLeavesMark(wanted, rest, t[|chunks[0]|..], s);
        TailOnly(wanted, chunks, t);
      } else {
        var k, h := TakesMore(chunks, t, s);
        MarksAt(s, k);
        if h == 0 {
          TornLeavesMark(wanted, rest, [], s[k..]);
          ChunkMarks(wanted, t, s[..k], []);
          WholeFirst(chunks, t, s[..k]);
        } else {
          TornLeavesMark(wanted, rest, U.CharBytes(s[k])[h..], s[k + 1..]);
          ChunkMarks(wanted, t, s[..k], U.CharBytes(s[k])[..h]);
          HeadLeavesMark(wanted, s[k], h);
        }
      }
    }
  }

  lemma MarksAt(s: string, k: nat)
    requires k <= |s|
    ensures Marks(s) == Marks(s[..k]) + Marks(s[k..])
    ensures k < |s| ==> Marks(s[k..]) <= 1 + Marks(s[k + 1..])
  {
    hide Marks;
    assert s == s[..k] + s[k..];
    MarksOf(s[..k], s[k..]);
    if k < |s| {
      assert s[k..] == [s[k]] + s[k + 1..];
      MarksOf([s[k]], s[k + 1..]);
    }
  }

  /** A chunk that only finishes a code point, or is empty. */
  lemma TailOnly(wanted: seq<int> -> nat, chunks: seq<seq<int>>, t: seq<int>)
    requires chunks != [] && AllContinuation(t) && |chunks[0]| <= |t| && chunks[0] == t[..|chunks[0]|]
    ensures chunks[0] != [] ==> Marks(ToText(wanted, chunks[0])) >= 1
    ensures chunks[0] == [] && CutsBetweenCodePoints(chunks[1..]) ==> CutsBetweenCodePoints(chunks)
  {
    hide Marks, ToText, U.IsContinuation;
    var c := chunks[0];
    assert c + [] == c && AllContinuation(c);
    TailLeavesMark(wanted, c, []);
    forall i | 0 <= i < |chunks| && c == [] && CutsBetweenCodePoints(chunks[1..]) ensures U.Decode(chunks[i]).Some? {
      if i > 0 {
        assert chunks[i] == chunks[1..][i - 1];
      }
    }
  }

  lemma WholeFirst(chunks: seq<seq<int>>, t: seq<int>, s: string)
    requires chunks != [] && chunks[0] == t + (U.Encode(s) + [])
    ensures t == [] && CutsBetweenCodePoints(chunks[1..]) ==> CutsBetweenCodePoints(chunks)
  {
    hide U.Encode, U.Decode;
    if t == [] && CutsBetweenCodePoints(chunks[1..]) {
      assert chunks[0] == U.Encode(s);
      U.EncodeThenDecode(s);
      forall i | 0 <= i < |chunks| ensures U.Decode(chunks[i]).Some? {
        if i > 0 {
          assert chunks[i] == chunks[1..][i - 1];
        }
      }
    }
  }

  // ---- lines ----

  function LineMarks(lines: seq<string>): nat {
    if lines == [] then 0 else Marks(lines[0]) + LineMarks(lines[1..])
  }

  /** The lines hold all the marks of the text. */
  lemma {:induction false} LinesHoldMarks(s: string)
    ensures LineMarks(L.Lines(s)) == Marks(s)
    decreases |s|
  {
    hide Marks;
    var lines := L.Lines(s);
    match L.FirstBreak(s, 0)
    case None =>
      if s == "" {
        NoMarks("");
      } else {
        assert lines == [s] && lines[1..] == [];
      }
    case Some(i) =>
      var j := L.AfterBreak(s, i);
      LinesHoldMarks(s[j..]);
      assert lines[0] == s[..i] && lines[1..] == L.Lines(s[j..]);
      MarksAt(s, i);
      assert s[i..] == s[i..j] + s[j..];
      MarksOf(s[i..j], s[j..]);
      NoMarks(s[i..j]);
  }

  lemma NoMarks(s: string)
    requires REPLACEMENT !in s
    ensures Marks(s) == 0
  {
  }

  /** The lines read are those of the text sent exactly when the chunks are cut between code
      points. */
  lemma ByteChunksReadRight(wanted: seq<int> -> nat, chunks: seq<seq<int>>, s: string)
    requires JoinBytes(chunks) == U.Encode(s)
    ensures L.Lines(Received(wanted, chunks)) == L.Lines(s) <==> CutsBetweenCodePoints(chunks)
  {
    hide U.Encode, U.Decode, Marks, Received, L.Lines;
    if CutsBetweenCodePoints(chunks) {
      WholeChunks(wanted, chunks);
      U.EncodeThenDecode(Received(wanted, chunks));
      U.EncodeThenDecode(s);
    } else {
      assert [] + U.Encode(s) == U.Encode(s);
      TornLeavesMark(wanted, chunks, [], s);
      LinesHoldMarks(Received(wanted, chunks));
      LinesHoldMarks(s);
    }
  }

  /** Two bytes of one letter, sent apart. */
  lemma TornLetter(wanted: seq<int> -> nat)
    ensures var letter := [0xE9 as char];
            JoinBytes([[0xC3], [0xA9]]) == U.Encode(letter)
            && L.Lines(Received(wanted, [[0xC3], [0xA9]])) != L.Lines(letter)
  {
    var letter, chunks := [0xE9 as char], [[0xC3], [0xA9]];
    EncodeOne(letter[0]);
    assert chunks[1..] == [[0xA9]] && [[0xA9]][1..] == [];
    assert JoinBytes([[0xA9]]) == [0xA9] + JoinBytes([]);
    assert U.Decode(chunks[0]).None?;
    ByteChunksReadRight(wanted, chunks, letter);
  }
}
