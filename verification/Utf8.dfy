/** UTF-8 (section 3 of RFC 3629) and the byte-capped cut of a text. */
module Utf8 {
  import opened Wrappers

  /** The encoding of one code point. */
  function CharBytes(c: char): (b: seq<int>)
    ensures 1 <= |b| <= 4 && !IsContinuation(b[0]) && forall i :: 0 <= i < |b| ==> 0 <= b[i] < 0x100
    ensures forall i :: 1 <= i < |b| ==> IsContinuation(b[i])
  {
    var n := c as int;
    if n < 0x80 then [n]
    else if n < 0x800 then [0xC0 + n / 0x40, 0x80 + n % 0x40]
    else if n < 0x10000 then [0xE0 + n / 0x1000, 0x80 + n / 0x40 % 0x40, 0x80 + n % 0x40]
    else [0xF0 + n / 0x40000, 0x80 + n / 0x1000 % 0x40, 0x80 + n / 0x40 % 0x40, 0x80 + n % 0x40]
  }

  /** The byte is of the form 10xxxxxx. */
  predicate IsContinuation(b: int) {
    0x80 <= b < 0xC0
  }

  /** That is, its two high bits are 10. */
  lemma ContinuationBits(b: bv8)
    ensures IsContinuation(b as int) <==> b & 0xC0 == 0x80
  {
    assert b & 0xC0 == 0x80 <==> 0x80 <= b < 0xC0;
  }

  function Encode(s: string): (b: seq<int>)
    ensures |b| >= |s|
  {
    if s == "" then [] else Encode(s[..|s| - 1]) + CharBytes(s[|s| - 1])
  }

  /** The code point with the given number, if there is one. */
  function Scalar(n: int): Option<char> {
    if 0 <= n < 0xD800 || 0xE000 <= n < 0x110000 then Some(n as char) else None
  }

  /** Reads one code point: it and the number of bytes it took. */
  function DecodeFirst(b: seq<int>): Option<(char, nat)>
    requires b != []
  {
    var len := if b[0] < 0x80 then 1 else if b[0] < 0xE0 then 2 else if b[0] < 0xF0 then 3 else 4;
    if |b| < len then None
    else
      var n :=
        if len == 1 then b[0]
        else if len == 2 then (b[0] - 0xC0) * 0x40 + (b[1] - 0x80)
        else if len == 3 then (b[0] - 0xE0) * 0x1000 + (b[1] - 0x80) * 0x40 + (b[2] - 0x80)
        else (b[0] - 0xF0) * 0x40000 + (b[1] - 0x80) * 0x1000 + (b[2] - 0x80) * 0x40 + (b[3] - 0x80);
      match Scalar(n)
      case None => None
      case Some(c) => if CharBytes(c) == b[..len] then Some((c, len)) else None
  }

  function Decode(b: seq<int>): Option<string> {
    if b == [] then Some("")
    else
      match DecodeFirst(b)
      case None => None
      case Some((c, len)) =>
        if len == 0 || len > |b| then None
        else
          match Decode(b[len..])
          case None => None
          case Some(s) => Some([c] + s)
  }

  lemma DecodeOne(c: char, rest: seq<int>)
    ensures DecodeFirst(CharBytes(c) + rest) == Some((c, |CharBytes(c)|))
  {
    var n, b := c as int, CharBytes(c) + rest;
    assert b[..|CharBytes(c)|] == CharBytes(c);
    if n >= 0x800 {
      assert n / 0x1000 == n / 0x40 / 0x40;
      assert n / 0x40000 == n / 0x1000 / 0x40;
    }
    assert Scalar(n) == Some(c);
  }

  lemma {:induction false} EncodeConcat(a: string, b: string)
    ensures Encode(a + b) == Encode(a) + Encode(b)
  {
    hide CharBytes;
    if b == "" {
      assert a + b == a;
    } else {
      assert (a + b)[..|a + b| - 1] == a + b[..|b| - 1];
      EncodeConcat(a, b[..|b| - 1]);
    }
  }

  lemma {:induction false} EncodeThenDecode(s: string)
    ensures Decode(Encode(s)) == Some(s)
    decreases |s|
  {
    if s != "" {
      var c, rest := s[0], s[1..];
      assert s == [c] + rest;
      EncodeConcat([c], rest);
      assert Encode([c]) == CharBytes(c) by { assert [c][..0] == "" && Encode("") == []; }
      DecodeOne(c, Encode(rest));
      assert Encode(s)[|CharBytes(c)|..] == Encode(rest);
      EncodeThenDecode(rest);
    }
  }

  /** Where the bytes of code point `k` are. */
  lemma BytesOf(s: string, k: nat)
    requires k < |s|
    ensures var at := |Encode(s[..k])|;
            && |Encode(s[..k + 1])| == at + |CharBytes(s[k])| <= |Encode(s)|
            && Encode(s)[..at] == Encode(s[..k])
            && Encode(s)[at..at + |CharBytes(s[k])|] == CharBytes(s[k])
  {
    assert s[..k + 1][..k] == s[..k];
    assert s == s[..k + 1] + s[k + 1..];
    EncodeConcat(s[..k + 1], s[k + 1..]);
  }

  lemma {:induction false} PrefixBytes(s: string, j: nat, k: nat)
    requires j <= k <= |s|
    ensures |Encode(s[..j])| + (k - j) <= |Encode(s[..k])|
  {
    assert s[..k] == s[..j] + s[j..k];
    EncodeConcat(s[..j], s[j..k]);
  }

  lemma EncodeEmpty(s: string)
    ensures Encode(s[..0]) == []
  {
  }

  /** The code point that byte `at` belongs to. */
  lemma {:induction false} Locate(s: string, at: nat, n: nat) returns (k: nat)
    requires n <= |s| && at < |Encode(s[..n])|
    ensures k < n && |Encode(s[..k])| <= at < |Encode(s[..k + 1])|
    decreases n
  {
    hide Encode;
    EncodeEmpty(s);
    if |Encode(s[..n - 1])| <= at {
      k := n - 1;
    } else {
      k := Locate(s, at, n - 1);
    }
  }

  /** `r` is the longest prefix of `text` made of whole code points within `cap` bytes. */
  ghost predicate LongestFit(text: string, cap: int, r: string) {
    && r <= text
    && (r == "" || |Encode(r)| <= cap)
    && (forall k :: |r| < k <= |text| ==> |Encode(text[..k])| > cap)
  }

  /** Byte `cap` lies in code point `k`; the bytes after its first one are continuations. */
  lemma CutPoint(text: string, cap: nat) returns (k: nat)
    requires cap < |Encode(text)|
    ensures k < |text| && |Encode(text[..k])| <= cap < |Encode(text[..k + 1])|
    ensures var buf, start := Encode(text), |Encode(text[..k])|;
            && buf[..start] == Encode(text[..k]) && cap - start <= 3
            && !IsContinuation(buf[start])
            && (forall i :: start < i <= cap ==> IsContinuation(buf[i]))
  {
    hide Encode, CharBytes, IsContinuation;
    assert text[..|text|] == text;
    k := Locate(text, cap, |text|);
    BytesOf(text, k);
    var buf, start, bytes := Encode(text), |Encode(text[..k])|, CharBytes(text[k]);
    forall i | start <= i <= cap ensures buf[i] == bytes[i - start] {
      assert buf[start..start + |bytes|][i - start] == buf[i];
    }
  }

  method TruncateUtf8(text: string, maxBytes: int) returns (r: string)
    ensures LongestFit(text, maxBytes, r) && r == Truncate(text, maxBytes)
  {
    hide Encode, CharBytes, Truncate, Decode;
    TruncateIsLongestFit(text, maxBytes);
    var buf := Encode(text);
    assert text[..|text|] == text;
    if |buf| <= maxBytes {
      LongestFitUnique(text, maxBytes, text, Truncate(text, maxBytes));
      return text;
    }
    var end := if maxBytes < 0 then 0 else maxBytes;
    ghost var k, start := 0, 0;
    EncodeEmpty(text);
    if text != "" {
      k := CutPoint(text, end);
      start := |Encode(text[..k])|;
    }
    while end > 0 && IsContinuation(buf[end])
      invariant start <= end <= (if maxBytes < 0 then 0 else maxBytes) <= start + 3
    {
      end := end - 1;
    }
    assert end == start;
    EncodeThenDecode(text[..k]);
    r := Decode(buf[..end]).value;
    forall m | |r| < m <= |text| ensures |Encode(text[..m])| > maxBytes {
      PrefixBytes(text, k + 1, m);
    }
    LongestFitUnique(text, maxBytes, r, Truncate(text, maxBytes));
  }

  /** The cut as a function: drop code points from the end until the rest fits. */
  function Truncate(text: string, cap: int): string {
    if text == "" || |Encode(text)| <= cap then text else Truncate(text[..|text| - 1], cap)
  }

  lemma {:induction false} TruncateIsLongestFit(text: string, cap: int)
    ensures LongestFit(text, cap, Truncate(text, cap))
  {
    hide Encode;
    assert text[..|text|] == text;
    if text != "" && |Encode(text)| > cap {
      var init := text[..|text| - 1];
      TruncateIsLongestFit(init, cap);
      assert Truncate(text, cap) == Truncate(init, cap);
      forall k | |Truncate(text, cap)| < k <= |text| ensures |Encode(text[..k])| > cap {
        if k < |text| {
          assert text[..k] == init[..k];
        }
      }
    }
  }

  /** At most one result fits the description. */
  lemma LongestFitUnique(text: string, cap: int, a: string, b: string)
    requires LongestFit(text, cap, a) && LongestFit(text, cap, b)
    ensures a == b
  {
    assert text[..|a|] == a && text[..|b|] == b;
  }
}
