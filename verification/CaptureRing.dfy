/** The terminal capture ring: per-byte and block-copy forms of append and capture. */
module CaptureRing {

  newtype Byte = x: int | 0 <= x < 256

  // ---- what an append writes and what a capture reads ----

  /** The slot of a logical position in a ring of `n` bytes. */
  function Slot(at: nat, n: nat): (r: nat)
    requires n > 0
    ensures r < n
  {
    at % n
  }

  /** The buffer after writing `src` one byte at a time from logical position `head`. */
  function Written(buf: seq<Byte>, head: nat, src: seq<Byte>): (r: seq<Byte>)
    requires |buf| > 0
    ensures |r| == |buf|
  {
    if src == [] then buf
    else Written(buf, head, src[..|src| - 1])[Slot(head + |src| - 1, |buf|) := src[|src| - 1]]
  }

  function CaptureSize(head: nat, capacity: nat): nat {
    if head < capacity then head else capacity
  }

  /** The retained bytes, oldest first, read one byte at a time. */
  function Captured(head: nat, buf: seq<Byte>): seq<Byte>
    requires |buf| > 0
  {
    var size := CaptureSize(head, |buf|);
    seq(size, i requires 0 <= i < size => buf[Slot(head - size + i, |buf|)])
  }

  /** The last `n` bytes of a stream, or all of it. */
  function LastBytes(stream: seq<Byte>, n: nat): seq<Byte> {
    if |stream| <= n then stream else stream[|stream| - n..]
  }

  // ---- slots ----

  lemma SlotStep(a: nat, i: nat, n: nat)
    requires 0 < n && i < n
    ensures Slot(a + i, n) == if Slot(a, n) + i < n then Slot(a, n) + i else Slot(a, n) + i - n
  {
    var q, r := a / n, a % n;
    assert a + i == q * n + (r + i);
    if r + i < n {
      DivModUnique(a + i, q, r + i, n);
    } else {
      assert a + i == (q + 1) * n + (r + i - n);
      DivModUnique(a + i, q + 1, r + i - n, n);
    }
  }

  lemma DivModUnique(a: nat, q: int, r: int, n: nat)
    requires n > 0 && a == q * n + r && 0 <= r < n
    ensures a % n == r
  {
    var k := a / n - q;
    assert k * n == r - a % n;
    assert 0 - n < k * n < n;
    assert k == 0;
  }

  /** Two logical positions less than a lap apart use different slots. */
  lemma SlotsDiffer(a: nat, b: nat, n: nat)
    requires 0 < n && a < b < a + n
    ensures Slot(a, n) != Slot(b, n)
  {
    hide Slot;
    SlotStep(a, b - a, n);
  }

  // ---- the buffer after an append ----

  /** With the slots written out: the last bytes written sit at their positions modulo the
      capacity, and a position that was not written keeps its byte. */
  lemma WrittenModulo(buf: seq<Byte>, head: nat, src: seq<Byte>, at: nat)
    requires |buf| > 0
    ensures head <= at < head + |src| && head + |src| <= at + |buf| ==> Written(buf, head, src)[at % |buf|] == src[at - head]
    ensures head + |src| <= at < head + |buf| ==> Written(buf, head, src)[at % |buf|] == buf[at % |buf|]
  {
    hide Written;
    if head <= at < head + |src| && head + |src| <= at + |buf| {
      WrittenAt(buf, head, src, at);
    }
    if head + |src| <= at < head + |buf| {
      forall k: nat | head <= k < head + |src| ensures Slot(k, |buf|) != at % |buf| {
        SlotsDiffer(k, at, |buf|);
      }
      WrittenElsewhere(buf, head, src, at % |buf|);
    }
  }

  /** Each of the last `|buf|` written positions still holds its byte. */
  lemma {:induction false} WrittenAt(buf: seq<Byte>, head: nat, src: seq<Byte>, at: nat)
    requires |buf| > 0 && head <= at < head + |src| && head + |src| <= at + |buf|
    ensures Written(buf, head, src)[Slot(at, |buf|)] == src[at - head]
  {
    hide Slot;
    var last := head + |src| - 1;
    if at < last {
      SlotsDiffer(at, last, |buf|);
      WrittenAt(buf, head, src[..|src| - 1], at);
    }
  }

  /** A slot that no written position uses keeps its byte. */
  lemma {:induction false} WrittenElsewhere(buf: seq<Byte>, head: nat, src: seq<Byte>, slot: nat)
    requires slot < |buf| && forall at: nat :: head <= at < head + |src| ==> Slot(at, |buf|) != slot
    ensures Written(buf, head, src)[slot] == buf[slot]
  {
    hide Slot;
    if src != [] {
      WrittenElsewhere(buf, head, src[..|src| - 1], slot);
    }
  }

  lemma {:induction false} WrittenTwice(buf: seq<Byte>, head: nat, a: seq<Byte>, b: seq<Byte>)
    requires |buf| > 0
    ensures Written(Written(buf, head, a), head + |a|, b) == Written(buf, head, a + b)
  {
    hide Slot;
    if b == [] {
      assert a + b == a;
    } else {
      WrittenTwice(buf, head, a, b[..|b| - 1]);
      assert (a + b)[..|a + b| - 1] == a + b[..|b| - 1];
    }
  }

  /** The part of `src` that fits in the ring, and where its first byte goes. */
  function Retained(src: seq<Byte>, capacity: nat): seq<Byte> {
    if |src| > capacity then src[|src| - capacity..] else src
  }

  function FirstSlot(head: nat, src: seq<Byte>, capacity: nat): nat
    requires capacity > 0
  {
    Slot(head + |src| - |Retained(src, capacity)|, capacity)
  }

  function Tail(head: nat, src: seq<Byte>, capacity: nat): nat
    requires capacity > 0
  {
    var room, len := capacity - FirstSlot(head, src, capacity), |Retained(src, capacity)|;
    if len < room then len else room
  }

  /** `after` is `before` with the retained bytes laid from the first slot to the end of
      the buffer, the rest from slot 0. */
  ghost predicate TwoSlices(before: seq<Byte>, after: seq<Byte>, head: nat, src: seq<Byte>)
    requires |before| > 0
  {
    var n := |before|;
    var kept, slot, tail := Retained(src, n), FirstSlot(head, src, n), Tail(head, src, n);
    && |after| == n
    && (forall i :: 0 <= i < tail ==> after[slot + i] == kept[i])
    && (forall i :: tail <= i < |kept| ==> after[i - tail] == kept[i])
    && (forall j :: 0 <= j < n && !(slot <= j < slot + tail) && !(j < |kept| - tail) ==> after[j] == before[j])
  }

  /** The position of the `i`-th retained byte uses the slot that the block copies use. */
  lemma RetainedSlot(head: nat, src: seq<Byte>, n: nat, i: nat)
    requires n > 0 && i < |Retained(src, n)|
    ensures var tail := Tail(head, src, n);
            Slot(head + |src| - |Retained(src, n)| + i, n) == if i < tail then FirstSlot(head, src, n) + i else i - tail
  {
    hide Slot;
    SlotStep(head + |src| - |Retained(src, n)|, i, n);
  }

  lemma RetainedAt(src: seq<Byte>, n: nat, i: nat)
    requires i < |Retained(src, n)|
    ensures |Retained(src, n)| <= n && |Retained(src, n)| <= |src|
    ensures Retained(src, n)[i] == src[|src| - |Retained(src, n)| + i]
  {
  }

  lemma RetainedWritten(buf: seq<Byte>, head: nat, src: seq<Byte>, i: nat)
    requires |buf| > 0 && i < |Retained(src, |buf|)|
    ensures var n := |buf|;
            var tail := Tail(head, src, n);
            var slot := if i < tail then FirstSlot(head, src, n) + i else i - tail;
            0 <= slot < n && Written(buf, head, src)[slot] == Retained(src, n)[i]
  {
    hide Written, FirstSlot, Tail, Slot, Retained;
    RetainedAt(src, |buf|, i);
    RetainedSlot(head, src, |buf|, i);
    WrittenAt(buf, head, src, head + |src| - |Retained(src, |buf|)| + i);
  }

  lemma UntouchedWritten(buf: seq<Byte>, head: nat, src: seq<Byte>, j: nat)
    requires |buf| > 0 && j < |buf|
    requires var slot, tail := FirstSlot(head, src, |buf|), Tail(head, src, |buf|);
             !(slot <= j < slot + tail) && !(j < |Retained(src, |buf|)| - tail)
    ensures Written(buf, head, src)[j] == buf[j]
  {
    hide Slot;
    assert Retained(src, |buf|) == src;
    forall at: nat | head <= at < head + |src| ensures Slot(at, |buf|) != j {
      RetainedSlot(head, src, |buf|, at - head);
    }
    WrittenElsewhere(buf, head, src, j);
  }

  /** The two block copies leave the buffer that the per-byte loop leaves. */
  lemma TwoSlicesIsWritten(before: seq<Byte>, after: seq<Byte>, head: nat, src: seq<Byte>)
    requires |before| > 0 && TwoSlices(before, after, head, src)
    ensures after == Written(before, head, src)
  {
    hide Written, Slot;
    var n := |before|;
    var kept, slot, tail := Retained(src, n), FirstSlot(head, src, n), Tail(head, src, n);
    forall j | 0 <= j < n ensures after[j] == Written(before, head, src)[j] {
      if slot <= j < slot + tail {
        RetainedWritten(before, head, src, j - slot);
      } else if j < |kept| - tail {
        RetainedWritten(before, head, src, j + tail);
      } else {
        UntouchedWritten(before, head, src, j);
      }
    }
  }

  // ---- the ring as a window on the stream ----

  lemma CapturedAt(head: nat, buf: seq<Byte>, i: nat)
    requires |buf| > 0
    ensures |Captured(head, buf)| == CaptureSize(head, |buf|)
    ensures i < CaptureSize(head, |buf|) ==>
              Captured(head, buf)[i] == buf[Slot(head - CaptureSize(head, |buf|) + i, |buf|)]
  {
    hide Slot;
  }

  lemma LastBytesAt(stream: seq<Byte>, n: nat, i: nat)
    ensures |LastBytes(stream, n)| == CaptureSize(|stream|, n)
    ensures i < CaptureSize(|stream|, n) ==>
              LastBytes(stream, n)[i] == stream[|stream| - CaptureSize(|stream|, n) + i]
  {
  }

  lemma CapturedByte(stream: seq<Byte>, buf: seq<Byte>, at: nat)
    requires |buf| > 0 && at < |stream| <= at + |buf| && buf[Slot(at, |buf|)] == stream[at]
    ensures var i := at - (|stream| - CaptureSize(|stream|, |buf|));
            && 0 <= i < |Captured(|stream|, buf)| == |LastBytes(stream, |buf|)|
            && Captured(|stream|, buf)[i] == LastBytes(stream, |buf|)[i]
  {
    hide Slot, Captured, LastBytes;
    var i := at - (|stream| - CaptureSize(|stream|, |buf|));
    CapturedAt(|stream|, buf, i);
    LastBytesAt(stream, |buf|, i);
  }

  /** A ring that has received exactly `stream` captures the last bytes of it. */
  lemma CapturedIsSuffix(zero: seq<Byte>, stream: seq<Byte>)
    requires |zero| > 0
    ensures Captured(|stream|, Written(zero, 0, stream)) == LastBytes(stream, |zero|)
  {
    hide Slot, Written, Captured, LastBytes;
    var buf := Written(zero, 0, stream);
    CapturedAt(|stream|, buf, 0);
    LastBytesAt(stream, |buf|, 0);
    var captured, last, size := Captured(|stream|, buf), LastBytes(stream, |buf|), CaptureSize(|stream|, |buf|);
    forall i | 0 <= i < size ensures captured[i] == last[i] {
      var at := |stream| - size + i;
      WrittenAt(zero, 0, stream, at);
      CapturedByte(stream, buf, at);
    }
  }

  function Concat(chunks: seq<seq<Byte>>): seq<Byte> {
    if chunks == [] then [] else Concat(chunks[..|chunks| - 1]) + chunks[|chunks| - 1]
  }

  /** Head and buffer after a run of appends. */
  function AfterAppends(zero: seq<Byte>, chunks: seq<seq<Byte>>): (r: (nat, seq<Byte>))
    requires |zero| > 0
    ensures |r.1| == |zero|
  {
    if chunks == [] then (0, zero)
    else
      var (head, buf) := AfterAppends(zero, chunks[..|chunks| - 1]);
      var chunk := chunks[|chunks| - 1];
      (head + |chunk|, Written(buf, head, chunk))
  }

  lemma {:induction false} AppendsAreOneStream(zero: seq<Byte>, chunks: seq<seq<Byte>>)
    requires |zero| > 0
    ensures AfterAppends(zero, chunks) == (|Concat(chunks)|, Written(zero, 0, Concat(chunks)))
  {
    if chunks != [] {
      var init := chunks[..|chunks| - 1];
      AppendsAreOneStream(zero, init);
      WrittenTwice(zero, 0, Concat(init), chunks[|chunks| - 1]);
    }
  }

  /** Whatever lengths the appends had, the capture is the end of the whole stream. */
  lemma CaptureAfterAppends(zero: seq<Byte>, chunks: seq<seq<Byte>>)
    requires |zero| > 0
    ensures var (head, buf) := AfterAppends(zero, chunks);
            Captured(head, buf) == LastBytes(Concat(chunks), |zero|)
  {
    AppendsAreOneStream(zero, chunks);
    CapturedIsSuffix(zero, Concat(chunks));
  }

  // ---- the ring ----

  class RingState {
    var head: nat
    const buffer: array<Byte>

    constructor (capacity: nat)
      ensures head == 0 && fresh(buffer) && buffer.Length == capacity
      ensures forall i :: 0 <= i < capacity ==> buffer[i] == 0
    {
      head := 0;
      buffer := new Byte[capacity](_ => 0);
    }

    method AppendPerByte(src: seq<Byte>)
      requires buffer.Length > 0
      modifies this, buffer
      ensures head == old(head) + |src|
      ensures buffer[..] == Written(old(buffer[..]), old(head), src)
    {
      for i := 0 to |src|
        invariant head == old(head) + i
        invariant buffer[..] == Written(old(buffer[..]), old(head), src[..i])
      {
        assert src[..i + 1][..|src[..i + 1]| - 1] == src[..i];
        buffer[Slot(head, buffer.Length)] := src[i];
        head := head + 1;
      }
      assert src[..|src|] == src;
    }

    method AppendSplitCopy(src: seq<Byte>)
      requires buffer.Length > 0
      modifies this, buffer
      ensures head == old(head) + |src|
      ensures buffer[..] == Written(old(buffer[..]), old(head), src)
    {
      hide Written, Slot;
      var capacity := buffer.Length;
      var retained, firstLogical := src, head;
      if |src| > capacity {
        retained := src[|src| - capacity..];
        firstLogical := firstLogical + (|src| - capacity);
      }
      var startSlot := Slot(firstLogical, capacity);
      var tail := if |retained| < capacity - startSlot then |retained| else capacity - startSlot;
      forall i | 0 <= i < tail {
        buffer[startSlot + i] := retained[i];
      }
      if tail < |retained| {
        forall i | 0 <= i < |retained| - tail {
          buffer[i] := retained[tail + i];
        }
      }
      head := head + |src|;
      assert TwoSlices(old(buffer[..]), buffer[..], old(head), src);
      TwoSlicesIsWritten(old(buffer[..]), buffer[..], old(head), src);
    }

    method CapturePerByte() returns (out: array<Byte>)
      requires buffer.Length > 0
      ensures fresh(out) && out[..] == Captured(head, buffer[..])
    {
      var size := CaptureSize(head, buffer.Length);
      out := new Byte[size];
      for i := 0 to size
        invariant forall k :: 0 <= k < i ==> out[k] == Captured(head, buffer[..])[k]
      {
        var logical := head - size + i;
        out[i] := buffer[Slot(logical, buffer.Length)];
      }
    }

    method CaptureSplitCopy() returns (out: array<Byte>)
      requires buffer.Length > 0
      ensures fresh(out) && out[..] == Captured(head, buffer[..])
    {
      var size := CaptureSize(head, buffer.Length);
      out := new Byte[size];
      var firstLogical := head - size;
      var startSlot := Slot(firstLogical, buffer.Length);
      var tail := if size < buffer.Length - startSlot then size else buffer.Length - startSlot;
      forall i | 0 <= i < tail {
        out[i] := buffer[startSlot + i];
      }
      if tail < size {
        forall i | 0 <= i < size - tail {
          out[tail + i] := buffer[i];
        }
      }
      forall k | 0 <= k < size ensures out[k] == Captured(head, buffer[..])[k] {
        SlotStep(firstLogical, k, buffer.Length);
      }
    }
  }
}
