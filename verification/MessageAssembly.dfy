/**
  Rebuilding length-prefixed messages from a stream that arrives in arbitrary chunks. The
  prefix is a base-128 varint, as in the section "Base 128 Varints" of the Protocol Buffers
  Encoding specification.
 */
module MessageAssembly {
  import opened Wrappers
  import opened Arithmetic

  type Byte = n: nat | n < 256

  /** ---------- the length prefix ---------- */

  function Varint(n: nat): seq<Byte> {
    if n < 128 then [n] else [128 + n % 128] + Varint(n / 128)
  }

  /**
    The number encoded from byte `k` of a prefix on, and how many bytes that takes; none if it is
    cut. Of a fifth byte only four bits count, and if more bytes follow it five are skipped.
   */
  function ReadFrom(data: seq<Byte>, k: nat): (r: Option<(nat, nat)>)
    requires k <= 4
    ensures r.Some? ==> 0 < r.value.1 <= |data| && r.value.1 <= 10 - k
    decreases 4 - k
  {
    if data == [] then None
    else if k == 4 then
      if data[0] < 128 then Some((data[0] % 16, 1))
      else if |data| >= 6 then Some((data[0] % 16, 6))
      else None
    else if data[0] < 128 then Some((data[0], 1))
    else
      match ReadFrom(data[1..], k + 1)
      case None => None
      case Some((rest, size)) => Some((data[0] - 128 + 128 * rest, size + 1))
  }

  const INT32_LIMIT: nat := 0x8000_0000

  /** The 32 bits of `n` as a signed integer. */
  function AsInt32(n: nat): int {
    if n < INT32_LIMIT then n else n - 2 * INT32_LIMIT
  }

  /** The payload length, possibly negative, and where the payload starts; none if the prefix is cut. */
  function ReadMsgLength(data: seq<Byte>): (r: Option<(int, nat)>)
    ensures r.Some? ==> 0 < r.value.1 <= |data| && r.value.1 <= 10
  {
    match ReadFrom(data, 0)
    case None => None
    case Some((n, size)) => Some((AsInt32(n), size))
  }

  function Limit(k: nat): nat
    requires k <= 4
  {
    if k == 0 then INT32_LIMIT else Limit(k - 1) / 128
  }

  lemma {:induction false} ReadsBackFrom(n: nat, rest: seq<Byte>, k: nat)
    requires k <= 4 && n < Limit(k) && Limit(4) == 8
    ensures ReadFrom(Varint(n) + rest, k) == Some((n, |Varint(n)|))
    decreases 4 - k
  {
    if n >= 128 {
      assert (Varint(n) + rest)[1..] == Varint(n / 128) + rest;
      if k < 4 { ReadsBackFrom(n / 128, rest, k + 1); }
    }
  }

  /** A length is read back from its encoding, whatever follows. */
  lemma {:induction false} ReadsBack(n: nat, rest: seq<Byte>)
    requires n < INT32_LIMIT
    ensures ReadMsgLength(Varint(n) + rest) == Some((n, |Varint(n)|))
  {
    assert Limit(4) == 8 by { assert Limit(1) == 0x100_0000 && Limit(2) == 0x2_0000 && Limit(3) == 0x400; }
    ReadsBackFrom(n, rest, 0);
  }

  /** What byte `k` and those after it can hold of 32 bits, and the least number that takes ten bytes in all. */
  function Capacity(k: nat): (c: nat)
    requires k <= 4
    ensures c > 0
    decreases 4 - k
  {
    if k == 4 then 16 else 128 * Capacity(k + 1)
  }

  function TenBytes(k: nat): nat
    requires k <= 4
    decreases 4 - k
  {
    if k == 4 then 0x8_0000_0000 else 128 * TenBytes(k + 1)
  }

  lemma LowerDigits(n: nat, c: nat)
    requires c > 0
    ensures n % (128 * c) == n % 128 + 128 * (n / 128 % c)
  {
    var q, r := n / 128 / c, n % 128 + 128 * (n / 128 % c);
    assert n / 128 == c * q + n / 128 % c;
    assert n == 128 * (c * q) + r == 128 * c * q + r;
    assert n / 128 % c <= c - 1;
    Quotient(128 * c, q, r);
  }

  lemma {:induction false} SixBytes(n: nat)
    requires n >= 0x8_0000_0000
    ensures |Varint(n)| >= 6
  {
    assert |Varint(n)| == 1 + |Varint(n / 128)|;
    assert |Varint(n / 128)| == 1 + |Varint(n / 128 / 128)|;
    assert |Varint(n / 128 / 128)| == 1 + |Varint(n / 128 / 128 / 128)|;
    assert |Varint(n / 128 / 128 / 128)| == 1 + |Varint(n / 128 / 128 / 128 / 128)|;
    assert |Varint(n / 128 / 128 / 128 / 128)| == 1 + |Varint(n / 128 / 128 / 128 / 128 / 128)|;
  }

  lemma ReadsOneMore(d: nat, tail: seq<Byte>, k: nat, v: nat, size: nat)
    requires d < 128 && k < 4 && ReadFrom(tail, k + 1) == Some((v, size))
    ensures ReadFrom([128 + d] + tail, k) == Some((d + 128 * v, size + 1))
  {
    assert ([128 + d] + tail)[1..] == tail;
  }

  lemma {:induction false} ReadsFifth(n: nat, rest: seq<Byte>)
    requires n >= 0x8_0000_0000
    ensures ReadFrom(Varint(n) + rest, 4) == Some((n % 16, 6))
  {
    SixBytes(n);
    assert (Varint(n) + rest)[0] == 128 + n % 128;
    assert (128 + n % 128) % 16 == n % 16;
  }

  lemma {:induction false} ReadsLowStep(n: nat, rest: seq<Byte>, k: nat)
    requires k < 4 && n >= 128
    requires ReadFrom(Varint(n / 128) + rest, k + 1) == Some((n / 128 % Capacity(k + 1), 9 - k))
    ensures ReadFrom(Varint(n) + rest, k) == Some((n % Capacity(k), 10 - k))
  {
    var d, tail, v := n % 128, Varint(n / 128) + rest, n / 128 % Capacity(k + 1);
    LowerDigits(n, Capacity(k + 1));
    ReadsOneMore(d, tail, k, v, 9 - k);
    assert Varint(n) + rest == [128 + d] + tail;
  }

  lemma {:induction false} ReadsLow(n: nat, rest: seq<Byte>, k: nat)
    requires k <= 4 && n >= TenBytes(k)
    ensures ReadFrom(Varint(n) + rest, k) == Some((n % Capacity(k), 10 - k))
    decreases 4 - k
  {
    if k == 4 {
      ReadsFifth(n, rest);
    } else {
      ReadsLow(n / 128, rest, k + 1);
      ReadsLowStep(n, rest, k);
    }
  }

  lemma TenByteNumbers()
    ensures Capacity(0) == 0x1_0000_0000 && TenBytes(0) == 0x8000_0000_0000_0000
  {
    assert Capacity(3) == 0x800 && Capacity(2) == 0x4_0000 && Capacity(1) == 0x200_0000;
    assert TenBytes(3) == 0x400_0000_0000 && TenBytes(2) == 0x2_0000_0000_0000 && TenBytes(1) == 0x100_0000_0000_0000;
  }

  lemma LowBits(m: nat)
    requires 0 < m <= 0x8000_0000
    ensures (0x1_0000_0000_0000_0000 - m) % 0x1_0000_0000 == 0x1_0000_0000 - m
  {
    Quotient(0x1_0000_0000, 0xffff_ffff, 0x1_0000_0000 - m);
  }

  /** A negative length is encoded as a number of 64 bits, in ten bytes, and read back from these. */
  lemma {:induction false} NegativeReadsBack(length: int, rest: seq<Byte>)
    requires -0x8000_0000 <= length < 0
    ensures ReadMsgLength(Varint(0x1_0000_0000_0000_0000 + length) + rest) == Some((length, 10))
  {
    var n: nat := 0x1_0000_0000_0000_0000 + length;
    TenByteNumbers();
    LowBits(-length);
    ReadsLow(n, rest, 0);
    assert n % Capacity(0) == 0x1_0000_0000 + length;
    FromReading(Varint(n) + rest, 0x1_0000_0000 + length, 10);
  }

  lemma {:induction false} FromReading(data: seq<Byte>, n: nat, size: nat)
    requires ReadFrom(data, 0) == Some((n, size))
    ensures ReadMsgLength(data) == Some((AsInt32(n), size))
  {
  }

  /** Bytes after the prefix do not matter. */
  lemma {:induction false} PrefixDecidesFrom(data: seq<Byte>, rest: seq<Byte>, k: nat)
    requires k <= 4 && ReadFrom(data, k).Some?
    ensures ReadFrom(data + rest, k) == ReadFrom(data, k)
    decreases 4 - k
  {
    assert (data + rest)[0] == data[0];
    if k < 4 && data[0] >= 128 {
      assert (data + rest)[1..] == data[1..] + rest;
      PrefixDecidesFrom(data[1..], rest, k + 1);
    }
  }

  lemma PrefixDecides(data: seq<Byte>, rest: seq<Byte>)
    requires ReadMsgLength(data).Some?
    ensures ReadMsgLength(data + rest) == ReadMsgLength(data)
  {
    PrefixDecidesFrom(data, rest, 0);
  }

  /** The length of the whole message that `data` starts with; none if the prefix is cut or announces no bytes. */
  function FrameLength(data: seq<Byte>): (r: Option<nat>)
    ensures r.Some? ==> r.value > 0
  {
    match ReadMsgLength(data)
    case None => None
    case Some((length, dataOffset)) => if length + dataOffset <= 0 then None else Some(length + dataOffset)
  }

  predicate IsMessage(m: seq<Byte>) {
    FrameLength(m) == Some(|m|)
  }

  /** What the protocol's encoder produces is a message. */
  lemma {:induction false} EncodedIsMessage(payload: seq<Byte>)
    requires |payload| < INT32_LIMIT
    ensures IsMessage(Varint(|payload|) + payload)
  {
    ReadsBack(|payload|, payload);
  }

  /** ---------- a stream ---------- */

  datatype Pieces = Pieces(messages: seq<seq<Byte>>, rest: seq<Byte>)

  function Then(messages: seq<seq<Byte>>, next: Option<Pieces>): Option<Pieces> {
    match next
    case None => None
    case Some(pieces) => Some(Pieces(messages + pieces.messages, pieces.rest))
  }

  lemma ThenThen(a: seq<seq<Byte>>, b: seq<seq<Byte>>, next: Option<Pieces>)
    ensures Then(a, Then(b, next)) == Then(a + b, next)
    ensures Then([], next) == next
  {
    if next.Some? {
      assert a + (b + next.value.messages) == (a + b) + next.value.messages;
      assert [] + next.value.messages == next.value.messages;
    }
  }

  /** The whole messages that `data` starts with, and what follows them; none if some message has no length. */
  function Split(data: seq<Byte>): Option<Pieces>
    decreases |data|
  {
    if data == [] then Some(Pieces([], []))
    else if FrameLength(data).None? then None
    else
      var total := FrameLength(data).value;
      if |data| < total then Some(Pieces([], data)) else Then([data[..total]], Split(data[total..]))
  }

  lemma {:induction false} SplitStep(data: seq<Byte>, total: nat, tail: seq<Byte>)
    requires FrameLength(data) == Some(total) && total <= |data| && tail == data[total..]
    ensures Split(data) == Then([data[..total]], Split(tail))
  {
  }

  lemma SameFrame(data: seq<Byte>, more: seq<Byte>)
    requires FrameLength(data).Some?
    ensures FrameLength(data + more) == FrameLength(data)
  {
    PrefixDecides(data, more);
  }

  lemma {:induction false} SplitStart(data: seq<Byte>, more: seq<Byte>)
    requires FrameLength(data).Some? && FrameLength(data).value <= |data|
    ensures var total := FrameLength(data).value;
      Split(data + more) == Then([data[..total]], Split(data[total..] + more))
  {
    var total := FrameLength(data).value;
    SameFrame(data, more);
    assert (data + more)[..total] == data[..total];
    assert (data + more)[total..] == data[total..] + more;
    SplitStep(data + more, total, data[total..] + more);
  }

  /** First one part, then what was left of it with the other part: the same as both at once. */
  lemma {:induction false} SplitInTwo(a: seq<Byte>, b: seq<Byte>)
    requires Split(a).Some?
    ensures Split(a + b) == Then(Split(a).value.messages, Split(Split(a).value.rest + b))
    decreases |a|
  {
    if a == [] || FrameLength(a).value > |a| {
      ThenThen([], [], Split(a + b));
    } else {
      var total := FrameLength(a).value;
      var first, tail := [a[..total]], a[total..];
      SplitInTwo(tail, b);
      SplitStart(a, b);
      ThenThen(first, Split(tail).value.messages, Split(Split(tail).value.rest + b));
    }
  }

  function Concat(parts: seq<seq<Byte>>): seq<Byte> {
    if parts == [] then [] else Concat(parts[..|parts| - 1]) + parts[|parts| - 1]
  }

  /** Feed chunks one by one, each together with what is left of those before. */
  function Feed(chunks: seq<seq<Byte>>): Option<Pieces> {
    if chunks == [] then Some(Pieces([], []))
    else
      match Feed(chunks[..|chunks| - 1])
      case None => None
      case Some(before) => Then(before.messages, Split(before.rest + chunks[|chunks| - 1]))
  }

  /**
    No chunk cuts a prefix: wherever one ends, a whole prefix of the message under way has
    arrived; and all messages so far have a positive length.
   */
  predicate WholePrefixes(chunks: seq<seq<Byte>>) {
    chunks == [] || (WholePrefixes(chunks[..|chunks| - 1]) && Split(Concat(chunks)).Some?)
  }

  /** Chunks that cut no prefix, of messages with a length, give the pieces of the stream; others do not get through. */
  lemma {:induction false} FeedIsSplit(chunks: seq<seq<Byte>>)
    ensures Feed(chunks) == if WholePrefixes(chunks) then Split(Concat(chunks)) else None
  {
    if chunks != [] {
      var init := chunks[..|chunks| - 1];
      FeedIsSplit(init);
      if WholePrefixes(init) {
        WholeSoFar(init);
        SplitInTwo(Concat(init), chunks[|chunks| - 1]);
      }
    }
  }

  lemma {:induction false} WholeSoFar(chunks: seq<seq<Byte>>)
    requires WholePrefixes(chunks)
    ensures Split(Concat(chunks)).Some?
  {
  }

  /** Messages followed by part of one split into just these messages and that part. */
  lemma {:induction false} MessagesSplit(messages: seq<seq<Byte>>, tail: seq<Byte>)
    requires forall m :: m in messages ==> IsMessage(m)
    requires Split(tail) == Some(Pieces([], tail))
    ensures Split(Concat(messages) + tail) == Some(Pieces(messages, tail))
  {
    if messages == [] {
      assert Concat(messages) + tail == tail;
    } else {
      var init, last := messages[..|messages| - 1], messages[|messages| - 1];
      assert messages == init + [last];
      MessageFirst(last, tail);
      MessagesSplit(init, []);
      SplitFirst(Concat(init), init, last + tail);
      Regroup(Concat(init), last, tail);
    }
  }

  lemma {:induction false} SplitFirst(a: seq<Byte>, messages: seq<seq<Byte>>, b: seq<Byte>)
    requires Split(a + []) == Some(Pieces(messages, []))
    ensures Split(a + b) == Then(messages, Split(b))
  {
    assert a + [] == a && [] + b == b;
    SplitInTwo(a, b);
  }

  lemma Regroup(a: seq<Byte>, b: seq<Byte>, c: seq<Byte>)
    ensures (a + b) + c == a + (b + c)
  {
  }

  lemma {:induction false} MessageFirst(m: seq<Byte>, tail: seq<Byte>)
    requires IsMessage(m) && Split(tail) == Some(Pieces([], tail))
    ensures Split(m + tail) == Some(Pieces([m], tail))
  {
    SplitStart(m, tail);
    assert m[..|m|] == m && m[|m|..] == [] && [] + tail == tail;
    assert [m] + [] == [m];
  }

  /**
    However a stream of messages, possibly ending within one, is cut into chunks, if none
    cuts a prefix the messages come out in order and what is left is the end of the stream.
   */
  lemma {:induction false} ChunksDoNotMatter(messages: seq<seq<Byte>>, tail: seq<Byte>, chunks: seq<seq<Byte>>)
    requires forall m :: m in messages ==> IsMessage(m)
    requires Split(tail) == Some(Pieces([], tail))
    requires Concat(chunks) == Concat(messages) + tail && WholePrefixes(chunks)
    ensures Feed(chunks) == Some(Pieces(messages, tail))
  {
    FeedIsSplit(chunks);
    MessagesSplit(messages, tail);
  }

  lemma {:induction false} PrefixCut(m: seq<Byte>, k: nat, end: nat)
    requires k <= 4 && ReadFrom(m, k).Some? && end <= |m|
    ensures ReadFrom(m[..end], k).Some? <==> ReadFrom(m, k).value.1 <= end
    decreases 4 - k
  {
    if end > 0 && k < 4 && m[0] >= 128 {
      assert m[..end][1..] == m[1..][..end - 1];
      PrefixCut(m[1..], k + 1, end - 1);
    }
  }

  /** After whole messages a chunk may end before the next one or anywhere after its prefix, and nowhere else. */
  lemma {:induction false} CutInside(messages: seq<seq<Byte>>, m: seq<Byte>, end: nat)
    requires (forall x :: x in messages ==> IsMessage(x)) && IsMessage(m) && end < |m|
    ensures Split(Concat(messages) + m[..end]).Some? <==> end == 0 || ReadMsgLength(m).value.1 <= end
  {
    MessagesSplit(messages, []);
    SplitFirst(Concat(messages), messages, m[..end]);
    PrefixCut(m, 0, end);
    assert m[..end] + m[end..] == m;
    if end > 0 && ReadMsgLength(m[..end]).Some? { PrefixDecides(m[..end], m[end..]); }
  }

  /** A message without payload, its length written in two bytes: at once it comes out, in two chunks it does not. */
  lemma CutPrefixThrows()
    ensures IsMessage([128, 0]) && Feed([[128, 0]]) == Some(Pieces([[128, 0]], []))
    ensures Concat([[128], [0]]) == [128, 0] && Feed([[128], [0]]) == None
  {
    var m: seq<Byte> := [128, 0];
    assert ReadFrom(m[1..], 1) == Some((0, 1)) && ReadFrom([128][1..], 1) == None;
    assert m[..2] == m && m[2..] == [] && [] + m == m && [] + [128] == [128];
    assert [m] + [] == [m] && Split(m) == Some(Pieces([m], []));
    ThenThen([], [], Split(m));
    assert [m][..0] == [] && [[128], [0]][..1] == [[128]] && [[128]][..0] == [];
  }

  lemma LastByteRead(low: Byte)
    requires 128 <= low
    ensures ReadMsgLength([low, 255, 255, 255, 15]) == Some((low - 256, 5))
  {
    assert ReadFrom([15], 4) == Some((15, 1));
    assert [255, 15][1..] == [15] && ReadFrom([255, 15], 3) == Some((127 + 128 * 15, 2));
    assert [255, 255, 15][1..] == [255, 15] && ReadFrom([255, 255, 15], 2) == Some((127 + 128 * (127 + 128 * 15), 3));
    assert [255, 255, 255, 15][1..] == [255, 255, 15];
    assert [low, 255, 255, 255, 15][1..] == [255, 255, 255, 15];
  }

  /** A length of -1 makes a message of four bytes, of which none is payload; one of -5 cannot be received. */
  lemma NegativeLengths()
    ensures Split([255, 255, 255, 255, 15]) == Some(Pieces([[255, 255, 255, 255]], [15]))
    ensures Split([251, 255, 255, 255, 15]) == None
  {
    LastByteRead(255);
    LastByteRead(251);
    var data: seq<Byte> := [255, 255, 255, 255, 15];
    assert data[..4] == [255, 255, 255, 255] && data[4..] == [15];
    assert ReadFrom([15], 0) == Some((15, 1));
    assert Split([15]) == Some(Pieces([], [15]));
    assert [data[..4]] + [] == [data[..4]];
  }

  /** ---------- the assembler ---------- */

  /** Copy the first `n` bytes of `data` to `target` from `start` on. */
  method Copy(data: seq<Byte>, target: array<Byte>, start: nat, n: nat)
    requires n <= |data| && start + n <= target.Length
    modifies target
    ensures target[..] == old(target[..start]) + data[..n] + old(target[start + n..])
  {
    for k := 0 to n
      invariant target[..start] == old(target[..start])
      invariant target[start..start + k] == data[..k]
      invariant target[start + k..] == old(target[start + k..])
    {
      target[start + k] := data[k];
    }
  }

  class MessageAssembler {
    var messageBuffer: array?<Byte>
    var bytesToGo: nat

    /** The bytes of the message under way. */
    function Partial(): seq<Byte>
      requires messageBuffer != null ==> bytesToGo <= messageBuffer.Length
      reads this, messageBuffer
    {
      if messageBuffer == null then [] else messageBuffer[..messageBuffer.Length - bytesToGo]
    }

    ghost predicate Valid()
      reads this, messageBuffer
    {
      messageBuffer != null ==>
        && 0 < bytesToGo < messageBuffer.Length
        && FrameLength(Partial()) == Some(messageBuffer.Length)
    }

    constructor ()
      ensures Valid() && IsDone() && Partial() == []
    {
      messageBuffer, bytesToGo := null, 0;
    }

    predicate IsDone()
      reads this
    {
      messageBuffer == null
    }

    /** The messages that `data` completes; throws on a prefix that is cut or announces no bytes. */
    method ExtractMessages(data: seq<Byte>) returns (r: Result<seq<seq<Byte>>>)
      requires Valid() && data != []
      modifies this, messageBuffer
      ensures r.Success? <==> Split(old(Partial()) + data).Some?
      ensures r.Success? ==>
        && Valid() && (messageBuffer == old(messageBuffer) || messageBuffer == null || fresh(messageBuffer))
        && Split(old(Partial()) + data) == Some(Pieces(r.value, Partial()))
        && (IsDone() <==> Partial() == [])
      decreases |data|, 1
    {
      if messageBuffer == null {
        assert Partial() + data == data;
        r := StartMessage(data);
      } else {
        r := ContinueMessage(data);
      }
    }

    /** A chunk that starts a message. */
    method StartMessage(data: seq<Byte>) returns (r: Result<seq<seq<Byte>>>)
      requires Valid() && messageBuffer == null && data != []
      modifies this
      ensures r.Success? <==> Split(data).Some?
      ensures r.Success? ==>
        && Valid() && (messageBuffer == null || fresh(messageBuffer))
        && Split(data) == Some(Pieces(r.value, Partial()))
        && (IsDone() <==> Partial() == [])
      decreases |data|, 0
    {
      var header := ReadMsgLength(data);
      if header.None? { return Failure(Malformed); }
      var (length, dataOffset) := header.value;
      var total := length + dataOffset;
      if total <= 0 { return Failure(Malformed); }
      var buffer := new Byte[total];
      var toCopyBytes := if |data| > total then total else |data|;
      Copy(data, buffer, 0, toCopyBytes);
      if |data| < total {
        messageBuffer := buffer;
        bytesToGo := total - |data|;
        assert Partial() == data;
        return Success([]);
      }
      assert buffer[..] == data[..total];
      r := RestOfChunk(data, total, buffer[..], data[total..]);
    }

    /** The message that ends after `total` bytes of `all` is there; go on with what follows it. */
    method RestOfChunk(ghost all: seq<Byte>, ghost total: nat, message: seq<Byte>, rest: seq<Byte>)
      returns (r: Result<seq<seq<Byte>>>)
      requires messageBuffer == null && FrameLength(all) == Some(total) && total <= |all|
      requires message == all[..total] && rest == all[total..]
      modifies this
      ensures r.Success? <==> Split(all).Some?
      ensures r.Success? ==>
        && Valid() && (messageBuffer == null || fresh(messageBuffer))
        && Split(all) == Some(Pieces(r.value, Partial()))
        && (IsDone() <==> Partial() == [])
      decreases |rest|, 2
    {
      assert Split(all) == Then([message], Split(rest));
      if rest == [] {
        assert [message] + [] == [message];
        return Success([message]);
      }
      assert Partial() + rest == rest;
      var more := ExtractMessages(rest);
      return if more.Failure? then more else Success([message] + more.value);
    }

    /** A chunk that continues the message under way. */
    method ContinueMessage(data: seq<Byte>) returns (r: Result<seq<seq<Byte>>>)
      requires Valid() && messageBuffer != null && data != []
      modifies this, messageBuffer
      ensures r.Success? <==> Split(old(Partial()) + data).Some?
      ensures r.Success? ==>
        && Valid() && (messageBuffer == old(messageBuffer) || messageBuffer == null || fresh(messageBuffer))
        && Split(old(Partial()) + data) == Some(Pieces(r.value, Partial()))
        && (IsDone() <==> Partial() == [])
      decreases |data|, 0
    {
      ghost var part, all := Partial(), Partial() + data;
      PrefixDecides(part, data);
      var total := messageBuffer.Length;
      var toCopyBytes := if bytesToGo < |data| then bytesToGo else |data|;
      Copy(data, messageBuffer, total - bytesToGo, toCopyBytes);
      if toCopyBytes == bytesToGo {
        var message := messageBuffer[..];
        messageBuffer := null;
        assert message == all[..total] && data[toCopyBytes..] == all[total..];
        r := RestOfChunk(all, total, message, data[toCopyBytes..]);
      } else {
        bytesToGo := bytesToGo - toCopyBytes;
        assert Partial() == all;
        return Success([]);
      }
    }
  }

  lemma {:induction false} FedUp(chunks: seq<seq<Byte>>, k: nat)
    requires k <= |chunks| && Feed(chunks[..k]).None?
    ensures Feed(chunks).None?
    decreases |chunks| - k
  {
    if k == |chunks| {
      assert chunks[..k] == chunks;
    } else {
      assert chunks[..k + 1][..k] == chunks[..k];
      FedUp(chunks, k + 1);
    }
  }

  /** A connection hands its chunks to its assembler as they arrive. */
  method Receive(assembler: MessageAssembler, chunks: seq<seq<Byte>>) returns (r: Result<seq<seq<Byte>>>)
    requires assembler.Valid() && assembler.IsDone() && forall chunk :: chunk in chunks ==> chunk != []
    modifies assembler
    ensures r.Success? <==> Feed(chunks).Some?
    ensures r.Success? ==> assembler.Valid() && Feed(chunks) == Some(Pieces(r.value, assembler.Partial()))
    ensures r.Success? ==> (assembler.IsDone() <==> assembler.Partial() == [])
  {
    var messages: seq<seq<Byte>> := [];
    for k := 0 to |chunks|
      invariant assembler.Valid() && (assembler.messageBuffer == null || fresh(assembler.messageBuffer))
      invariant Feed(chunks[..k]) == Some(Pieces(messages, assembler.Partial()))
      invariant assembler.IsDone() <==> assembler.Partial() == []
    {
      assert chunks[..k + 1][..k] == chunks[..k];
      assert chunks[k] in chunks;
      var extracted := assembler.ExtractMessages(chunks[k]);
      if extracted.Failure? {
        FedUp(chunks, k + 1);
        return extracted;
      }
      messages := messages + extracted.value;
    }
    assert chunks[..|chunks|] == chunks;
    return Success(messages);
  }
}
