/** The byte layout of a framed message (Communication.hpp) and what a reader
    that follows the framing gets out of a byte stream. */
module Framing {
  import opened Sequences

  type Byte = b: int | 0 <= b < 256
  const UINT32_LIMIT: int := 0x1_0000_0000
  type Uint32 = n: int | 0 <= n < 0x1_0000_0000

  /** The enumerator is stored in 32 bits; `operationCode` is that bit pattern. */
  datatype Header = Header(operationCode: Uint32, size: Uint32)
  datatype Message = Message(header: Header, body: seq<Byte>)

  /** sizeof(MessageHeader<T>): two 32-bit fields, no padding. */
  const HEADER_SIZE: nat := 8

  function Power256(width: nat): (p: nat)
    ensures p > 0
  {
    if width == 0 then 1 else 256 * Power256(width - 1)
  }

  function ToBytes(n: nat, width: nat): (bytes: seq<Byte>)
    ensures |bytes| == width
    decreases width, n
  {
    if width == 0 then [] else [n % 256] + ToBytes(n / 256, width - 1)
  }

  function FromBytes(bytes: seq<Byte>): (n: nat)
    ensures n < Power256(|bytes|)
  {
    if bytes == [] then 0 else bytes[0] as int + 256 * FromBytes(bytes[1..])
  }

  lemma {:induction false} FromToBytes(n: nat, width: nat)
    requires n < Power256(width)
    ensures FromBytes(ToBytes(n, width)) == n
    decreases width
  {
    if width > 0 {
      FromToBytes(n / 256, width - 1);
      assert ToBytes(n, width)[1..] == ToBytes(n / 256, width - 1);
    }
  }

  lemma {:induction false} ToFromBytes(bytes: seq<Byte>)
    ensures ToBytes(FromBytes(bytes), |bytes|) == bytes
  {
    if bytes != [] {
      ToFromBytes(bytes[1..]);
      assert FromBytes(bytes) / 256 == FromBytes(bytes[1..]);
    }
  }

  function EncodeUint32(n: Uint32): (bytes: seq<Byte>)
    ensures |bytes| == 4
  {
    ToBytes(n, 4)
  }

  function DecodeUint32(bytes: seq<Byte>): Uint32
    requires |bytes| == 4
  {
    assert Power256(4) == UINT32_LIMIT;
    FromBytes(bytes)
  }

  function EncodeHeader(h: Header): (bytes: seq<Byte>)
    ensures |bytes| == HEADER_SIZE
  {
    EncodeUint32(h.operationCode) + EncodeUint32(h.size)
  }

  function DecodeHeader(bytes: seq<Byte>): Header
    requires |bytes| == HEADER_SIZE
  {
    Header(DecodeUint32(bytes[..4]), DecodeUint32(bytes[4..]))
  }

  /** The bytes on the wire, one by one: the operation code, then the size, each
      with its least significant byte first. */
  lemma HeaderLayout(h: Header)
    ensures EncodeHeader(h) == [
              h.operationCode % 256, h.operationCode / 256 % 256,
              h.operationCode / 65536 % 256, h.operationCode / 16777216,
              h.size % 256, h.size / 256 % 256, h.size / 65536 % 256, h.size / 16777216]
  {
    Uint32Layout(h.operationCode);
    Uint32Layout(h.size);
  }

  lemma Uint32Layout(n: Uint32)
    ensures EncodeUint32(n) == [n % 256, n / 256 % 256, n / 65536 % 256, n / 16777216]
  {
    var a := n / 256;
    var b := a / 256;
    var c := b / 256;
    calc {
      ToBytes(n, 4);
      [n % 256] + ToBytes(a, 3);
      [n % 256] + ([a % 256] + ToBytes(b, 2));
      [n % 256] + ([a % 256] + ([b % 256] + ToBytes(c, 1)));
      [n % 256] + ([a % 256] + ([b % 256] + ([c % 256] + [])));
      [n % 256, a % 256, b % 256, c % 256];
    }
  }

  lemma HeaderRoundTrip(h: Header)
    ensures DecodeHeader(EncodeHeader(h)) == h
  {
    var bytes := EncodeHeader(h);
    assert bytes[..4] == EncodeUint32(h.operationCode);
    assert bytes[4..] == EncodeUint32(h.size);
    assert Power256(4) == UINT32_LIMIT;
    FromToBytes(h.operationCode, 4);
    FromToBytes(h.size, 4);
  }

  lemma DecodedHeaderRoundTrip(bytes: seq<Byte>)
    requires |bytes| == HEADER_SIZE
    ensures EncodeHeader(DecodeHeader(bytes)) == bytes
  {
    ToFromBytes(bytes[..4]);
    ToFromBytes(bytes[4..]);
    assert bytes == bytes[..4] + bytes[4..];
  }

  function Frame(m: Message): seq<Byte> {
    EncodeHeader(m.header) + m.body
  }

  function Frames(ms: seq<Message>): seq<Byte> {
    if ms == [] then [] else Frame(ms[0]) + Frames(ms[1..])
  }

  lemma {:induction false} FramesConcat(a: seq<Message>, b: seq<Message>)
    ensures Frames(a + b) == Frames(a) + Frames(b)
  {
    if a == [] {
      assert a + b == b;
    } else {
      calc {
        Frames(a + b);
        { assert (a + b)[1..] == a[1..] + b; }
        Frame(a[0]) + Frames(a[1..] + b);
        { FramesConcat(a[1..], b); }
        Frame(a[0]) + (Frames(a[1..]) + Frames(b));
        Frames(a) + Frames(b);
      }
    }
  }

  lemma FramesOne(m: Message)
    ensures Frames([m]) == Frame(m)
  {
    assert [m][1..] == [];
    assert Frames([m]) == Frame(m) + [];
  }

  predicate AllNonEmpty(ms: seq<Message>) {
    forall i :: 0 <= i < |ms| ==> ms[i].body != []
  }

  /** What the sender promises of every message it frames. */
  predicate WellSized(m: Message) {
    m.header.size == |m.body|
  }

  predicate AllWellSized(ms: seq<Message>) {
    forall i :: 0 <= i < |ms| ==> WellSized(ms[i])
  }

  /** The messages a reader hands over from a byte stream: one header, then
      `size` bytes, again and again. It waits for ever on a truncated frame and
      stops for good at a header of size zero. */
  function Deliver(bytes: seq<Byte>): seq<Message>
    decreases |bytes|
  {
    if |bytes| < HEADER_SIZE then []
    else
      var h := DecodeHeader(bytes[..HEADER_SIZE]);
      if h.size == 0 || |bytes| < HEADER_SIZE + h.size then []
      else
        [Message(h, bytes[HEADER_SIZE..HEADER_SIZE + h.size])] + Deliver(bytes[HEADER_SIZE + h.size..])
  }

  /** The longest prefix of messages whose bodies are all non-empty. */
  function NonEmptyPrefix(ms: seq<Message>): seq<Message> {
    if ms == [] || ms[0].body == [] then [] else [ms[0]] + NonEmptyPrefix(ms[1..])
  }

  lemma {:induction false} NonEmptyPrefixOfPrefix(ms: seq<Message>, n: nat)
    requires n <= |ms|
    ensures NonEmptyPrefix(ms[..n]) <= NonEmptyPrefix(ms)
    ensures AllNonEmpty(ms[..n]) ==> NonEmptyPrefix(ms[..n]) == ms[..n]
  {
    if n > 0 {
      assert ms[..n][1..] == ms[1..][..n - 1];
      assert ms[..n] == [ms[0]] + ms[1..][..n - 1];
      NonEmptyPrefixOfPrefix(ms[1..], n - 1);
    }
  }

  /** How many leading frames fit completely into the first `k` bytes. */
  function WholeFrames(ms: seq<Message>, k: nat): (n: nat)
    ensures n <= |ms|
    ensures |Frames(ms[..n])| <= k
  {
    if ms == [] || k < |Frame(ms[0])| then 0
    else
      var n := 1 + WholeFrames(ms[1..], k - |Frame(ms[0])|);
      assert ms[..n][1..] == ms[1..][..n - 1];
      n
  }

  lemma DeliverStep(m: Message, rest: seq<Byte>)
    requires WellSized(m)
    ensures Deliver(Frame(m) + rest) == if m.body == [] then [] else [m] + Deliver(rest)
  {
    var bytes := Frame(m) + rest;
    assert bytes[..HEADER_SIZE] == EncodeHeader(m.header);
    HeaderRoundTrip(m.header);
    assert bytes[HEADER_SIZE..HEADER_SIZE + |m.body|] == m.body;
    assert bytes[HEADER_SIZE + |m.body|..] == rest;
  }

  /** A reader that has seen only part of a frame hands nothing over. */
  lemma DeliverPartial(m: Message, k: nat)
    requires WellSized(m) && k < |Frame(m)|
    ensures Deliver(Frame(m)[..k]) == []
  {
    if k >= HEADER_SIZE {
      assert Frame(m)[..k][..HEADER_SIZE] == EncodeHeader(m.header);
      HeaderRoundTrip(m.header);
    }
  }

  lemma TruncatedTail(ms: seq<Message>, k: nat)
    requires ms != [] && |Frame(ms[0])| <= k <= |Frames(ms)|
    ensures var k' := k - |Frame(ms[0])|; Frames(ms)[..k] == Frame(ms[0]) + Frames(ms[1..])[..k']
  {
  }

  lemma DeliverFirst(m: Message, rest: seq<Byte>, tail: seq<Message>)
    requires WellSized(m) && Deliver(rest) == NonEmptyPrefix(tail)
    ensures Deliver(Frame(m) + rest) == NonEmptyPrefix([m] + tail)
  {
    DeliverStep(m, rest);
    assert ([m] + tail)[1..] == tail;
  }

  lemma WholeFramesTail(ms: seq<Message>, k: nat)
    requires ms != [] && |Frame(ms[0])| <= k
    ensures var n := WholeFrames(ms[1..], k - |Frame(ms[0])|);
            ms[..WholeFrames(ms, k)] == [ms[0]] + ms[1..][..n]
  {
  }

  lemma TruncatedBeforeFirst(ms: seq<Message>, k: nat)
    requires ms != [] && WellSized(ms[0]) && k < |Frame(ms[0])|
    ensures Deliver(Frames(ms)[..k]) == [] == NonEmptyPrefix(ms[..WholeFrames(ms, k)])
  {
    assert Frames(ms)[..k] == Frame(ms[0])[..k];
    DeliverPartial(ms[0], k);
  }

  lemma TruncatedAfterFirst(ms: seq<Message>, k: nat)
    requires ms != [] && WellSized(ms[0]) && |Frame(ms[0])| <= k <= |Frames(ms)|
    requires var k' := k - |Frame(ms[0])|;
             Deliver(Frames(ms[1..])[..k']) == NonEmptyPrefix(ms[1..][..WholeFrames(ms[1..], k')])
    ensures Deliver(Frames(ms)[..k]) == NonEmptyPrefix(ms[..WholeFrames(ms, k)])
  {
    var k' := k - |Frame(ms[0])|;
    var tail := ms[1..][..WholeFrames(ms[1..], k')];
    TruncatedTail(ms, k);
    DeliverFirst(ms[0], Frames(ms[1..])[..k'], tail);
    WholeFramesTail(ms, k);
  }

  /** Framing round trip, for every truncation of the stream: exactly the
      messages whose frames arrived whole, up to the first empty body. */
  lemma {:induction false} TruncatedRoundTrip(ms: seq<Message>, k: nat)
    requires AllWellSized(ms) && k <= |Frames(ms)|
    ensures Deliver(Frames(ms)[..k]) == NonEmptyPrefix(ms[..WholeFrames(ms, k)])
  {
    if ms == [] {
    } else if k < |Frame(ms[0])| {
      TruncatedBeforeFirst(ms, k);
    } else {
      TruncatedRoundTrip(ms[1..], k - |Frame(ms[0])|);
      TruncatedAfterFirst(ms, k);
    }
  }

  lemma {:induction false} WholeStreamIsWholeFrames(ms: seq<Message>)
    ensures WholeFrames(ms, |Frames(ms)|) == |ms|
  {
    if ms != [] {
      WholeStreamIsWholeFrames(ms[1..]);
    }
  }

  /** The complete stream delivers the longest prefix with non-empty bodies. */
  lemma RoundTrip(ms: seq<Message>)
    requires AllWellSized(ms)
    ensures Deliver(Frames(ms)) == NonEmptyPrefix(ms)
  {
    TruncatedRoundTrip(ms, |Frames(ms)|);
    WholeStreamIsWholeFrames(ms);
    assert Frames(ms)[..|Frames(ms)|] == Frames(ms);
    assert ms[..|ms|] == ms;
  }

  /** Truncating the stream only truncates what is delivered. */
  lemma TruncationDeliversPrefix(ms: seq<Message>, bytes: seq<Byte>)
    requires AllWellSized(ms) && bytes <= Frames(ms)
    ensures Deliver(bytes) <= NonEmptyPrefix(ms)
  {
    var k := |bytes|;
    assert bytes == Frames(ms)[..k];
    TruncatedRoundTrip(ms, k);
    NonEmptyPrefixOfPrefix(ms, WholeFrames(ms, k));
  }

  /** A lone message survives the wire exactly when its header tells the truth
      about a non-empty body. */
  lemma SurvivesIffWellSized(m: Message)
    ensures Deliver(Frame(m)) == [m] <==> m.body != [] && WellSized(m)
  {
    var bytes := Frame(m);
    assert bytes + [] == bytes;
    if WellSized(m) {
      DeliverStep(m, []);
    } else {
      assert bytes[..HEADER_SIZE] == EncodeHeader(m.header);
      HeaderRoundTrip(m.header);
      if HEADER_SIZE + m.header.size <= |bytes| && m.header.size != 0 {
        assert Deliver(bytes)[0] == Message(m.header, bytes[HEADER_SIZE..HEADER_SIZE + m.header.size]);
      }
    }
  }

  /** A reader that has already consumed whole frames continues from there. */
  lemma {:induction false} DeliverAfter(ms: seq<Message>, rest: seq<Byte>)
    requires AllWellSized(ms) && AllNonEmpty(ms)
    ensures Deliver(Frames(ms) + rest) == ms + Deliver(rest)
  {
    if ms == [] {
      assert Frames(ms) + rest == rest;
    } else {
      calc {
        Deliver(Frames(ms) + rest);
        { AppendIsAssociative(Frame(ms[0]), Frames(ms[1..]), rest); }
        Deliver(Frame(ms[0]) + (Frames(ms[1..]) + rest));
        { DeliverStep(ms[0], Frames(ms[1..]) + rest); }
        [ms[0]] + Deliver(Frames(ms[1..]) + rest);
        { DeliverAfter(ms[1..], rest); }
        [ms[0]] + (ms[1..] + Deliver(rest));
        { AppendIsAssociative([ms[0]], ms[1..], Deliver(rest)); }
        ms + Deliver(rest);
      }
    }
  }
}
