/**
  The length-prefixed, checksummed framing of muduo/net/protobuf/ProtobufCodecLite.cc. Serialising and
  parsing a message body are parameters; the checksum is Adler-32 (section 2.2 of RFC 1950).
 */
module ProtobufCodec {
  import opened Wrappers
  import opened BigEndian
  import opened NetBuffer

  const HEADER_LEN: nat := 4
  const CHECKSUM_LEN: nat := 4
  const MAX_MESSAGE_LEN: nat := 64 * 1024 * 1024
  const INT_MAX: nat := 0x7fff_ffff

  datatype ErrorCode = NoError | InvalidLength | CheckSumError | UnknownMessageType | ParseError

  // ---------- Adler-32 ----------

  const ADLER_BASE: nat := 65521

  function SumA(s: seq<Byte>): nat {
    if s == [] then 1 else (SumA(s[..|s| - 1]) + s[|s| - 1]) % ADLER_BASE
  }

  function SumB(s: seq<Byte>): nat {
    if s == [] then 0 else (SumB(s[..|s| - 1]) + SumA(s)) % ADLER_BASE
  }

  function Adler32(s: seq<Byte>): nat { SumB(s) * 65536 + SumA(s) }

  lemma {:induction false} SumsInRange(s: seq<Byte>)
    ensures SumA(s) < ADLER_BASE && SumB(s) < ADLER_BASE && Adler32(s) < Power256(4)
  {
    Powers();
  }

  /** The cast of an unsigned 32-bit value to int32_t. */
  function AsInt32(x: nat): int
    requires x < Power256(4)
  {
    Decode(ToBytes(x, 4))
  }

  function Checksum(s: seq<Byte>): int {
    SumsInRange(s);
    AsInt32(Adler32(s))
  }

  lemma ChecksumInRange(s: seq<Byte>)
    ensures InRange(Checksum(s), 4)
    ensures Encode(Checksum(s), 4) == ToBytes(Adler32(s), 4)
  {
    SumsInRange(s);
    EncodeDecode(ToBytes(Adler32(s), 4));
  }

  /** y is x moved by d, modulo the base. */
  predicate MovedBy(x: int, y: int, d: int) { (y - x) % ADLER_BASE == d % ADLER_BASE }

  /** Changing one byte always changes the checksum. */
  lemma {:induction false} OneByteChangesSum(s: seq<Byte>, i: nat, b: Byte)
    requires i < |s| && b != s[i]
    ensures MovedBy(SumA(s), SumA(s[i := b]), b - s[i])
    ensures SumA(s[i := b]) != SumA(s)
    decreases |s|
  {
    var n := |s| - 1;
    var s' := s[i := b];
    var d := if i < n then b - s[i] else 0;
    assert SumA(s) == (SumA(s[..n]) + s[n]) % ADLER_BASE && SumA(s') == (SumA(s'[..n]) + s'[n]) % ADLER_BASE;
    hide SumA, SumB, MovedBy;
    if i < n {
      assert s'[..n] == s[..n][i := b];
      OneByteChangesSum(s[..n], i, b);
    } else {
      assert s'[..n] == s[..n];
      NotMoved(SumA(s[..n]));
    }
    SumStep(SumA(s[..n]), SumA(s'[..n]), s[n], s'[n], d);
    assert d + s'[n] - s[n] == b - s[i];
    MovedDiffers(SumA(s), SumA(s'), b - s[i]);
  }

  lemma NotMoved(x: int)
    ensures MovedBy(x, x, 0)
  {}

  lemma MovedDiffers(x: int, y: int, d: int)
    requires MovedBy(x, y, d) && -256 < d < 256 && d != 0
    ensures x != y
  {
    assert d % ADLER_BASE != 0;
  }

  lemma SumStep(before: int, before': int, x: Byte, x': Byte, difference: int)
    requires MovedBy(before, before', difference)
    ensures MovedBy((before + x) % ADLER_BASE, (before' + x') % ADLER_BASE, difference + x' - x)
  {
    ModDifference(before' + x', before + x);
    ModAdd(before' - before, difference, x' - x);
  }

  lemma ModDifference(x: int, y: int)
    ensures (x % ADLER_BASE - y % ADLER_BASE) % ADLER_BASE == (x - y) % ADLER_BASE
  {}

  lemma ModAdd(x: int, y: int, z: int)
    requires x % ADLER_BASE == y % ADLER_BASE
    ensures (x + z) % ADLER_BASE == (y + z) % ADLER_BASE
  {}

  lemma AdlerDiffers(s: seq<Byte>, s': seq<Byte>)
    requires SumA(s) != SumA(s')
    ensures Checksum(s) != Checksum(s')
  {
    hide SumA, SumB, ToBytes, FromBytes, Checksum, Encode;
    SumsInRange(s);
    SumsInRange(s');
    ChecksumInRange(s);
    ChecksumInRange(s');
    FromToBytes(Adler32(s), 4);
    FromToBytes(Adler32(s'), 4);
    assert Adler32(s) != Adler32(s');
  }

  // ---------- the codec ----------

  datatype ParseResult<+M> = Parsed(message: M) | Rejected(error: ErrorCode)

  /** The constructor arguments: the tag, the message type's own (de)serialiser, the raw-frame filter. */
  datatype Codec<!M(!new)> = Codec(tag: seq<Byte>, serialize: M -> seq<Byte>, parseBody: seq<Byte> -> Option<M>,
                             rawFilter: Option<seq<Byte> -> bool>)
  {
    function MinMessageLen(): nat { |tag| + CHECKSUM_LEN }

    function MessageLen(m: M): nat { |tag| + |serialize(m)| + CHECKSUM_LEN }

    /** The body type's own round trip. */
    ghost predicate BodyInverse() { forall m: M :: parseBody(serialize(m)) == Some(m) }

    /** The part covered by the length field. */
    function Covered(m: M): seq<Byte> {
      ChecksumInRange(tag + serialize(m));
      tag + serialize(m) + Encode(Checksum(tag + serialize(m)), 4)
    }

    /** size | tag | payload | checksum */
    function Frame(m: M): seq<Byte>
      requires MessageLen(m) <= INT_MAX
    {
      Powers();
      Encode(MessageLen(m), 4) + Covered(m)
    }

    /** parse: the bytes after the length field, to a message or an error. */
    function ParseFrame(buf: seq<Byte>): ParseResult<M>
      requires |buf| >= MinMessageLen()
    {
      var data := buf[..|buf| - CHECKSUM_LEN];
      if Decode(buf[|buf| - CHECKSUM_LEN..]) != Checksum(data) then Rejected(CheckSumError)
      else if data[..|tag|] != tag then Rejected(UnknownMessageType)
      else
        var m := parseBody(data[|tag|..]);
        if m.Some? then Parsed(m.value) else Rejected(ParseError)
    }

    predicate Wanted(frame: seq<Byte>) {
      rawFilter.Some? ==> rawFilter.value(frame)
    }
  }

  /** Messages delivered, bytes left in the buffer, and the error reported (NoError if none). */
  datatype Outcome<+M> = Outcome(messages: seq<M>, rest: seq<Byte>, error: ErrorCode)

  /** The effect of one call of onMessage with s in the buffer. */
  function Deliver<M(!new)>(codec: Codec<M>, s: seq<Byte>): Outcome<M>
    decreases |s|
  {
    if |s| < codec.MinMessageLen() + HEADER_LEN then Outcome([], s, NoError)
    else
      var len := Decode(s[..4]);
      if len > MAX_MESSAGE_LEN || len < codec.MinMessageLen() then Outcome([], s, InvalidLength)
      else if |s| < HEADER_LEN + len then Outcome([], s, NoError)
      else
        var rest := s[HEADER_LEN + len..];
        if !codec.Wanted(s[..HEADER_LEN + len]) then Deliver(codec, rest)
        else
          match codec.ParseFrame(s[HEADER_LEN..HEADER_LEN + len])
          case Rejected(error) => Outcome([], s, error)
          case Parsed(m) =>
            var o := Deliver(codec, rest);
            o.(messages := [m] + o.messages)
  }

  method FillEmptyBuffer<M(!new)>(codec: Codec<M>, buf: Buffer, message: M)
    requires buf.Valid() && buf.Readable() == [] && HEADER_LEN <= buf.View().front
    requires codec.MessageLen(message) <= INT_MAX
    modifies buf
    ensures buf.Valid() && buf.Readable() == codec.Frame(message)
  {
    hide ToBytes, FromBytes, SumA, SumB;
    buf.Append(codec.tag);
    buf.Append(codec.serialize(message));
    var checkSum := Checksum(buf.Peek());
    assert buf.Readable() == codec.tag + codec.serialize(message);
    ChecksumInRange(buf.Readable());
    buf.AppendInt(checkSum, 4);
    Powers();
    buf.PrependInt(buf.ReadableBytes(), HEADER_LEN);
  }

  method OnMessage<M(!new)>(codec: Codec<M>, buf: Buffer) returns (messages: seq<M>, error: ErrorCode)
    requires buf.Valid()
    modifies buf
    ensures buf.Valid()
    ensures Outcome(messages, buf.Readable(), error) == Deliver(codec, old(buf.Readable()))
  {
    hide ToBytes, FromBytes, SumA, SumB, Codec.ParseFrame;
    messages, error := [], NoError;
    ghost var all := Deliver(codec, buf.Readable());
    while buf.ReadableBytes() >= codec.MinMessageLen() + HEADER_LEN
      invariant buf.Valid()
      invariant var o := Deliver(codec, buf.Readable());
                all == Outcome(messages + o.messages, o.rest, o.error)
      decreases buf.ReadableBytes()
    {
      var len := buf.PeekInt(HEADER_LEN);
      ghost var s := buf.Readable();
      ghost var before := messages;
      if len > MAX_MESSAGE_LEN || len < codec.MinMessageLen() {
        error := InvalidLength;
        break;
      } else if buf.ReadableBytes() >= HEADER_LEN + len {
        if codec.rawFilter.Some? && !codec.rawFilter.value(buf.Peek()[..HEADER_LEN + len]) {
          buf.Retrieve(HEADER_LEN + len);
          continue;
        }
        match codec.ParseFrame(buf.Peek()[HEADER_LEN..HEADER_LEN + len]) {
        case Parsed(message) =>
          ghost var later := Deliver(codec, s[HEADER_LEN + len..]);
          assert before + ([message] + later.messages) == (before + [message]) + later.messages;
          messages := messages + [message];
          buf.Retrieve(HEADER_LEN + len);
        case Rejected(errorCode) =>
          error := errorCode;
          break;
        }
      } else {
        break;
      }
    }
  }

  // ---------- frames and streams of frames ----------

  lemma FrameShape<M(!new)>(codec: Codec<M>, m: M)
    requires codec.MessageLen(m) <= INT_MAX
    ensures var f := codec.Frame(m);
            && |f| == HEADER_LEN + codec.MessageLen(m)
            && Decode(f[..4]) == codec.MessageLen(m)
            && f[4..] == codec.Covered(m)
  {
    Powers();
    DecodeEncode(codec.MessageLen(m), 4);
    assert codec.Frame(m)[..4] == Encode(codec.MessageLen(m), 4);
  }

  /** What a sender puts after the length field is what a receiver accepts. */
  lemma ParseCovered<M(!new)>(codec: Codec<M>, m: M)
    requires codec.BodyInverse()
    ensures codec.ParseFrame(codec.Covered(m)) == Parsed(m)
  {
    var data := codec.tag + codec.serialize(m);
    var sum := Checksum(data);
    ChecksumInRange(data);
    DecodeEncode(sum, 4);
    var buf := codec.Covered(m);
    assert buf[..|buf| - 4] == data && buf[|buf| - 4..] == Encode(sum, 4);
    assert data[..|codec.tag|] == codec.tag && data[|codec.tag|..] == codec.serialize(m);
  }

  function Frames<M(!new)>(codec: Codec<M>, ms: seq<M>): seq<Byte>
    requires forall m :: m in ms ==> codec.MessageLen(m) <= INT_MAX
  {
    if ms == [] then [] else codec.Frame(ms[0]) + Frames(codec, ms[1..])
  }

  /** The length a receiver accepts, checked by the sender before encoding. */
  predicate Deliverable<M(!new)>(codec: Codec<M>, m: M) { codec.MessageLen(m) <= 67_108_864 }

  /** The messages whose frames the raw-message filter lets through, if there is one. */
  function Kept<M(!new)>(codec: Codec<M>, ms: seq<M>): seq<M>
    requires forall m :: m in ms ==> codec.MessageLen(m) <= INT_MAX
  {
    if ms == [] then []
    else
      var wanted := codec.rawFilter.Some? ==> codec.rawFilter.value(codec.Frame(ms[0]));
      (if wanted then [ms[0]] else []) + Kept(codec, ms[1..])
  }

  lemma {:induction false} AllKept<M(!new)>(codec: Codec<M>, ms: seq<M>)
    requires codec.rawFilter.None? && forall m :: m in ms ==> codec.MessageLen(m) <= INT_MAX
    ensures Kept(codec, ms) == ms
  {
    if ms != [] {
      AllKept(codec, ms[1..]);
      assert [ms[0]] + ms[1..] == ms;
    }
  }

  lemma DeliverFrame<M(!new)>(codec: Codec<M>, m: M, more: seq<Byte>)
    requires codec.BodyInverse() && codec.MessageLen(m) <= INT_MAX
    ensures Deliver(codec, codec.Frame(m) + more) ==
            if !Deliverable(codec, m) then Outcome([], codec.Frame(m) + more, InvalidLength)
            else
              var o := Deliver(codec, more);
              if codec.Wanted(codec.Frame(m)) then o.(messages := [m] + o.messages) else o
  {
    FrameShape(codec, m);
    ParseCovered(codec, m);
    hide Codec.ParseFrame, Codec.Covered, Codec.Frame, Codec.Wanted, ToBytes, FromBytes;
    var f := codec.Frame(m);
    var s := f + more;
    var len := codec.MessageLen(m);
    assert s[..4] == f[..4];
    assert s[..HEADER_LEN + len] == f && s[HEADER_LEN..HEADER_LEN + len] == f[4..];
    assert s[HEADER_LEN + len..] == more;
  }

  /** Good frames are delivered, as far as the filter lets them through, whatever follows them. */
  lemma {:induction false} FramesThen<M(!new)>(codec: Codec<M>, ms: seq<M>, rest: seq<Byte>)
    requires codec.BodyInverse()
    requires forall m :: m in ms ==> codec.MessageLen(m) <= INT_MAX && Deliverable(codec, m)
    ensures Deliver(codec, Frames(codec, ms) + rest)
         == (var o := Deliver(codec, rest); o.(messages := Kept(codec, ms) + o.messages))
  {
    hide Deliver, Codec.Frame;
    var o := Deliver(codec, rest);
    if ms == [] {
      assert Frames(codec, ms) + rest == rest && Kept(codec, ms) + o.messages == o.messages;
    } else {
      var later := Frames(codec, ms[1..]);
      var first := if codec.Wanted(codec.Frame(ms[0])) then [ms[0]] else [];
      assert Frames(codec, ms) + rest == codec.Frame(ms[0]) + (later + rest);
      DeliverFrame(codec, ms[0], later + rest);
      FramesThen(codec, ms[1..], rest);
      assert first + (Kept(codec, ms[1..]) + o.messages) == Kept(codec, ms) + o.messages;
    }
  }

  /** Concatenated frames are delivered in order, as far as the filter lets them through, and nothing is left. */
  lemma StreamRoundTrip<M(!new)>(codec: Codec<M>, ms: seq<M>)
    requires codec.BodyInverse()
    requires forall m :: m in ms ==> codec.MessageLen(m) <= INT_MAX && Deliverable(codec, m)
    ensures Deliver(codec, Frames(codec, ms)) == Outcome(Kept(codec, ms), [], NoError)
    ensures codec.rawFilter.None? ==> Deliver(codec, Frames(codec, ms)) == Outcome(ms, [], NoError)
  {
    assert Deliver(codec, []) == Outcome([], [], NoError);
    hide Deliver, Codec.Frame;
    FramesThen(codec, ms, []);
    assert Frames(codec, ms) + [] == Frames(codec, ms) && Kept(codec, ms) + [] == Kept(codec, ms);
    if codec.rawFilter.None? {
      AllKept(codec, ms);
    }
  }

  /** A stream comes through exactly when no message exceeds the receiver's 64 MB limit. */
  lemma {:induction false} StreamRoundTripExactly<M(!new)>(codec: Codec<M>, ms: seq<M>)
    requires codec.BodyInverse()
    requires forall m :: m in ms ==> codec.MessageLen(m) <= INT_MAX
    ensures Deliver(codec, Frames(codec, ms)) == Outcome(Kept(codec, ms), [], NoError)
       <==> forall m :: m in ms ==> Deliverable(codec, m)
    ensures codec.rawFilter.None? ==>
              (Deliver(codec, Frames(codec, ms)) == Outcome(ms, [], NoError)
               <==> forall m :: m in ms ==> Deliverable(codec, m))
    ensures Deliver(codec, Frames(codec, ms)).error
         == if forall m :: m in ms ==> Deliverable(codec, m) then NoError else InvalidLength
  {
    hide Deliver, Codec.Frame, Codec.Wanted;
    if forall m :: m in ms ==> Deliverable(codec, m) {
      StreamRoundTrip(codec, ms);
    } else {
      DeliverFrame(codec, ms[0], Frames(codec, ms[1..]));
      if Deliverable(codec, ms[0]) {
        StreamRoundTripExactly(codec, ms[1..]);
      }
      if codec.rawFilter.None? {
        AllKept(codec, ms);
      }
    }
  }

  // ---------- independence of how the stream is cut ----------

  function Joined(chunks: seq<seq<Byte>>): seq<Byte> {
    if chunks == [] then [] else chunks[0] + Joined(chunks[1..])
  }

  /** One call of onMessage per chunk; the error is the one reported by the last call. */
  function DeliverChunks<M(!new)>(codec: Codec<M>, rest: seq<Byte>, chunks: seq<seq<Byte>>): Outcome<M>
    decreases |chunks|
  {
    if chunks == [] then Deliver(codec, rest)
    else
      var o := Deliver(codec, rest + chunks[0]);
      if |chunks| == 1 then o
      else
        var p := DeliverChunks(codec, o.rest, chunks[1..]);
        p.(messages := o.messages + p.messages)
  }

  /** The size of the frame at the start of s that onMessage takes, 0 if it takes none. */
  function FrameTaken<M(!new)>(codec: Codec<M>, s: seq<Byte>): nat {
    if |s| < codec.MinMessageLen() + HEADER_LEN then 0
    else
      var len := Decode(s[..4]);
      if len > MAX_MESSAGE_LEN || len < codec.MinMessageLen() || |s| < HEADER_LEN + len then 0
      else if codec.Wanted(s[..HEADER_LEN + len]) && codec.ParseFrame(s[HEADER_LEN..HEADER_LEN + len]).Rejected? then 0
      else HEADER_LEN + len
  }

  lemma NothingTaken<M(!new)>(codec: Codec<M>, s: seq<Byte>)
    requires FrameTaken(codec, s) == 0
    ensures Deliver(codec, s).messages == [] && Deliver(codec, s).rest == s
  {}

  /** What a frame that is taken delivers: nothing if the filter does not want it. */
  function FirstMessages<M(!new)>(codec: Codec<M>, s: seq<Byte>): seq<M>
    requires FrameTaken(codec, s) != 0
  {
    var n := FrameTaken(codec, s);
    if codec.Wanted(s[..n]) then [codec.ParseFrame(s[HEADER_LEN..n]).message] else []
  }

  /** A frame is taken, and read, in the same way whatever follows it. */
  lemma FrameTakenFirst<M(!new)>(codec: Codec<M>, s: seq<Byte>, more: seq<Byte>)
    requires FrameTaken(codec, s) != 0
    ensures var n := FrameTaken(codec, s);
            && n <= |s|
            && Deliver(codec, s + more)
               == (var o := Deliver(codec, s[n..] + more); o.(messages := FirstMessages(codec, s) + o.messages))
  {
    var n := FrameTaken(codec, s);
    assert (s + more)[..4] == s[..4];
    assert (s + more)[..n] == s[..n] && (s + more)[HEADER_LEN..n] == s[HEADER_LEN..n];
    assert (s + more)[n..] == s[n..] + more;
    hide ToBytes, FromBytes, SumA, SumB, Codec.ParseFrame, Codec.Wanted;
  }

  /** More input: what was delivered stays delivered, and the rest goes on from the leftover. */
  lemma {:induction false} DeliverExtended<M(!new)>(codec: Codec<M>, s: seq<Byte>, more: seq<Byte>)
    ensures var o := Deliver(codec, s);
            var p := Deliver(codec, o.rest + more);
            Deliver(codec, s + more) == p.(messages := o.messages + p.messages)
    decreases |s|
  {
    hide *;
    var n := FrameTaken(codec, s);
    if n == 0 {
      NothingTaken(codec, s);
      assert [] + Deliver(codec, s + more).messages == Deliver(codec, s + more).messages;
    } else {
      var ms := FirstMessages(codec, s);
      FrameTakenFirst(codec, s, []);
      assert s + [] == s && s[n..] + [] == s[n..];
      FrameTakenFirst(codec, s, more);
      DeliverExtended(codec, s[n..], more);
      var later := Deliver(codec, s[n..]);
      var last := Deliver(codec, later.rest + more);
      assert ms + (later.messages + last.messages) == (ms + later.messages) + last.messages;
    }
  }

  lemma {:induction false} SplitIndependence<M(!new)>(codec: Codec<M>, rest: seq<Byte>, chunks: seq<seq<Byte>>)
    ensures DeliverChunks(codec, rest, chunks) == Deliver(codec, rest + Joined(chunks))
    decreases |chunks|
  {
    if chunks == [] {
      assert rest + [] == rest;
    } else {
      var s, others := rest + chunks[0], Joined(chunks[1..]);
      assert rest + Joined(chunks) == s + others;
      if |chunks| == 1 {
        assert s + others == s;
      } else {
        DeliverExtended(codec, s, others);
        SplitIndependence(codec, Deliver(codec, s).rest, chunks[1..]);
      }
    }
  }

  // ---------- corruption ----------

  /** Any single wrong byte after the length field is reported as a checksum error. */
  lemma CorruptionDetected<M(!new)>(codec: Codec<M>, m: M, i: nat, b: Byte)
    requires i < |codec.Covered(m)| && codec.Covered(m)[i] != b
    ensures codec.ParseFrame(codec.Covered(m)[i := b]) == Rejected(CheckSumError)
  {
    var data := codec.tag + codec.serialize(m);
    var sum := Checksum(data);
    ChecksumInRange(data);
    DecodeEncode(sum, 4);
    var good, bad := codec.Covered(m), codec.Covered(m)[i := b];
    if i < |data| {
      assert bad[..|bad| - 4] == data[i := b] && bad[|bad| - 4..] == Encode(sum, 4);
      OneByteChangesSum(data, i, b);
      AdlerDiffers(data, data[i := b]);
    } else {
      assert bad[..|bad| - 4] == data;
      var field := bad[|bad| - 4..];
      assert field[i - |data|] != Encode(sum, 4)[i - |data|];
      EncodeDecode(field);
    }
  }

  /**
    In a stream, what precedes the damaged frame is delivered; there it stops, with the damage reported,
    unless the filter turns the damaged frame away: then it goes on behind it.
   */
  lemma CorruptionStopsStream<M(!new)>(codec: Codec<M>, ms: seq<M>, m: M, i: nat, b: Byte, more: seq<Byte>)
    requires codec.BodyInverse()
    requires forall k :: k in ms + [m] ==> codec.MessageLen(k) <= INT_MAX && Deliverable(codec, k)
    requires i < |codec.Covered(m)| && codec.Covered(m)[i] != b
    ensures m in ms + [m]
    ensures var bad := codec.Frame(m)[HEADER_LEN + i := b];
            Deliver(codec, Frames(codec, ms) + (bad + more)) ==
            if codec.Wanted(bad) then Outcome(Kept(codec, ms), bad + more, CheckSumError)
            else (var o := Deliver(codec, more); o.(messages := Kept(codec, ms) + o.messages))
  {
    assert m in ms + [m] && forall k :: k in ms ==> k in ms + [m];
    var bad := codec.Frame(m)[HEADER_LEN + i := b];
    BadFrame(codec, m, i, b, more);
    hide Deliver, Codec.Frame, Codec.Covered, Codec.Wanted;
    FramesThen(codec, ms, bad + more);
    assert Kept(codec, ms) + [] == Kept(codec, ms);
  }

  lemma BadFrame<M(!new)>(codec: Codec<M>, m: M, i: nat, b: Byte, more: seq<Byte>)
    requires codec.MessageLen(m) <= INT_MAX && Deliverable(codec, m)
    requires i < |codec.Covered(m)| && codec.Covered(m)[i] != b
    ensures HEADER_LEN + i < |codec.Frame(m)|
    ensures var bad := codec.Frame(m)[HEADER_LEN + i := b];
            Deliver(codec, bad + more) ==
            if codec.Wanted(bad) then Outcome([], bad + more, CheckSumError) else Deliver(codec, more)
  {
    FrameShape(codec, m);
    CorruptionDetected(codec, m, i, b);
    hide Codec.ParseFrame, Codec.Covered, Codec.Frame, Codec.Wanted, ToBytes, FromBytes;
    var f, len := codec.Frame(m), codec.MessageLen(m);
    var s := f[HEADER_LEN + i := b] + more;
    assert s[..4] == f[..4];
    assert s[..HEADER_LEN + len] == f[HEADER_LEN + i := b];
    assert s[HEADER_LEN..HEADER_LEN + len] == f[4..][i := b] && s[HEADER_LEN + len..] == more;
  }
}
