/**
  What a receiver makes of any frame, good or bad, and the checksum in closed form.
 */
module ProtobufFrames {
  import opened Wrappers
  import opened BigEndian
  import opened ProtobufCodec

  // ---------- Adler-32 (section 2.2 of RFC 1950) in closed form ----------

  function Total(s: seq<Byte>): nat { if s == [] then 0 else s[0] + Total(s[1..]) }

  /** Each byte as often as there are bytes from it to the end. */
  function Weighted(s: seq<Byte>): nat { if s == [] then 0 else |s| * s[0] + Weighted(s[1..]) }

  lemma {:induction false} TotalLast(s: seq<Byte>, x: Byte)
    ensures Total(s + [x]) == Total(s) + x
    ensures Weighted(s + [x]) == Weighted(s) + Total(s) + x
  {
    if s == [] {
      assert s + [x] == [x] && [x][1..] == [];
    } else {
      TotalLast(s[1..], x);
      assert (s + [x])[1..] == s[1..] + [x];
    }
  }

  lemma {:induction false} SumsClosed(s: seq<Byte>)
    ensures SumA(s) == (1 + Total(s)) % 65521
    ensures SumB(s) == (|s| + Weighted(s)) % 65521
  {
    if s != [] {
      var init, x := s[..|s| - 1], s[|s| - 1];
      SumsClosed(init);
      TotalLast(init, x);
      assert init + [x] == s;
      assert SumA(s) == (SumA(init) + x) % 65521 && SumB(s) == (SumB(init) + SumA(s)) % 65521;
      hide SumA, SumB, Total, Weighted;
      ModSum(1 + Total(init), x);
      ModSums(|init| + Weighted(init), 1 + Total(s));
    }
  }

  lemma ModSums(x: nat, y: nat)
    ensures (x % 65521 + y % 65521) % 65521 == (x + y) % 65521
  {}

  lemma ModSum(x: nat, y: nat)
    ensures (x % 65521 + y) % 65521 == (x + y) % 65521
  {}

  /** The checksum field holds the two sums as one unsigned 32-bit number, most significant byte first. */
  lemma ChecksumClosed(s: seq<Byte>)
    ensures InRange(Checksum(s), 4)
    ensures FromBytes(Encode(Checksum(s), 4))
         == (|s| + Weighted(s)) % 65521 * 65536 + (1 + Total(s)) % 65521
  {
    SumsClosed(s);
    SumsInRange(s);
    ChecksumInRange(s);
    FromToBytes(Adler32(s), 4);
    hide Encode, ToBytes, FromBytes, Checksum;
  }

  // ---------- any frame ----------

  /** Some text with its length in front and its checksum behind. */
  function Framed(data: seq<Byte>): seq<Byte>
    requires |data| + 4 <= INT_MAX
  {
    Powers();
    ChecksumInRange(data);
    Encode(|data| + 4, 4) + (data + Encode(Checksum(data), 4))
  }

  /** parse on text with a correct checksum: the tag is looked at first, then the body. */
  lemma ParseExactly<M(!new)>(codec: Codec<M>, data: seq<Byte>)
    requires |data| >= |codec.tag|
    ensures InRange(Checksum(data), 4)
    ensures codec.ParseFrame(data + Encode(Checksum(data), 4)) ==
            if data[..|codec.tag|] != codec.tag then Rejected(UnknownMessageType)
            else if codec.parseBody(data[|codec.tag|..]).None? then Rejected(ParseError)
            else Parsed(codec.parseBody(data[|codec.tag|..]).value)
  {
    ChecksumInRange(data);
    DecodeEncode(Checksum(data), 4);
    var buf := data + Encode(Checksum(data), 4);
    assert buf[..|buf| - 4] == data && buf[|buf| - 4..] == Encode(Checksum(data), 4);
    hide Checksum, Encode, Decode;
  }

  /** And with any other four bytes behind it: a checksum error. */
  lemma ParseWrongSum<M(!new)>(codec: Codec<M>, data: seq<Byte>, field: seq<Byte>)
    requires |data| >= |codec.tag| && |field| == 4
    ensures InRange(Checksum(data), 4)
    ensures field != Encode(Checksum(data), 4) ==> codec.ParseFrame(data + field) == Rejected(CheckSumError)
  {
    ChecksumInRange(data);
    EncodeDecode(field);
    var buf := data + field;
    assert buf[..|buf| - 4] == data && buf[|buf| - 4..] == field;
    hide Checksum, Encode, Decode;
  }

  /** What onMessage makes of an intact frame in front of the buffer. */
  lemma FrameExactly<M(!new)>(codec: Codec<M>, data: seq<Byte>, more: seq<Byte>)
    requires |codec.tag| <= |data| && |data| + 4 <= 67_108_864
    ensures var f := Framed(data);
            var o := Deliver(codec, more);
            Deliver(codec, f + more) ==
            if codec.rawFilter.Some? && !codec.rawFilter.value(f) then o
            else if data[..|codec.tag|] != codec.tag then Outcome([], f + more, UnknownMessageType)
            else
              var m := codec.parseBody(data[|codec.tag|..]);
              if m.None? then Outcome([], f + more, ParseError) else o.(messages := [m.value] + o.messages)
  {
    Powers();
    ParseExactly(codec, data);
    DecodeEncode(|data| + 4, 4);
    var f := Framed(data);
    var n := 4 + |data| + 4;
    var s := f + more;
    assert s[..4] == Encode(|data| + 4, 4);
    assert s[..n] == f && s[4..n] == data + Encode(Checksum(data), 4) && s[n..] == more;
    hide Framed, Checksum, Encode, Decode, Codec.ParseFrame;
  }

  /** After good frames: an intact frame with a foreign tag ends delivery and stays in the buffer. */
  lemma ForeignTagStops<M(!new)>(codec: Codec<M>, ms: seq<M>, data: seq<Byte>, more: seq<Byte>)
    requires codec.BodyInverse()
    requires forall m :: m in ms ==> codec.MessageLen(m) <= INT_MAX && Deliverable(codec, m)
    requires |codec.tag| <= |data| && |data| + 4 <= 67_108_864 && data[..|codec.tag|] != codec.tag
    requires codec.rawFilter.Some? ==> codec.rawFilter.value(Framed(data))
    ensures Deliver(codec, Frames(codec, ms) + (Framed(data) + more))
         == Outcome(Kept(codec, ms), Framed(data) + more, UnknownMessageType)
  {
    FrameExactly(codec, data, more);
    hide Deliver, Framed, Codec.Frame;
    FramesThen(codec, ms, Framed(data) + more);
    assert Kept(codec, ms) + [] == Kept(codec, ms);
  }

  /** The frame of a sender with another tag of the same length is such a frame. */
  lemma OtherSenderStops<M(!new), N(!new)>(codec: Codec<M>, other: Codec<N>, ms: seq<M>, m: N, more: seq<Byte>)
    requires codec.BodyInverse()
    requires forall k :: k in ms ==> codec.MessageLen(k) <= INT_MAX && Deliverable(codec, k)
    requires |other.tag| == |codec.tag| && other.tag != codec.tag && other.MessageLen(m) <= 67_108_864
    requires codec.rawFilter.Some? ==> codec.rawFilter.value(other.Frame(m))
    ensures Deliver(codec, Frames(codec, ms) + (other.Frame(m) + more))
         == Outcome(Kept(codec, ms), other.Frame(m) + more, UnknownMessageType)
  {
    var data := other.tag + other.serialize(m);
    assert data[..|codec.tag|] == other.tag;
    assert Framed(data) == other.Frame(m);
    hide Deliver, Framed, Codec.Frame;
    ForeignTagStops(codec, ms, data, more);
  }

  /** A length field above 64 MB, or too small for tag and checksum, is an error; nothing is consumed. */
  lemma BadLengthStops<M(!new)>(codec: Codec<M>, s: seq<Byte>)
    requires |s| >= |codec.tag| + 8
    requires Decode(s[..4]) > 67_108_864 || Decode(s[..4]) < |codec.tag| + 4
    ensures Deliver(codec, s) == Outcome([], s, InvalidLength)
  {
    hide Decode;
  }

  /** An incomplete frame waits for more. */
  lemma IncompleteWaits<M(!new)>(codec: Codec<M>, s: seq<Byte>)
    requires |s| < |codec.tag| + 8
          || (|codec.tag| + 4 <= Decode(s[..4]) <= 67_108_864 && |s| < 4 + Decode(s[..4]))
    ensures Deliver(codec, s) == Outcome([], s, NoError)
  {
    hide Decode;
  }
}
