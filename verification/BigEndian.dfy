/**
  Two's-complement integers in network byte order, for any width: what hostToNetwork, memcpy and
  networkToHost do together (muduo/net/Endian.h).
 */
module BigEndian {

  type Byte = b: int | 0 <= b < 256

  function Power256(width: nat): nat {
    if width == 0 then 1 else 256 * Power256(width - 1)
  }

  /** The digits of x in base 256, most significant first, as many as width says. */
  function ToBytes(x: nat, width: nat): (s: seq<Byte>)
    ensures |s| == width
  {
    if width == 0 then [] else ToBytes(x / 256, width - 1) + [x % 256]
  }

  function FromBytes(s: seq<Byte>): nat {
    if |s| == 0 then 0 else FromBytes(s[..|s| - 1]) * 256 + s[|s| - 1]
  }

  lemma {:induction false} PowerPositive(width: nat)
    ensures Power256(width) > 0
  {
    if width > 0 { PowerPositive(width - 1); }
  }

  lemma {:induction false} FromToBytes(x: nat, width: nat)
    requires x < Power256(width)
    ensures FromBytes(ToBytes(x, width)) == x
  {
    if width > 0 {
      FromToBytes(x / 256, width - 1);
      assert ToBytes(x, width)[..width - 1] == ToBytes(x / 256, width - 1);
    }
  }

  lemma {:induction false} ToFromBytes(s: seq<Byte>)
    ensures FromBytes(s) < Power256(|s|)
    ensures ToBytes(FromBytes(s), |s|) == s
  {
    if |s| > 0 {
      ToFromBytes(s[..|s| - 1]);
    }
  }

  /** Byte k of the encoding is digit k in base 256, counted from the most significant one. */
  lemma {:induction false} ByteAt(x: nat, width: nat, k: nat)
    requires k < width && x < Power256(width)
    ensures Power256(width - 1 - k) > 0
    ensures ToBytes(x, width)[k] == x / Power256(width - 1 - k) % 256
  {
    PowerPositive(width - 1 - k);
    if k < width - 1 {
      ByteAt(x / 256, width - 1, k);
      var p := Power256(width - 2 - k);
      assert Power256(width - 1 - k) == 256 * p;
      DivideTwice(x, p);
    } else {
      assert Power256(0) == 1;
    }
  }

  lemma DivideTwice(x: nat, p: nat)
    requires p > 0
    ensures x / 256 / p == x / (256 * p)
  {
    var q := x / 256 / p;
    var r := x / 256 - q * p;
    assert 0 <= r < p;
    assert x == (256 * p) * q + (256 * r + x % 256);
    QuotientIs(x, 256 * p, q, 256 * r + x % 256);
  }

  lemma QuotientIs(x: nat, d: nat, q: nat, r: nat)
    requires x == d * q + r && r < d
    ensures x / d == q
  {
    var a := x / d;
    assert x == d * a + x % d && 0 <= x % d < d;
    assert d * (q - a) == x % d - r;
    MultipleGrows(d, q - a);
  }

  lemma MultipleGrows(d: int, k: int)
    requires d > 0
    ensures k >= 1 ==> d * k >= d
    ensures k <= -1 ==> d * k <= -d
  {
    if k >= 1 {
      assert d * (k - 1) >= 0;
    } else if k <= -1 {
      assert d * (k + 1) <= 0;
    }
  }

  // ---------- signed integers ----------

  /** The values of a signed integer of the given number of bytes. */
  predicate InRange(x: int, width: nat)
    requires width > 0
  {
    -(Power256(width) / 2) <= x < Power256(width) / 2
  }

  function Encode(x: int, width: nat): (s: seq<Byte>)
    requires width > 0 && InRange(x, width)
    ensures |s| == width
  {
    PowerPositive(width);
    ToBytes(if x < 0 then x + Power256(width) else x, width)
  }

  function Decode(s: seq<Byte>): int
    requires |s| > 0
  {
    var x := FromBytes(s);
    if x >= Power256(|s|) / 2 then x - Power256(|s|) else x
  }

  lemma DecodeEncode(x: int, width: nat)
    requires width > 0 && InRange(x, width)
    ensures Decode(Encode(x, width)) == x
  {
    PowerPositive(width);
    PowerEven(width);
    FromToBytes(if x < 0 then x + Power256(width) else x, width);
  }

  /** A negative value is sent as its sum with 256 to the width, most significant byte first. */
  lemma EncodedByte(x: int, width: nat, k: nat)
    requires width > 0 && InRange(x, width) && k < width
    ensures Power256(width - 1 - k) > 0
    ensures Encode(x, width)[k] == (if x < 0 then x + Power256(width) else x) / Power256(width - 1 - k) % 256
  {
    PowerPositive(width);
    PowerEven(width);
    ByteAt(if x < 0 then x + Power256(width) else x, width, k);
  }

  lemma EncodeDecode(s: seq<Byte>)
    requires |s| > 0
    ensures InRange(Decode(s), |s|) && Encode(Decode(s), |s|) == s
  {
    ToFromBytes(s);
    PowerEven(|s|);
  }

  lemma PowerEven(width: nat)
    requires width > 0
    ensures Power256(width) % 2 == 0
  {
    assert Power256(width) == 2 * (128 * Power256(width - 1));
  }

  lemma Powers()
    ensures Power256(1) == 0x100 && Power256(2) == 0x1_0000
    ensures Power256(4) == 0x1_0000_0000 && Power256(8) == 0x1_0000_0000_0000_0000
  {
    assert Power256(3) == 0x100_0000;
    assert Power256(5) == 0x100_0000_0000;
    assert Power256(6) == 0x1_0000_0000_0000;
    assert Power256(7) == 0x100_0000_0000_0000;
  }
}
