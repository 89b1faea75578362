/**
  Integer printing of muduo/base/LogStream.cc (convert, convertHex, formatInteger) and the fixed
  buffer it prints into (LogStream.h).
 */
module LogStream {
  import opened Date

  // ---------- numerals ----------

  const DIGITS: string := "0123456789ABCDEF"
  /** The digits of remainders -9 .. 9, mirrored around the zero in the middle. */
  const MIRRORED: string := "9876543210123456789"

  type Base = b: int | b == 10 || b == 16 witness 10

  function Numeral(n: nat, base: Base): (s: string)
    ensures s != []
  {
    if n < base then [DIGITS[n]] else Numeral(n / base, base) + [DIGITS[n % base]]
  }

  function Decimal(v: int): string {
    if v < 0 then "-" + Numeral(-v, 10) else Numeral(v, 10)
  }

  /** Reading a numeral: the value of a character, then Horner's rule. */
  function DigitValue(c: char): int {
    if '0' <= c <= '9' then c as int - '0' as int
    else if 'A' <= c <= 'F' then c as int - 'A' as int + 10
    else -1
  }

  predicate IsNumeral(s: string, base: Base) {
    s != [] && forall i :: 0 <= i < |s| ==> 0 <= DigitValue(s[i]) < base
  }

  function ValueOf(s: string, base: Base): int {
    if s == [] then 0 else ValueOf(s[..|s| - 1], base) * base + DigitValue(s[|s| - 1])
  }

  function ReadDecimal(s: string): int {
    if s != [] && s[0] == '-' then -ValueOf(s[1..], 10) else ValueOf(s, 10)
  }

  predicate NoLeadingZero(s: string) { |s| > 1 ==> s[0] != '0' }

  lemma DigitRoundTrip(d: int)
    requires 0 <= d < 16
    ensures DigitValue(DIGITS[d]) == d && (d != 0 ==> DIGITS[d] != '0') && DIGITS[d] != '-'
  {}

  lemma {:induction false} NumeralReadsBack(n: nat, base: Base)
    ensures var s := Numeral(n, base);
            IsNumeral(s, base) && NoLeadingZero(s) && ValueOf(s, base) == n && (n > 0 ==> s[0] != '0')
  {
    Division(n, base);
    DigitRoundTrip(n % base);
    if n >= base {
      NumeralReadsBack(n / base, base);
      var s := Numeral(n, base);
      assert s[..|s| - 1] == Numeral(n / base, base);
      assert s[0] == Numeral(n / base, base)[0];
    } else {
      DigitRoundTrip(n);
      var s := Numeral(n, base);
      assert s[..0] == [];
    }
  }

  lemma {:induction false} ValuePositive(s: string, base: Base)
    requires IsNumeral(s, base)
    ensures ValueOf(s, base) >= 0 && (s[0] != '0' ==> ValueOf(s, base) > 0)
  {
    var init := s[..|s| - 1];
    if init == [] {
      DigitCharacter(s[0]);
    } else {
      assert init[0] == s[0];
      ValuePositive(init, base);
    }
  }

  /** The canonical numeral of a value is unique. */
  lemma {:induction false} NumeralIsUnique(s: string, base: Base)
    requires IsNumeral(s, base) && NoLeadingZero(s)
    ensures ValueOf(s, base) >= 0 && s == Numeral(ValueOf(s, base), base)
  {
    hide Numeral, DigitValue;
    ValuePositive(s, base);
    var c := s[|s| - 1];
    var init := s[..|s| - 1];
    DigitCharacter(c);
    assert s == init + [c];
    if init == [] {
      SmallNumeral(DigitValue(c), base);
    } else {
      assert init[0] == s[0];
      ValuePositive(init, base);
      NumeralIsUnique(init, base);
      NumeralStep(ValueOf(init, base), DigitValue(c), base);
    }
  }

  lemma SmallNumeral(last: nat, base: Base)
    requires last < base
    ensures Numeral(last, base) == [DIGITS[last]] && ValueOf([], base) == 0
  {}

  lemma NumeralStep(n: nat, last: nat, base: Base)
    requires n > 0 && last < base
    ensures Numeral(n * base + last, base) == Numeral(n, base) + [DIGITS[last]]
    ensures n * base + last > 0
  {
    Quotient(n, last, base);
  }

  lemma DigitCharacter(c: char)
    requires 0 <= DigitValue(c) < 16
    ensures DIGITS[DigitValue(c)] == c && (c != '0' ==> DigitValue(c) > 0)
  {}

  lemma Quotient(q: nat, r: nat, base: Base)
    requires r < base
    ensures (q * base + r) / base == q && (q * base + r) % base == r
    ensures q > 0 ==> q * base + r >= base
  {
    if base == 10 {
    } else {
      assert base == 16;
    }
  }

  lemma Division(n: nat, base: Base)
    ensures n == (n / base) * base + n % base && 0 <= n % base < base
    ensures n >= base ==> 0 < n / base < n
  {
    if base == 10 {
    } else {
      assert base == 16;
    }
  }

  function Power(base: Base, e: nat): nat {
    if e == 0 then 1 else base * Power(base, e - 1)
  }

  /** A value below base^k has at most k digits. */
  lemma {:induction false} NumeralLength(n: nat, base: Base, k: nat)
    requires k > 0 && n < Power(base, k)
    ensures |Numeral(n, base)| <= k
  {
    if n >= base {
      PowerOne(base);
      SmallerQuotient(n, Power(base, k - 1), base);
      Division(n, base);
      NumeralLength(n / base, base, k - 1);
    }
  }

  lemma PowerOne(base: Base)
    ensures Power(base, 1) == base
  {
    assert Power(base, 0) == 1;
  }

  lemma SmallerQuotient(n: nat, p: nat, base: Base)
    requires n < base * p
    ensures n / base < p
  {
    if base == 10 {
    } else {
      assert base == 16;
    }
  }

  const INT64_MIN: int := -0x8000_0000_0000_0000
  const UINT64_MAX: nat := 0xffff_ffff_ffff_ffff

  /** Signed or unsigned, up to 64 bits. */
  predicate Is64Bit(v: int) { INT64_MIN <= v <= UINT64_MAX }

  lemma Powers()
    ensures Power(10, 20) == 100_000_000_000_000_000_000 && Power(16, 16) == 0x1_0000_0000_0000_0000
  {
    assert Power(10, 5) == 100_000;
    assert Power(10, 10) == 10_000_000_000;
    assert Power(10, 15) == 1_000_000_000_000_000;
    assert Power(16, 4) == 0x1_0000;
    assert Power(16, 8) == 0x1_0000_0000;
    assert Power(16, 12) == 0x1_0000_0000_0000;
  }

  /** With sign and terminating NUL a 64-bit value takes at most 22 characters. */
  lemma DecimalFits(v: int)
    requires Is64Bit(v)
    ensures |Decimal(v)| <= 21
  {
    Powers();
    NumeralLength(if v < 0 then -v else v, 10, 20);
  }

  lemma DecimalReadsBack(v: int)
    ensures ReadDecimal(Decimal(v)) == v
    ensures IsDecimal(Decimal(v))
  {
    NumeralReadsBack(if v < 0 then -v else v, 10);
    if v < 0 {
      assert Decimal(v)[1..] == Numeral(-v, 10);
    } else {
      var s := Decimal(v);
      assert 0 <= DigitValue(s[0]) && DigitValue('-') == -1;
    }
  }

  /** A decimal numeral in canonical form. */
  predicate IsDecimal(s: string) {
    || (IsNumeral(s, 10) && NoLeadingZero(s))
    || (|s| > 1 && s[0] == '-' && IsNumeral(s[1..], 10) && s[1] != '0')
  }

  lemma DecimalIsUnique(s: string)
    requires IsDecimal(s)
    ensures s == Decimal(ReadDecimal(s))
  {
    hide ValueOf, Numeral;
    if s[0] == '-' {
      var digits := s[1..];
      assert |digits| > 0 && digits[0] == s[1];
      ValuePositive(digits, 10);
      NumeralIsUnique(digits, 10);
      assert s == "-" + digits;
    } else {
      ValuePositive(s, 10);
      NumeralIsUnique(s, 10);
    }
  }

  // ---------- in-place reversal ----------

  /** Read from the end, t is s. */
  ghost predicate Mirrors(s: string, t: string) {
    |s| == |t| && forall k :: 0 <= k < |s| ==> s[k] == t[|t| - 1 - k]
  }

  lemma MinusMirrored(s: string, t: string)
    requires Mirrors(s, t)
    ensures Mirrors("-" + s, t + "-")
  {}

  lemma MirrorIsUnique(s: string, s': string, t: string)
    requires Mirrors(s, t) && Mirrors(s', t)
    ensures s == s'
  {}

  /** std::reverse on buf[from..to]: two positions move towards each other. */
  method Reverse(buf: array<char>, from: nat, to: nat)
    requires from <= to <= buf.Length
    modifies buf
    ensures forall k :: 0 <= k < from || to <= k < buf.Length ==> buf[k] == old(buf[k])
    ensures Mirrors(buf[from..to], old(buf[from..to]))
  {
    var first, last := from, to;
    while first < last
      invariant from <= first <= to && from <= last <= to && first - from == to - last
      invariant forall k :: 0 <= k < from || to <= k < buf.Length ==> buf[k] == old(buf[k])
      invariant forall k :: first <= k < last ==> buf[k] == old(buf[k])
      invariant forall k :: from <= k < first || last <= k < to ==> buf[k] == old(buf[from + to - 1 - k])
      decreases last - first
    {
      last := last - 1;
      buf[first], buf[last] := buf[last], buf[first];
      first := first + 1;
    }
  }

  // ---------- convert and convertHex ----------

  /** C++ remainder and quotient of a signed value leave a mirrored digit index between -9 and 9. */
  lemma MirroredDigit(i: int)
    ensures -9 <= Mod(i, 10) <= 9
    ensures MIRRORED[9 + Mod(i, 10)] == DIGITS[Magnitude(i) % 10]
    ensures Magnitude(Div(i, 10)) == Magnitude(i) / 10
    ensures Is64Bit(i) ==> Is64Bit(Div(i, 10))
  {
    var m := Mod(i, 10);
    assert m == if i >= 0 then i % 10 else -((-i) % 10);
  }

  function Magnitude(i: int): nat { if i < 0 then -i else i }

  /** The first `len` characters at `at`, and the NUL behind them. */
  ghost predicate Holds(buf: array<char>, at: nat, s: string)
    reads buf
  {
    at + |s| < buf.Length && buf[at..at + |s|] == s && buf[at + |s|] == '\0'
  }

  /**
    No negation is performed: the value is only divided. `at` is where the text starts; the caller
    guarantees kMaxNumericSize characters of room.
   */
  method Convert(buf: array<char>, at: nat, value: int) returns (len: nat)
    requires Is64Bit(value) && at + 48 <= buf.Length
    modifies buf
    ensures len == |Decimal(value)| && Holds(buf, at, Decimal(value))
    ensures forall k :: 0 <= k < at ==> buf[k] == old(buf[k])
  {
    hide Mirrors, Numeral, Holds, Is64Bit;
    ghost var written;
    var p;
    p, written := WriteDigits(buf, at, value);
    if value < 0 {
      MinusMirrored(Numeral(-value, 10), written);
      WriteChar(buf, at, p, '-');
      written := written + "-";
      p := p + 1;
    }
    Terminate(buf, at, p, Decimal(value));
    len := p - at;
  }

  /** The end of both conversions: a NUL behind the digits, and the digits turned round. */
  method Terminate(buf: array<char>, at: nat, p: nat, ghost s: string)
    requires at <= p < buf.Length && Mirrors(s, buf[at..p])
    modifies buf
    ensures |s| == p - at && Holds(buf, at, s)
    ensures forall k :: 0 <= k < at ==> buf[k] == old(buf[k])
  {
    ghost var written := buf[at..p];
    buf[p] := '\0';
    assert buf[at..p] == written;
    Reverse(buf, at, p);
    MirrorIsUnique(buf[at..p], s, written);
  }

  method WriteChar(buf: array<char>, at: nat, p: nat, c: char)
    requires at <= p < buf.Length
    modifies buf
    ensures buf[at..p + 1] == old(buf[at..p]) + [c]
    ensures forall k :: 0 <= k < at ==> buf[k] == old(buf[k])
  {
    buf[p] := c;
  }

  /** The do-while loop: least significant digit first. */
  method WriteDigits(buf: array<char>, at: nat, value: int) returns (p: nat, ghost written: string)
    requires Is64Bit(value) && at + 48 <= buf.Length
    modifies buf
    ensures at <= p == at + |written| <= at + 20 && buf[at..p] == written
    ensures Mirrors(Numeral(Magnitude(value), 10), written)
    ensures forall k :: 0 <= k < at ==> buf[k] == old(buf[k])
  {
    hide Mirrors, Progress, Numeral, Power, Mod, Div;
    ghost var whole := Numeral(Magnitude(value), 10);
    ProgressStart(Magnitude(value), 10);
    Powers();
    NumeralLength(Magnitude(value), 10, 20);
    var i := value;
    p := at;
    written := "";
    var again := true;
    while again
      invariant at <= p == at + |written| <= at + 20
      invariant buf[at..p] == written
      invariant Is64Bit(i) && Progress(whole, Magnitude(i), written, again, 10)
      invariant forall k :: 0 <= k < at ==> buf[k] == old(buf[k])
      invariant !again ==> i == 0
      decreases again, Magnitude(i)
    {
      var lsd := Mod(i, 10);
      MirroredDigit(i);
      ProgressStep(whole, Magnitude(i), written, 10);
      i := Div(i, 10);
      var digit := MIRRORED[9 + lsd];
      WriteChar(buf, at, p, digit);
      written := written + [digit];
      p := p + 1;
      again := i != 0;
    }
    ProgressDone(whole, 0, written, 10);
  }

  /** The digits written so far are the last ones of the numeral, in mirrored order; the others are still to come. */
  ghost predicate Progress(whole: string, i: nat, written: string, again: bool, base: Base) {
    && |written| <= |whole|
    && whole[..|whole| - |written|] == (if again then Numeral(i, base) else "")
    && forall k :: 0 <= k < |written| ==> written[k] == whole[|whole| - 1 - k]
  }

  lemma ProgressStart(n: nat, base: Base)
    ensures Progress(Numeral(n, base), n, "", true, base)
  {}

  lemma ProgressDone(whole: string, i: nat, written: string, base: Base)
    requires Progress(whole, i, written, false, base)
    ensures Mirrors(whole, written)
  {
    hide Numeral;
  }

  lemma ProgressStep(whole: string, i: nat, written: string, base: Base)
    requires Progress(whole, i, written, true, base)
    ensures Progress(whole, i / base, written + [DIGITS[i % base]], i / base != 0, base)
    ensures i / base != 0 ==> i / base < i
    ensures |written| + 1 <= |whole|
  {
    NumeralSplit(i, base);
    hide Numeral;
    var rest := whole[..|whole| - |written|];
    var front := if i / base != 0 then Numeral(i / base, base) else "";
    assert rest == front + [DIGITS[i % base]];
    assert whole[..|front|] == rest[..|front|] == front;
    assert whole[|front|] == rest[|front|] == DIGITS[i % base];
  }

  lemma NumeralSplit(n: nat, base: Base)
    ensures Numeral(n, base) == (if n / base != 0 then Numeral(n / base, base) else "") + [DIGITS[n % base]]
    ensures n / base != 0 ==> n / base < n
  {
    Division(n, base);
    if base == 10 {
    } else {
      assert base == 16;
    }
  }

  method ConvertHex(buf: array<char>, at: nat, value: nat) returns (len: nat)
    requires value <= UINT64_MAX && at + 17 <= buf.Length
    modifies buf
    ensures len == |Numeral(value, 16)| <= 16 && Holds(buf, at, Numeral(value, 16))
    ensures forall k :: 0 <= k < at ==> buf[k] == old(buf[k])
  {
    ghost var written;
    var p;
    p, written := WriteHexDigits(buf, at, value);
    Terminate(buf, at, p, Numeral(value, 16));
    len := p - at;
  }

  method WriteHexDigits(buf: array<char>, at: nat, value: nat) returns (p: nat, ghost written: string)
    requires value <= UINT64_MAX && at + 17 <= buf.Length
    modifies buf
    ensures at <= p == at + |written| <= at + 16 && buf[at..p] == written
    ensures Mirrors(Numeral(value, 16), written)
    ensures forall k :: 0 <= k < at ==> buf[k] == old(buf[k])
  {
    hide Mirrors, Progress, Numeral, Power;
    ghost var whole := Numeral(value, 16);
    ProgressStart(value, 16);
    Powers();
    NumeralLength(value, 16, 16);
    var i := value;
    p := at;
    written := "";
    var again := true;
    while again
      invariant at <= p == at + |written| <= at + 16
      invariant buf[at..p] == written
      invariant Progress(whole, i, written, again, 16)
      invariant forall k :: 0 <= k < at ==> buf[k] == old(buf[k])
      invariant !again ==> i == 0
      decreases again, i
    {
      var lsd := i % 16;
      ProgressStep(whole, i, written, 16);
      i := i / 16;
      WriteChar(buf, at, p, DIGITS[lsd]);
      written := written + [DIGITS[lsd]];
      p := p + 1;
      again := i != 0;
    }
    ProgressDone(whole, 0, written, 16);
  }

  // ---------- the buffer and the stream ----------

  const SMALL_BUFFER: nat := 4000
  const LARGE_BUFFER: nat := 4000 * 1000
  const MAX_NUMERIC_SIZE: nat := 48

  /** Text that does not fit, with a byte to spare, is dropped whole. */
  function Appended(contents: string, text: string, size: nat): string {
    if |contents| + |text| < size then contents + text else contents
  }

  class FixedBuffer {
    const data: array<char>
    var cur: nat

    ghost predicate Valid()
      reads this
    {
      cur <= data.Length
    }

    ghost function Contents(): string
      requires Valid()
      reads this, data
    {
      data[..cur]
    }

    constructor (size: nat)
      ensures Valid() && fresh(data) && data.Length == size && Contents() == ""
    {
      data := new char[size];
      cur := 0;
    }

    function Avail(): nat
      requires Valid()
      reads this
    {
      data.Length - cur
    }

    method Append(text: string)
      requires Valid()
      modifies this, data
      ensures Valid() && Contents() == Appended(old(Contents()), text, data.Length)
      ensures Contents() ==
              if |old(Contents())| + |text| < data.Length then old(Contents()) + text else old(Contents())
    {
      if Avail() > |text| {
        forall i | 0 <= i < |text| {
          data[cur + i] := text[i];
        }
        cur := cur + |text|;
      }
    }

    method Reset()
      requires Valid()
      modifies this
      ensures Valid() && Contents() == ""
    {
      cur := 0;
    }

    /** The caller has written len characters behind the contents. */
    method Add(len: nat)
      requires Valid() && len <= Avail()
      modifies this
      ensures Valid() && cur == old(cur) + len
    {
      cur := cur + len;
    }
  }

  lemma HeldBehind(buf: array<char>, at: nat, before: string, s: string)
    requires Holds(buf, at, s) && |before| == at && forall k :: 0 <= k < at ==> buf[k] == before[k]
    ensures at + |s| < buf.Length && buf[..at + |s|] == before + s
  {
    assert buf[..at + |s|] == buf[..at] + buf[at..at + |s|];
  }

  class LogStream {
    const buffer: FixedBuffer

    ghost predicate Valid()
      reads this, buffer
    {
      buffer.Valid() && buffer.data.Length == SMALL_BUFFER
    }

    constructor ()
      ensures Valid() && fresh(buffer) && fresh(buffer.data) && buffer.Contents() == ""
    {
      buffer := new FixedBuffer(SMALL_BUFFER);
    }

    method FormatInteger(v: int)
      requires Valid() && Is64Bit(v)
      modifies buffer, buffer.data
      ensures Valid()
      ensures buffer.Contents() ==
              if old(buffer.Avail()) >= MAX_NUMERIC_SIZE then old(buffer.Contents()) + Decimal(v)
              else old(buffer.Contents())
    {
      hide Decimal, Is64Bit, Holds;
      if buffer.Avail() >= MAX_NUMERIC_SIZE {
        var cur := buffer.cur;
        var len := Convert(buffer.data, cur, v);
        HeldBehind(buffer.data, cur, old(buffer.data[..buffer.cur]), Decimal(v));
        buffer.Add(len);
      }
    }

    method FormatPointer(v: nat)
      requires Valid() && v <= UINT64_MAX
      modifies buffer, buffer.data
      ensures Valid()
      ensures buffer.Contents() ==
              if old(buffer.Avail()) >= MAX_NUMERIC_SIZE then old(buffer.Contents()) + ("0x" + Numeral(v, 16))
              else old(buffer.Contents())
    {
      if buffer.Avail() >= MAX_NUMERIC_SIZE {
        hide Numeral;
        var buf := buffer.cur;
        buffer.data[buf] := '0';
        buffer.data[buf + 1] := 'x';
        assert buffer.data[..buf + 2] == old(buffer.data[..buf]) + "0x";
        label prefixed:
        var len := ConvertHex(buffer.data, buf + 2, v);
        assert buffer.data[..buf + 2] == old@prefixed(buffer.data[..buf + 2]);
        buffer.Add(len + 2);
        assert buffer.Contents() == buffer.data[..buf + 2] + buffer.data[buf + 2..buf + 2 + len];
      }
    }
  }
}
