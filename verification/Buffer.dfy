/**
  muduo/net/Buffer.h and Buffer.cc: a byte vector with a readable window. Each method is specified by
  what it does to the window (a byte string) and to the free space before and after it.
 */
module NetBuffer {
  import opened Wrappers
  import opened BigEndian
  import opened ByteSearch

  const CHEAP_PREPEND: nat := 8
  const INITIAL_SIZE: nat := 1024
  const EXTRA_BUFFER: nat := 65536

  /** Prependable bytes, readable content, writable bytes. */
  datatype Space = Layout(front: nat, content: seq<Byte>, back: nat)

  type Layout = v: Space | v.front + |v.content| + v.back >= CHEAP_PREPEND witness Layout(CHEAP_PREPEND, [], 0)

  /** Appending: keep the layout, move the content to the front, or grow to exactly fit. */
  function Appended(v: Layout, bytes: seq<Byte>): Layout {
    if |bytes| <= v.back then Layout(v.front, v.content + bytes, v.back - |bytes|)
    else if v.back + v.front < |bytes| + CHEAP_PREPEND then Layout(v.front, v.content + bytes, 0)
    else Layout(CHEAP_PREPEND, v.content + bytes, v.back + v.front - CHEAP_PREPEND - |bytes|)
  }

  function Ensured(v: Layout, len: nat): Layout {
    if len <= v.back then v
    else if v.back + v.front < len + CHEAP_PREPEND then v.(back := len)
    else Layout(CHEAP_PREPEND, v.content, v.back + v.front - CHEAP_PREPEND)
  }

  function Retrieved(v: Layout, len: nat): Layout
    requires len <= |v.content|
  {
    if len < |v.content| then Layout(v.front + len, v.content[len..], v.back)
    else Layout(CHEAP_PREPEND, [], v.front + |v.content| + v.back - CHEAP_PREPEND)
  }

  function Shrunk(v: Layout, reserve: nat): Layout {
    var n := |v.content| + reserve;
    Layout(CHEAP_PREPEND, v.content, (if n <= INITIAL_SIZE then INITIAL_SIZE else n) - |v.content|)
  }

  datatype ReadResult = Failed(errno: int) | Got(bytes: seq<Byte>)

  class Buffer {
    var data: seq<Byte>
    var readerIndex: nat
    var writerIndex: nat

    ghost predicate Valid()
      reads this
    {
      readerIndex <= writerIndex <= |data| && CHEAP_PREPEND <= |data|
    }

    ghost function Readable(): seq<Byte>
      requires Valid()
      reads this
    {
      data[readerIndex..writerIndex]
    }

    ghost function View(): Layout
      requires Valid()
      reads this
    {
      Layout(readerIndex, Readable(), |data| - writerIndex)
    }

    constructor (initialSize: nat)
      ensures Valid() && View() == Layout(CHEAP_PREPEND, [], initialSize)
    {
      data := seq(CHEAP_PREPEND + initialSize, _ => 0);
      readerIndex := CHEAP_PREPEND;
      writerIndex := CHEAP_PREPEND;
    }

    function ReadableBytes(): nat
      requires Valid()
      reads this
    {
      writerIndex - readerIndex
    }

    function WritableBytes(): nat
      requires Valid()
      reads this
    {
      |data| - writerIndex
    }

    function Peek(): (s: seq<Byte>)
      requires Valid()
      reads this
      ensures s == Readable()
    {
      data[readerIndex..writerIndex]
    }

    method Swap(rhs: Buffer)
      requires Valid() && rhs.Valid()
      modifies this, rhs
      ensures Valid() && rhs.Valid()
      ensures View() == old(rhs.View()) && rhs.View() == old(View())
    {
      data, rhs.data := rhs.data, data;
      readerIndex, rhs.readerIndex := rhs.readerIndex, readerIndex;
      writerIndex, rhs.writerIndex := rhs.writerIndex, writerIndex;
    }

    method FindCRLF() returns (crlf: Option<nat>)
      requires Valid()
      ensures crlf == FindCrlf(Readable())
    {
      ghost var s := Readable();
      var i := 0;
      while i + 1 < ReadableBytes()
        invariant i <= |s|
        invariant CrlfFrom(s, 0) == CrlfFrom(s, i)
      {
        if data[readerIndex + i] == CR && data[readerIndex + i + 1] == LF {
          return Some(i);
        }
        i := i + 1;
      }
      crlf := None;
    }

    method FindEOL() returns (eol: Option<nat>)
      requires Valid()
      ensures eol == if Find(Readable(), LF) < |Readable()| then Some(Find(Readable(), LF)) else None
    {
      ghost var s := Readable();
      var i := 0;
      while i < ReadableBytes()
        invariant i <= |s|
        invariant FindFrom(s, LF, 0) == FindFrom(s, LF, i)
      {
        if data[readerIndex + i] == LF {
          return Some(i);
        }
        i := i + 1;
      }
      eol := None;
    }

    method Retrieve(len: nat)
      requires Valid() && len <= |Readable()|
      modifies this
      ensures Valid() && View() == Retrieved(old(View()), len)
      ensures Readable() == old(Readable())[len..]
    {
      if len < ReadableBytes() {
        readerIndex := readerIndex + len;
      } else {
        RetrieveAll();
      }
    }

    /** The argument is a position in the readable bytes. */
    method RetrieveUntil(end: nat)
      requires Valid() && end <= |Readable()|
      modifies this
      ensures Valid() && View() == Retrieved(old(View()), end)
      ensures Readable() == old(Readable())[end..]
    {
      Retrieve(end);
    }

    method RetrieveAll()
      requires Valid()
      modifies this
      ensures Valid() && View() == Retrieved(old(View()), |old(Readable())|)
    {
      readerIndex := CHEAP_PREPEND;
      writerIndex := CHEAP_PREPEND;
    }

    method RetrieveAsString(len: nat) returns (result: seq<Byte>)
      requires Valid() && len <= |Readable()|
      modifies this
      ensures Valid() && View() == Retrieved(old(View()), len)
      ensures result + Readable() == old(Readable()) && |result| == len
    {
      result := data[readerIndex..readerIndex + len];
      Retrieve(len);
    }

    method RetrieveAllAsString() returns (result: seq<Byte>)
      requires Valid()
      modifies this
      ensures Valid() && result == old(Readable()) && Readable() == []
    {
      result := RetrieveAsString(ReadableBytes());
    }

    /** In the moving branch CHEAP_PREPEND < readerIndex holds, as the code asserts. */
    method MakeSpace(len: nat)
      requires Valid() && WritableBytes() < len
      modifies this
      ensures Valid() && View() == Ensured(old(View()), len)
    {
      if WritableBytes() + readerIndex < len + CHEAP_PREPEND {
        data := data + seq(writerIndex + len - |data|, _ => 0);
      } else {
        assert CHEAP_PREPEND < readerIndex;
        var readable := ReadableBytes();
        var content := data[readerIndex..writerIndex];
        data := data[..CHEAP_PREPEND] + content + data[CHEAP_PREPEND + readable..];
        readerIndex := CHEAP_PREPEND;
        writerIndex := readerIndex + readable;
        assert data[readerIndex..writerIndex] == content;
      }
    }

    method EnsureWritableBytes(len: nat)
      requires Valid()
      modifies this
      ensures Valid() && View() == Ensured(old(View()), len) && WritableBytes() >= len
    {
      if WritableBytes() < len {
        MakeSpace(len);
      }
    }

    method HasWritten(len: nat)
      requires Valid() && len <= WritableBytes()
      modifies this
      ensures Valid() && data == old(data) && readerIndex == old(readerIndex)
      ensures writerIndex == old(writerIndex) + len
    {
      writerIndex := writerIndex + len;
    }

    method Append(bytes: seq<Byte>)
      requires Valid()
      modifies this
      ensures Valid() && View() == Appended(old(View()), bytes)
      ensures Readable() == old(Readable()) + bytes
    {
      EnsureWritableBytes(|bytes|);
      label copying:
      data := data[..writerIndex] + bytes + data[writerIndex + |bytes|..];
      assert data[..writerIndex] == old@copying(data[..writerIndex]);
      HasWritten(|bytes|);
      assert data[old@copying(writerIndex)..writerIndex] == bytes;
    }

    method Unwrite(len: nat)
      requires Valid() && len <= |Readable()|
      modifies this
      ensures Valid()
      ensures View() == Layout(old(View()).front, old(Readable())[..|old(Readable())| - len], old(View()).back + len)
    {
      ghost var readable := Readable();
      writerIndex := writerIndex - len;
      assert data[readerIndex..writerIndex] == readable[..|readable| - len];
    }

    method Prepend(bytes: seq<Byte>)
      requires Valid() && |bytes| <= View().front
      modifies this
      ensures Valid() && View() == Layout(old(View()).front - |bytes|, bytes + old(Readable()), old(View()).back)
    {
      ghost var readable := Readable();
      ghost var w := writerIndex;
      readerIndex := readerIndex - |bytes|;
      label copying:
      data := data[..readerIndex] + bytes + data[readerIndex + |bytes|..];
      assert data[readerIndex + |bytes|..] == old@copying(data[readerIndex + |bytes|..]);
      assert data[readerIndex + |bytes|..w] == readable;
      assert data[readerIndex..readerIndex + |bytes|] == bytes;
    }

    method Shrink(reserve: nat)
      requires Valid()
      modifies this
      ensures Valid() && View() == Shrunk(old(View()), reserve)
    {
      var other := new Buffer(INITIAL_SIZE);
      other.EnsureWritableBytes(ReadableBytes() + reserve);
      other.Append(Peek());
      Swap(other);
    }

    /** What readv may deliver at most: the free space, plus the stack buffer when that space is small. */
    function ReadCapacity(): nat
      requires Valid()
      reads this
    {
      WritableBytes() + if WritableBytes() < EXTRA_BUFFER then EXTRA_BUFFER else 0
    }

    /** The kernel fills the free space first, then the stack buffer. */
    method ReadFd(kernel: ReadResult) returns (n: int, savedErrno: int)
      requires Valid()
      requires kernel.Got? ==> |kernel.bytes| <= ReadCapacity()
      modifies this
      ensures Valid()
      ensures kernel.Failed? ==> n < 0 && savedErrno == kernel.errno && View() == old(View())
      ensures kernel.Got? ==> n == |kernel.bytes| && View() == Appended(old(View()), kernel.bytes)
      ensures kernel.Got? ==> Readable() == old(Readable()) + kernel.bytes
    {
      savedErrno := 0;
      var writable := WritableBytes();
      match kernel
      case Failed(errno) =>
        n := -1;
        savedErrno := errno;
      case Got(bytes) =>
        n := |bytes|;
        if n <= writable {
          data := data[..writerIndex] + bytes + data[writerIndex + n..];
          writerIndex := writerIndex + n;
          assert data[readerIndex..writerIndex] == old(Readable()) + bytes;
        } else {
          data := data[..writerIndex] + bytes[..writable];
          writerIndex := |data|;
          var extra := bytes[writable..];
          assert data[readerIndex..writerIndex] == old(Readable()) + bytes[..writable];
          Append(extra);
          assert old(Readable()) + bytes[..writable] + extra == old(Readable()) + bytes;
        }
    }

    // ---------- integers in network byte order; widths 1, 2, 4 and 8 are used ----------

    method AppendInt(x: int, width: nat)
      requires Valid() && width > 0 && InRange(x, width)
      modifies this
      ensures Valid() && View() == Appended(old(View()), Encode(x, width))
      ensures Readable() == old(Readable()) + Encode(x, width)
    {
      Append(Encode(x, width));
    }

    method PrependInt(x: int, width: nat)
      requires Valid() && width > 0 && InRange(x, width) && width <= View().front
      modifies this
      ensures Valid() && Readable() == Encode(x, width) + old(Readable())
    {
      Prepend(Encode(x, width));
    }

    method PeekInt(width: nat) returns (x: int)
      requires Valid() && 0 < width <= |Readable()|
      ensures x == Decode(Readable()[..width])
      ensures InRange(x, width) && Encode(x, width) == Readable()[..width]
    {
      var bytes := data[readerIndex..readerIndex + width];
      EncodeDecode(bytes);
      x := Decode(bytes);
      assert bytes == Readable()[..width];
    }

    method ReadInt(width: nat) returns (x: int)
      requires Valid() && 0 < width <= |Readable()|
      modifies this
      ensures Valid() && InRange(x, width)
      ensures Encode(x, width) + Readable() == old(Readable())
    {
      x := PeekInt(width);
      Retrieve(width);
    }
  }

  /** An integer put in front is read back, and the rest of the buffer is untouched. */
  method PrependThenRead(buffer: Buffer, x: int, width: nat) returns (y: int)
    requires buffer.Valid() && width > 0 && InRange(x, width) && width <= buffer.View().front
    modifies buffer
    ensures buffer.Valid() && y == x && buffer.Readable() == old(buffer.Readable())
  {
    buffer.PrependInt(x, width);
    y := buffer.ReadInt(width);
    DecodeEncode(x, width);
    DecodeEncode(y, width);
    ghost var all := Encode(x, width) + old(buffer.Readable());
    assert all[..width] == Encode(x, width) && all[width..] == old(buffer.Readable());
    assert all[..width] == Encode(y, width) && all[width..] == buffer.Readable();
  }

  datatype SizedInt = SizedInt(value: int, width: nat)

  predicate Representable(n: SizedInt) { n.width > 0 && InRange(n.value, n.width) }

  type Number = n: SizedInt | Representable(n) witness SizedInt(0, 1)

  function Encoded(ns: seq<Number>): seq<Byte> {
    if ns == [] then [] else Encode(ns[0].value, ns[0].width) + Encoded(ns[1..])
  }

  lemma {:induction false} EncodedLast(ns: seq<Number>, n: Number)
    ensures Encoded(ns + [n]) == Encoded(ns) + Encode(n.value, n.width)
  {
    if ns == [] {
      assert ns + [n] == [n] && Encoded([]) == [];
    } else {
      EncodedLast(ns[1..], n);
      assert (ns + [n])[1..] == ns[1..] + [n];
    }
  }

  /** Equal sums with equally long first parts have equal parts. */
  lemma SameParts(a: seq<Byte>, b: seq<Byte>, c: seq<Byte>, d: seq<Byte>)
    requires a + b == c + d && |a| == |c|
    ensures a == c && b == d
  {
    assert a == (a + b)[..|a|] && c == (c + d)[..|c|];
    assert b == (a + b)[|a|..] && d == (c + d)[|c|..];
  }

  /** Integers of any widths appended to an empty buffer are read back in order, and the buffer is empty again. */
  method AppendThenRead(buffer: Buffer, ns: seq<Number>) returns (values: seq<int>)
    requires buffer.Valid() && buffer.Readable() == []
    modifies buffer
    ensures buffer.Valid() && buffer.Readable() == []
    ensures |values| == |ns| && forall k :: 0 <= k < |ns| ==> values[k] == ns[k].value
  {
    var i := 0;
    while i < |ns|
      invariant i <= |ns| && buffer.Valid() && buffer.Readable() == Encoded(ns[..i])
    {
      buffer.AppendInt(ns[i].value, ns[i].width);
      EncodedLast(ns[..i], ns[i]);
      assert ns[..i + 1] == ns[..i] + [ns[i]];
      i := i + 1;
    }
    assert ns[..i] == ns[0..];
    values := ReadAll(buffer, ns);
  }

  method ReadAll(buffer: Buffer, ns: seq<Number>) returns (values: seq<int>)
    requires buffer.Valid() && buffer.Readable() == Encoded(ns)
    modifies buffer
    ensures buffer.Valid() && buffer.Readable() == []
    ensures |values| == |ns| && forall k :: 0 <= k < |ns| ==> values[k] == ns[k].value
  {
    hide InRange, Encode, Decode;
    values := [];
    while |values| < |ns|
      invariant |values| <= |ns| && buffer.Valid() && buffer.Readable() == Encoded(ns[|values|..])
      invariant forall k :: 0 <= k < |values| ==> values[k] == ns[k].value
      decreases |ns| - |values|
    {
      var n := ns[|values|];
      ghost var rest := ns[|values| + 1..];
      assert Encoded(ns[|values|..]) == Encode(n.value, n.width) + Encoded(rest) by {
        assert ns[|values|..][1..] == rest;
      }
      var y := buffer.ReadInt(n.width);
      SameParts(Encode(y, n.width), buffer.Readable(), Encode(n.value, n.width), Encoded(rest));
      DecodeEncode(y, n.width);
      DecodeEncode(n.value, n.width);
      values := values + [y];
    }
  }

  // ---------- every operation sequence ----------

  datatype Op =
    | AppendOp(bytes: seq<Byte>)
    | RetrieveOp(len: nat)
    | PrependOp(bytes: seq<Byte>)
    | UnwriteOp(len: nat)
    | EnsureOp(len: nat)
    | ShrinkOp(reserve: nat)
    | ReadFdOp(kernel: ReadResult)

  /** What the code asserts of its caller (for ReadFd: what readv can deliver). */
  predicate Legal(v: Layout, op: Op) {
    match op
    case RetrieveOp(len) => len <= |v.content|
    case UnwriteOp(len) => len <= |v.content|
    case PrependOp(bytes) => |bytes| <= v.front
    case ReadFdOp(Got(bytes)) => |bytes| <= v.back + if v.back < EXTRA_BUFFER then EXTRA_BUFFER else 0
    case _ => true
  }

  function Apply(v: Layout, op: Op): Layout
    requires Legal(v, op)
  {
    match op
    case AppendOp(bytes) => Appended(v, bytes)
    case RetrieveOp(len) => Retrieved(v, len)
    case PrependOp(bytes) => Layout(v.front - |bytes|, bytes + v.content, v.back)
    case UnwriteOp(len) => Layout(v.front, v.content[..|v.content| - len], v.back + len)
    case EnsureOp(len) => Ensured(v, len)
    case ShrinkOp(reserve) => Shrunk(v, reserve)
    case ReadFdOp(Got(bytes)) => Appended(v, bytes)
    case ReadFdOp(Failed(_)) => v
  }

  /** The obvious operation on a byte string, without any layout. */
  function ApplyBytes(s: seq<Byte>, op: Op): seq<Byte> {
    match op
    case AppendOp(bytes) => s + bytes
    case RetrieveOp(len) => if len <= |s| then s[len..] else []
    case PrependOp(bytes) => bytes + s
    case UnwriteOp(len) => if len <= |s| then s[..|s| - len] else []
    case ReadFdOp(Got(bytes)) => s + bytes
    case _ => s
  }

  predicate LegalRun(v: Layout, ops: seq<Op>)
    decreases |ops|
  {
    ops == [] || (Legal(v, ops[0]) && LegalRun(Apply(v, ops[0]), ops[1..]))
  }

  function ApplyAll(v: Layout, ops: seq<Op>): Layout
    requires LegalRun(v, ops)
    decreases |ops|
  {
    if ops == [] then v else ApplyAll(Apply(v, ops[0]), ops[1..])
  }

  function ApplyBytesAll(s: seq<Byte>, ops: seq<Op>): seq<Byte>
    decreases |ops|
  {
    if ops == [] then s else ApplyBytesAll(ApplyBytes(s, ops[0]), ops[1..])
  }

  /** Growing and compacting never show: the content is that of the byte string. */
  lemma {:induction false} ContentIsByteString(v: Layout, ops: seq<Op>)
    requires LegalRun(v, ops)
    ensures ApplyAll(v, ops).content == ApplyBytesAll(v.content, ops)
    decreases |ops|
  {
    if ops != [] {
      ContentIsByteString(Apply(v, ops[0]), ops[1..]);
    }
  }

  function Size(v: Layout): nat { v.front + |v.content| + v.back }

  /** The vector grows only when moving the content to the front does not make room, and then to an exact fit. */
  lemma GrowsExactly(v: Layout, bytes: seq<Byte>)
    ensures var w := Apply(v, AppendOp(bytes));
            var moves := |bytes| > v.back && |v.content| + |bytes| + 8 <= Size(v);
            && Size(w) == (if moves || |bytes| <= v.back then Size(v) else v.front + |v.content| + |bytes|)
            && w.front == (if moves then 8 else v.front)
  {}

  /** Only appending, making room and shrinking change the size; an emptied buffer starts afresh behind 8 bytes. */
  lemma SizeStays(v: Layout, op: Op)
    requires Legal(v, op) && (op.RetrieveOp? || op.PrependOp? || op.UnwriteOp?)
    ensures var w := Apply(v, op);
            && Size(w) == Size(v)
            && (op.RetrieveOp? ==> w.front == if op.len == |v.content| then 8 else v.front + op.len)
  {}

  /** shrink leaves room for what was asked, and at least 1024 bytes in all. */
  lemma ShrinksExactly(v: Layout, reserve: nat)
    ensures var w := Apply(v, ShrinkOp(reserve));
            && w.content == v.content && w.front == 8 && w.back >= reserve
            && Size(w) == 8 + (if |v.content| + reserve <= 1024 then 1024 else |v.content| + reserve)
  {}

  function PrependedBytes(ops: seq<Op>): nat {
    if ops == [] then 0
    else (if ops[0].PrependOp? then |ops[0].bytes| else 0) + PrependedBytes(ops[1..])
  }

  /** Space for prepending is only used up by prepending: 8 bytes are always there for headers. */
  lemma {:induction false} CheapPrepend(v: Layout, ops: seq<Op>, lost: nat)
    requires LegalRun(v, ops)
    requires v.front + lost >= CHEAP_PREPEND
    ensures ApplyAll(v, ops).front + lost + PrependedBytes(ops) >= CHEAP_PREPEND
    decreases |ops|
  {
    if ops != [] {
      CheapPrepend(Apply(v, ops[0]), ops[1..], lost + if ops[0].PrependOp? then |ops[0].bytes| else 0);
    }
  }

  /** The class follows the specification through any legal sequence of operations. */
  method Run(buffer: Buffer, ops: seq<Op>)
    requires buffer.Valid() && LegalRun(buffer.View(), ops)
    modifies buffer
    ensures buffer.Valid() && buffer.View() == ApplyAll(old(buffer.View()), ops)
    ensures buffer.Readable() == ApplyBytesAll(old(buffer.Readable()), ops)
  {
    var i := 0;
    while i < |ops|
      invariant i <= |ops| && buffer.Valid()
      invariant LegalRun(buffer.View(), ops[i..])
      invariant ApplyAll(buffer.View(), ops[i..]) == ApplyAll(old(buffer.View()), ops)
      decreases |ops| - i
    {
      match ops[i] {
      case AppendOp(bytes) => buffer.Append(bytes);
      case RetrieveOp(len) => buffer.Retrieve(len);
      case PrependOp(bytes) => buffer.Prepend(bytes);
      case UnwriteOp(len) => buffer.Unwrite(len);
      case EnsureOp(len) => buffer.EnsureWritableBytes(len);
      case ShrinkOp(reserve) => buffer.Shrink(reserve);
      case ReadFdOp(kernel) => var _, _ := buffer.ReadFd(kernel);
      }
      i := i + 1;
    }
    ContentIsByteString(old(buffer.View()), ops);
  }
}
