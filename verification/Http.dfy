/**
  The incremental HTTP request parser: muduo/net/http/HttpContext.cc and the setters of HttpRequest.h.
 */
module Http {
  import opened Wrappers
  import opened BigEndian
  import opened ByteSearch
  import opened NetBuffer

  datatype Method = Invalid | Get | Post | Head | Put | Delete
  datatype Version = Unknown | Http10 | Http11
  datatype ParseState = ExpectRequestLine | ExpectHeaders | ExpectBody | GotAll

  const SPACE: Byte := 32
  const QUESTION: Byte := 63
  const COLON: Byte := 58

  const GET: seq<Byte> := [71, 69, 84]
  const POST: seq<Byte> := [80, 79, 83, 84]
  const HEAD: seq<Byte> := [72, 69, 65, 68]
  const PUT: seq<Byte> := [80, 85, 84]
  const DELETE: seq<Byte> := [68, 69, 76, 69, 84, 69]
  /** "HTTP/1." */
  const HTTP_1: seq<Byte> := [72, 84, 84, 80, 47, 49, 46]
  const DIGIT_0: Byte := 48
  const DIGIT_1: Byte := 49

  /** The fields of an HttpRequest. */
  datatype Request = Request(verb: Method, version: Version, path: seq<Byte>, query: seq<Byte>,
                             receiveTime: int, headers: map<seq<Byte>, seq<Byte>>)

  function MethodOf(m: seq<Byte>): Method {
    if m == GET then Get else if m == POST then Post else if m == HEAD then Head
    else if m == PUT then Put else if m == DELETE then Delete else Invalid
  }

  function MethodName(m: Method): seq<Byte>
    requires m != Invalid
  {
    match m
    case Get => GET
    case Post => POST
    case Head => HEAD
    case Put => PUT
    case Delete => DELETE
  }

  /** isspace in the C locale. */
  predicate IsSpace(b: Byte) { b == SPACE || 9 <= b <= 13 }

  function TrimLeft(s: seq<Byte>): seq<Byte> {
    if s != [] && IsSpace(s[0]) then TrimLeft(s[1..]) else s
  }

  function TrimRight(s: seq<Byte>): seq<Byte> {
    if s != [] && IsSpace(s[|s| - 1]) then TrimRight(s[..|s| - 1]) else s
  }

  function WithHeader(req: Request, line: seq<Byte>, colon: nat): Request
    requires colon < |line|
  {
    req.(headers := req.headers[line[..colon] := TrimRight(TrimLeft(line[colon + 1..]))])
  }

  /** What processRequestLine returns and leaves in the request, on success and on each failure. */
  function RequestLine(req: Request, line: seq<Byte>): (bool, Request) {
    var space := Find(line, SPACE);
    if space == |line| then (false, req)
    else
      var req1 := req.(verb := MethodOf(line[..space]));
      if req1.verb == Invalid then (false, req1)
      else
        var start := space + 1;
        var space2 := FindFrom(line, SPACE, start);
        if space2 == |line| then (false, req1)
        else
          var question := FindFrom(line[..space2], QUESTION, start);
          var req2 := if question < space2
                      then req1.(path := line[start..question], query := line[question..space2])
                      else req1.(path := line[start..space2]);
          var tail := line[space2 + 1..];
          if |tail| == 8 && tail[..7] == HTTP_1 && tail[7] == DIGIT_1 then (true, req2.(version := Http11))
          else if |tail| == 8 && tail[..7] == HTTP_1 && tail[7] == DIGIT_0 then (true, req2.(version := Http10))
          else (false, req2)
  }

  datatype Result = Result(ok: bool, state: ParseState, request: Request, rest: seq<Byte>)

  predicate Parsing(state: ParseState) { state == ExpectRequestLine || state == ExpectHeaders }

  /** The effect of one call of parseRequest with s in the buffer. */
  function Parse(state: ParseState, req: Request, s: seq<Byte>, receiveTime: int): Result
    requires Parsing(state)
    decreases |s|
  {
    var crlf := FindCrlf(s);
    if crlf.None? then Result(true, state, req, s)
    else
      var line, rest := s[..crlf.value], s[crlf.value + 2..];
      if state == ExpectRequestLine then
        var (ok, req') := RequestLine(req, line);
        if ok then Parse(ExpectHeaders, req'.(receiveTime := receiveTime), rest, receiveTime)
        else Result(false, state, req', s)
      else
        var colon := Find(line, COLON);
        if colon < |line| then Parse(ExpectHeaders, WithHeader(req, line, colon), rest, receiveTime)
        else Result(true, GotAll, req, rest)
  }

  // ---------- the classes ----------

  class HttpRequest {
    var verb: Method
    var version: Version
    var path: seq<Byte>
    var query: seq<Byte>
    var receiveTime: int
    var headers: map<seq<Byte>, seq<Byte>>

    function Fields(): Request
      reads this
    {
      Request(verb, version, path, query, receiveTime, headers)
    }

    constructor ()
      ensures Fields() == Request(Invalid, Unknown, [], [], 0, map[])
    {
      verb, version, path, query, receiveTime, headers := Invalid, Unknown, [], [], 0, map[];
    }

    method SetMethod(m: seq<Byte>) returns (ok: bool)
      requires verb == Invalid
      modifies this
      ensures Fields() == old(Fields()).(verb := MethodOf(m))
      ensures ok == (verb != Invalid)
    {
      if m == GET {
        verb := Get;
      } else if m == POST {
        verb := Post;
      } else if m == HEAD {
        verb := Head;
      } else if m == PUT {
        verb := Put;
      } else if m == DELETE {
        verb := Delete;
      } else {
        verb := Invalid;
      }
      ok := verb != Invalid;
    }

    method AddHeader(line: seq<Byte>, colonAt: nat)
      requires colonAt < |line|
      modifies this
      ensures Fields() == WithHeader(old(Fields()), line, colonAt)
    {
      var field := line[..colonAt];
      var colon := colonAt + 1;
      while colon < |line| && IsSpace(line[colon])
        invariant colon <= |line|
        invariant TrimLeft(line[colon..]) == TrimLeft(line[colonAt + 1..])
      {
        assert line[colon..][1..] == line[colon + 1..];
        colon := colon + 1;
      }
      var value := line[colon..];
      while value != [] && IsSpace(value[|value| - 1])
        invariant TrimRight(value) == TrimRight(line[colon..])
        decreases |value|
      {
        value := value[..|value| - 1];
      }
      headers := headers[field := value];
    }
  }

  class HttpContext {
    var state: ParseState
    const request: HttpRequest

    constructor ()
      ensures state == ExpectRequestLine && fresh(request)
      ensures request.Fields() == Request(Invalid, Unknown, [], [], 0, map[])
    {
      state := ExpectRequestLine;
      request := new HttpRequest();
    }

    /** Until the request line is accepted no method is set, which setMethod asserts. */
    ghost predicate Valid()
      reads this, request
    {
      state == ExpectRequestLine ==> request.verb == Invalid
    }

    method ProcessRequestLine(line: seq<Byte>) returns (succeed: bool)
      requires request.verb == Invalid
      modifies request
      ensures (succeed, request.Fields()) == RequestLine(old(request.Fields()), line)
    {
      succeed := false;
      var start := 0;
      var space := Find(line, SPACE);
      if space != |line| {
        var known := request.SetMethod(line[..space]);
        if known {
          start := space + 1;
          space := FindFrom(line, SPACE, start);
          if space != |line| {
            var question := FindFrom(line[..space], QUESTION, start);
            if question != space {
              request.path := line[start..question];
              request.query := line[question..space];
            } else {
              request.path := line[start..space];
            }
            start := space + 1;
            succeed := |line| - start == 8 && line[start..|line| - 1] == HTTP_1;
            assert |line| - start == 8 ==> line[start..][..7] == line[start..|line| - 1];
            if succeed {
              if line[|line| - 1] == DIGIT_1 {
                request.version := Http11;
              } else if line[|line| - 1] == DIGIT_0 {
                request.version := Http10;
              } else {
                succeed := false;
              }
            }
          }
        }
      }
    }

    method ParseRequest(buf: Buffer, receiveTime: int) returns (ok: bool)
      requires Valid() && Parsing(state) && buf.Valid()
      modifies this, request, buf
      ensures buf.Valid()
      ensures Result(ok, state, request.Fields(), buf.Readable())
           == Parse(old(state), old(request.Fields()), old(buf.Readable()), receiveTime)
      ensures ok ==> Valid()
    {
      hide RequestLine, WithHeader, IsSpace;
      ok := true;
      var hasMore := true;
      while hasMore
        invariant buf.Valid() && (ok ==> Valid())
        invariant hasMore ==> ok && Parsing(state)
        invariant Parse(old(state), old(request.Fields()), old(buf.Readable()), receiveTime)
               == if hasMore then Parse(state, request.Fields(), buf.Readable(), receiveTime)
                  else Result(ok, state, request.Fields(), buf.Readable())
        decreases hasMore, buf.ReadableBytes()
      {
        var crlf := buf.FindCRLF();
        if crlf.None? {
          hasMore := false;
        } else if state == ExpectRequestLine {
          ok := TakeRequestLine(buf, crlf.value, receiveTime);
          hasMore := ok;
        } else {
          hasMore := TakeHeader(buf, crlf.value);
        }
      }
    }

    /** The kExpectRequestLine branch, for a line that ends at crlf. */
    method TakeRequestLine(buf: Buffer, crlf: nat, receiveTime: int) returns (ok: bool)
      requires Valid() && state == ExpectRequestLine && buf.Valid() && crlf + 2 <= |buf.Readable()|
      modifies this, request, buf
      ensures buf.Valid()
      ensures var (ok', r) := RequestLine(old(request.Fields()), old(buf.Readable())[..crlf]);
              && ok == ok'
              && request.Fields() == (if ok then r.(receiveTime := receiveTime) else r)
              && buf.Readable() == (if ok then old(buf.Readable())[crlf + 2..] else old(buf.Readable()))
              && state == (if ok then ExpectHeaders else ExpectRequestLine)
    {
      hide RequestLine, IsSpace;
      ok := ProcessRequestLine(buf.Peek()[..crlf]);
      if ok {
        request.receiveTime := receiveTime;
        buf.RetrieveUntil(crlf + 2);
        state := ExpectHeaders;
      }
    }

    /** The kExpectHeaders branch. */
    method TakeHeader(buf: Buffer, crlf: nat) returns (hasMore: bool)
      requires state == ExpectHeaders && buf.Valid() && crlf + 2 <= |buf.Readable()|
      modifies this, request, buf
      ensures buf.Valid() && buf.Readable() == old(buf.Readable())[crlf + 2..]
      ensures var line := old(buf.Readable())[..crlf];
              var colon := Find(line, COLON);
              && hasMore == (colon < |line|)
              && request.Fields() == (if colon < |line| then WithHeader(old(request.Fields()), line, colon)
                                      else old(request.Fields()))
              && state == (if hasMore then ExpectHeaders else GotAll)
    {
      hide WithHeader, IsSpace;
      var line := buf.Peek()[..crlf];
      var colon := Find(line, COLON);
      hasMore := colon != |line|;
      if hasMore {
        request.AddHeader(line, colon);
      } else {
        state := GotAll;
      }
      buf.RetrieveUntil(crlf + 2);
    }
  }

  // ---------- the request line grammar ----------

  /** What the code accepts: one of five methods, any target without a space, version 1.0 or 1.1. */
  predicate IsRequestLine(line: seq<Byte>, m: Method, target: seq<Byte>, minor: Byte) {
    && m != Invalid && SPACE !in target && minor in {DIGIT_0, DIGIT_1}
    && line == MethodName(m) + [SPACE] + target + [SPACE] + HTTP_1 + [minor]
  }

  lemma FindInConcat(a: seq<Byte>, b: Byte, c: seq<Byte>, i: nat)
    requires i <= |a| && forall k :: i <= k < |a| ==> a[k] != b
    ensures FindFrom(a + [b] + c, b, i) == |a|
  {
    var s := a + [b] + c;
    assert s[|a|] == b;
    assert forall k :: i <= k < |a| ==> s[k] == a[k];
  }

  lemma MethodNames(m: Method)
    requires m != Invalid
    ensures MethodOf(MethodName(m)) == m && SPACE !in MethodName(m)
  {}

  lemma CutTwice(line: seq<Byte>, i: nat, j: nat)
    requires i < j < |line|
    ensures line == line[..i] + [line[i]] + line[i + 1..j] + [line[j]] + line[j + 1..]
  {}

  lemma MethodSpelled(m: seq<Byte>)
    requires MethodOf(m) != Invalid
    ensures m == MethodName(MethodOf(m))
  {}

  /** Where the searches stop in a well-formed line. */
  lemma LinePositions(line: seq<Byte>, name: seq<Byte>, target: seq<Byte>, tail: seq<Byte>)
    requires SPACE !in name && SPACE !in target && line == name + [SPACE] + target + [SPACE] + tail
    ensures Find(line, SPACE) == |name|
    ensures var start := |name| + 1;
            && FindFrom(line, SPACE, start) == start + |target|
            && FindFrom(line[..start + |target|], QUESTION, start) == start + Find(target, QUESTION)
            && line[start + |target| + 1..] == tail
    ensures line[..|name|] == name
  {
    hide FindFrom;
    var head := name + [SPACE] + target;
    assert line == name + [SPACE] + (target + [SPACE] + tail);
    FindInConcat(name, SPACE, target + [SPACE] + tail, 0);
    assert line[..|name|] == name;
    assert line == head + [SPACE] + tail && line[..|head|] == head;
    SecondSpace(name + [SPACE], target, tail);
    FindShift(name + [SPACE], target, QUESTION);
  }

  lemma SecondSpace(prefix: seq<Byte>, target: seq<Byte>, tail: seq<Byte>)
    requires SPACE !in target
    ensures FindFrom(prefix + target + [SPACE] + tail, SPACE, |prefix|) == |prefix| + |target|
  {
    var head := prefix + target;
    assert forall k :: |prefix| <= k < |head| ==> head[k] == target[k - |prefix|];
    FindInConcat(head, SPACE, tail, |prefix|);
  }

  lemma TargetSlices(line: seq<Byte>, name: seq<Byte>, target: seq<Byte>, tail: seq<Byte>, q: nat)
    requires line == name + [SPACE] + target + [SPACE] + tail && q <= |target|
    ensures var start := |name| + 1;
            && line[start..start + q] == target[..q]
            && line[start + q..start + |target|] == target[q..]
  {}

  /** Every well-formed line is accepted and read correctly. */
  lemma RequestLineAccepts(req: Request, line: seq<Byte>, m: Method, target: seq<Byte>, minor: Byte)
    requires IsRequestLine(line, m, target, minor)
    ensures var (ok, r) := RequestLine(req, line);
            && ok && r.verb == m && r.version == (if minor == DIGIT_1 then Http11 else Http10)
            && r.path == target[..Find(target, QUESTION)]
            && r.query == (if QUESTION in target then target[Find(target, QUESTION)..] else req.query)
  {
    hide FindFrom, MethodOf, MethodName, IsSpace;
    MethodNames(m);
    var name := MethodName(m);
    var tail := HTTP_1 + [minor];
    assert line == name + [SPACE] + target + [SPACE] + tail by {
      assert [SPACE] + HTTP_1 + [minor] == [SPACE] + tail;
    }
    LinePositions(line, name, target, tail);
    TargetSlices(line, name, target, tail, Find(target, QUESTION));
    hide IsRequestLine, Find;
    assert tail[..7] == HTTP_1 && tail[7] == minor;
    assert QUESTION in target <==> Find(target, QUESTION) < |target|;
    assert target[..|target|] == target;
  }

  lemma FindShift(prefix: seq<Byte>, s: seq<Byte>, b: Byte)
    ensures FindFrom(prefix + s, b, |prefix|) == |prefix| + Find(s, b)
  {
    var t := prefix + s;
    var r := FindFrom(t, b, |prefix|);
    var q := Find(s, b);
    assert forall k :: 0 <= k < |s| ==> t[|prefix| + k] == s[k];
    assert r < |t| ==> s[r - |prefix|] == b;
  }

  /** And only those are accepted. */
  lemma RequestLineOnly(req: Request, line: seq<Byte>) returns (m: Method, target: seq<Byte>, minor: Byte)
    ensures RequestLine(req, line).0 ==> IsRequestLine(line, m, target, minor)
  {
    hide MethodOf, MethodName;
    m, target, minor := Invalid, [], DIGIT_0;
    if RequestLine(req, line).0 {
      var space := Find(line, SPACE);
      m := MethodOf(line[..space]);
      var space2 := FindFrom(line, SPACE, space + 1);
      target := line[space + 1..space2];
      var tail := line[space2 + 1..];
      minor := tail[7];
      assert tail == HTTP_1 + [minor];
      assert line[..space] == MethodName(m) by { MethodSpelled(line[..space]); }
      CutTwice(line, space, space2);
    }
  }

  lemma RequestLineExactly(req: Request, line: seq<Byte>)
    ensures RequestLine(req, line).0 <==> exists m, target, minor :: IsRequestLine(line, m, target, minor)
  {
    if RequestLine(req, line).0 {
      var m, target, minor := RequestLineOnly(req, line);
    } else {
      forall m, target, minor | IsRequestLine(line, m, target, minor) ensures false {
        RequestLineAccepts(req, line, m, target, minor);
      }
    }
  }

  // ---------- the standard's request line ----------

  /** tchar, section 3.2.6 of RFC 7230. */
  predicate IsTokenChar(b: Byte) {
    || 48 <= b <= 57 || 65 <= b <= 90 || 97 <= b <= 122
    || b in {33, 35, 36, 37, 38, 39, 42, 43, 45, 46, 94, 95, 96, 124, 126}
  }

  /** What every form of request-target has in common: at least one character, and only visible ones. */
  predicate IsTarget(t: seq<Byte>) { t != [] && forall b :: b in t ==> 33 <= b <= 126 }

  predicate IsDigit(b: Byte) { 48 <= b <= 57 }

  /** "HTTP/" DIGIT "." DIGIT */
  function VersionText(major: Byte, minor: Byte): seq<Byte> { [72, 84, 84, 80, 47, major, 46, minor] }

  /** method SP request-target SP HTTP-version, section 3.1.1 of RFC 7230. */
  predicate IsStandardLine(line: seq<Byte>, name: seq<Byte>, target: seq<Byte>, major: Byte, minor: Byte) {
    && name != [] && (forall b :: b in name ==> IsTokenChar(b))
    && IsTarget(target) && IsDigit(major) && IsDigit(minor)
    && line == name + [SPACE] + target + [SPACE] + VersionText(major, minor)
  }

  /** The text between the first two spaces. */
  function TargetOf(line: seq<Byte>): seq<Byte> {
    var space := Find(line, SPACE);
    if space == |line| then [] else line[space + 1..FindFrom(line, SPACE, space + 1)]
  }

  lemma LineParts(line: seq<Byte>, name: seq<Byte>, target: seq<Byte>, tail: seq<Byte>)
    requires SPACE !in name && SPACE !in target && line == name + [SPACE] + target + [SPACE] + tail
    ensures TargetOf(line) == target
  {
    LinePositions(line, name, target, tail);
    TargetSlices(line, name, target, tail, 0);
    assert target[0..] == target;
    hide Find, FindFrom;
  }

  lemma VersionParts(major: Byte, minor: Byte)
    ensures var tail := VersionText(major, minor);
            |tail| == 8 && (tail[..7] == HTTP_1 <==> major == DIGIT_1) && tail[7] == minor
  {
    var head := VersionText(major, minor)[..7];
    assert head[5] == major && HTTP_1[5] == DIGIT_1;
    assert major == DIGIT_1 ==> head == HTTP_1;
  }

  /** Of the standard's lines exactly those with one of the five methods and version 1.0 or 1.1 are accepted. */
  lemma StandardLineExactly(req: Request, line: seq<Byte>, name: seq<Byte>, target: seq<Byte>,
                            major: Byte, minor: Byte)
    requires IsStandardLine(line, name, target, major, minor)
    ensures RequestLine(req, line).0 <==> MethodOf(name) != Invalid && major == DIGIT_1 && minor in {DIGIT_0, DIGIT_1}
  {
    assert SPACE !in name && SPACE !in target;
    var tail := VersionText(major, minor);
    VersionParts(major, minor);
    LinePositions(line, name, target, tail);
    hide Find, FindFrom, MethodOf, VersionText;
  }

  lemma MethodNameIsToken(m: Method)
    requires m != Invalid
    ensures MethodName(m) != [] && forall b :: b in MethodName(m) ==> IsTokenChar(b)
  {}

  /** Of the accepted lines exactly those are the standard's whose target is non-empty and visible. */
  lemma AcceptedIsStandardExactly(req: Request, line: seq<Byte>)
    requires RequestLine(req, line).0
    ensures (exists name, target, major, minor :: IsStandardLine(line, name, target, major, minor))
       <==> IsTarget(TargetOf(line))
  {
    var m, target, minor := RequestLineOnly(req, line);
    hide RequestLine, TargetOf, IsTokenChar;
    var name, tail := MethodName(m), HTTP_1 + [minor];
    MethodNames(m);
    MethodNameIsToken(m);
    assert tail == VersionText(DIGIT_1, minor);
    assert line == name + [SPACE] + target + [SPACE] + tail;
    LineParts(line, name, target, tail);
    if IsTarget(target) {
      assert IsStandardLine(line, name, target, DIGIT_1, minor);
    }
    forall n, t, major, d | IsStandardLine(line, n, t, major, d) ensures IsTarget(target) {
      StandardTarget(line, n, t, major, d);
    }
  }

  lemma StandardTarget(line: seq<Byte>, name: seq<Byte>, target: seq<Byte>, major: Byte, minor: Byte)
    requires IsStandardLine(line, name, target, major, minor)
    ensures TargetOf(line) == target && IsTarget(target)
  {
    LineParts(line, name, target, VersionText(major, minor));
  }

  /** The code does not look at the target: an empty one, a TAB or any other byte but a space is taken. */
  lemma AnyTargetAccepted(req: Request, target: seq<Byte>)
    requires SPACE !in target
    ensures var line := GET + [SPACE] + target + [SPACE] + HTTP_1 + [DIGIT_1];
            && RequestLine(req, line).0
            && ((exists n, t, major, d :: IsStandardLine(line, n, t, major, d)) <==> IsTarget(target))
  {
    var line := GET + [SPACE] + target + [SPACE] + HTTP_1 + [DIGIT_1];
    assert MethodName(Get) == GET;
    RequestLineAccepts(req, line, Get, target, DIGIT_1);
    AcceptedIsStandardExactly(req, line);
    assert line == GET + [SPACE] + target + [SPACE] + (HTTP_1 + [DIGIT_1]);
    LineParts(line, GET, target, HTTP_1 + [DIGIT_1]);
  }

  /** Two lines outside the standard that are accepted: an empty target, and a single TAB (9). */
  lemma EmptyTargetAccepted(req: Request)
    ensures var empty := GET + [SPACE] + [SPACE] + HTTP_1 + [DIGIT_1];
            RequestLine(req, empty).0 && !exists n, t, major, d :: IsStandardLine(empty, n, t, major, d)
    ensures var tab := GET + [SPACE] + [9] + [SPACE] + HTTP_1 + [DIGIT_1];
            RequestLine(req, tab).0 && !exists n, t, major, d :: IsStandardLine(tab, n, t, major, d)
  {
    hide RequestLine, IsStandardLine;
    assert GET + [SPACE] + [] + [SPACE] + HTTP_1 + [DIGIT_1] == GET + [SPACE] + [SPACE] + HTTP_1 + [DIGIT_1];
    AnyTargetAccepted(req, []);
    AnyTargetAccepted(req, [9]);
    assert [9 as Byte][0] in [9 as Byte];
  }

  // ---------- header values ----------

  lemma {:induction false} TrimLeftIs(s: seq<Byte>) returns (n: nat)
    ensures n <= |s| && TrimLeft(s) == s[n..]
    ensures forall k :: 0 <= k < n ==> IsSpace(s[k])
    ensures n < |s| ==> !IsSpace(s[n])
  {
    if s != [] && IsSpace(s[0]) {
      var i := TrimLeftIs(s[1..]);
      n := i + 1;
    } else {
      n := 0;
    }
  }

  lemma {:induction false} TrimRightIs(s: seq<Byte>) returns (n: nat)
    ensures n <= |s| && TrimRight(s) == s[..n]
    ensures forall k :: n <= k < |s| ==> IsSpace(s[k])
    ensures n > 0 ==> !IsSpace(s[n - 1])
  {
    if s != [] && IsSpace(s[|s| - 1]) {
      n := TrimRightIs(s[..|s| - 1]);
    } else {
      n := |s|;
    }
  }

  /** A stored value is the text after the colon with exactly the surrounding white space taken off. */
  lemma HeaderValue(req: Request, line: seq<Byte>, colon: nat) returns (before: seq<Byte>, after: seq<Byte>)
    requires colon < |line|
    ensures var value := WithHeader(req, line, colon).headers[line[..colon]];
            && before + value + after == line[colon + 1..]
            && (forall b :: b in before + after ==> IsSpace(b))
            && (value != [] ==> !IsSpace(value[0]) && !IsSpace(value[|value| - 1]))
    ensures forall field :: field in req.headers && field != line[..colon] ==>
              field in WithHeader(req, line, colon).headers
              && WithHeader(req, line, colon).headers[field] == req.headers[field]
  {
    hide TrimLeft, TrimRight, IsSpace;
    var s := line[colon + 1..];
    var n := TrimLeftIs(s);
    var left := s[n..];
    var i := TrimRightIs(left);
    before, after := s[..n], left[i..];
    var value := left[..i];
    assert WithHeader(req, line, colon).headers[line[..colon]] == value;
    assert s == before + value + after;
    forall b | b in before + after ensures IsSpace(b) {
      if b in before {
        var k :| 0 <= k < n && s[k] == b;
      } else {
        var k :| i <= k < |left| && left[k] == b;
      }
    }
    if value != [] {
      assert value[0] == left[0] == s[n] && value[|value| - 1] == left[i - 1];
    }
  }

  // ---------- independence of how the input is cut ----------

  /** More input after a stop changes only the leftover; more input after a pause is as if it had been there. */
  lemma {:induction false} ParseExtended(state: ParseState, req: Request, s: seq<Byte>, more: seq<Byte>, t: int)
    requires Parsing(state)
    ensures var r := Parse(state, req, s, t);
            && (!r.ok || r.state == GotAll ==> Parse(state, req, s + more, t) == r.(rest := r.rest + more))
            && (r.ok && r.state != GotAll ==>
                  Parsing(r.state) && FindCrlf(r.rest).None?
                  && Parse(state, req, s + more, t) == Parse(r.state, r.request, r.rest + more, t))
    decreases |s|
  {
    var crlf := FindCrlf(s);
    if crlf.Some? {
      CrlfInExtension(s, more);
      var k := crlf.value;
      assert (s + more)[..k] == s[..k];
      assert (s + more)[k + 2..] == s[k + 2..] + more;
      if state == ExpectRequestLine {
        var (ok, req') := RequestLine(req, s[..k]);
        if ok {
          ParseExtended(ExpectHeaders, req'.(receiveTime := t), s[k + 2..], more, t);
        }
      } else {
        var colon := Find(s[..k], COLON);
        if colon < k {
          ParseExtended(ExpectHeaders, WithHeader(req, s[..k], colon), s[k + 2..], more, t);
        }
      }
    }
  }

  /** A result with the receive time left out. */
  function Timeless(r: Result): Result { r.(request := r.request.(receiveTime := 0)) }

  lemma RequestLineTimeless(req: Request, req': Request, line: seq<Byte>)
    requires req.(receiveTime := 0) == req'.(receiveTime := 0)
    ensures RequestLine(req, line).0 == RequestLine(req', line).0
    ensures RequestLine(req, line).1.(receiveTime := 0) == RequestLine(req', line).1.(receiveTime := 0)
  {
    hide Find, FindFrom, MethodOf;
  }

  lemma {:induction false} ParseTimeless(state: ParseState, req: Request, req': Request, s: seq<Byte>, t: int, t': int)
    requires Parsing(state)
    requires req.(receiveTime := 0) == req'.(receiveTime := 0)
    ensures Timeless(Parse(state, req, s, t)) == Timeless(Parse(state, req', s, t'))
    decreases |s|
  {
    hide RequestLine, TrimLeft, TrimRight, Find, FindFrom;
    var crlf := FindCrlf(s);
    if crlf.Some? {
      var line, rest := s[..crlf.value], s[crlf.value + 2..];
      if state == ExpectRequestLine {
        RequestLineTimeless(req, req', line);
        var (ok, r) := RequestLine(req, line);
        var (_, r') := RequestLine(req', line);
        if ok {
          ParseTimeless(ExpectHeaders, r.(receiveTime := t), r'.(receiveTime := t'), rest, t, t');
        }
      } else {
        var colon := Find(line, COLON);
        if colon < |line| {
          ParseTimeless(ExpectHeaders, WithHeader(req, line, colon), WithHeader(req', line, colon), rest, t, t');
        }
      }
    }
  }

  datatype Chunk = Chunk(bytes: seq<Byte>, time: int)

  function Joined(chunks: seq<Chunk>): seq<Byte> {
    if chunks == [] then [] else chunks[0].bytes + Joined(chunks[1..])
  }

  /** One call of parseRequest per chunk, until it rejects or completes; later chunks stay unread. */
  function ParseChunks(state: ParseState, req: Request, rest: seq<Byte>, chunks: seq<Chunk>): Result
    requires Parsing(state)
    decreases |chunks|
  {
    if chunks == [] then Result(true, state, req, rest)
    else
      var r := Parse(state, req, rest + chunks[0].bytes, chunks[0].time);
      if !r.ok || !Parsing(r.state) then r.(rest := r.rest + Joined(chunks[1..]))
      else ParseChunks(r.state, r.request, r.rest, chunks[1..])
  }

  /** Any cut of the input, also between CR and LF, gives the same state, request and leftover bytes. */
  lemma {:induction false} SplitIndependence(state: ParseState, req: Request, rest: seq<Byte>,
                                             chunks: seq<Chunk>, t: int)
    requires Parsing(state) && FindCrlf(rest).None?
    ensures Timeless(ParseChunks(state, req, rest, chunks)) == Timeless(Parse(state, req, rest + Joined(chunks), t))
    decreases |chunks|
  {
    if chunks == [] {
      assert rest + [] == rest;
    } else {
      var c, others := chunks[0], Joined(chunks[1..]);
      var s := rest + c.bytes;
      assert rest + Joined(chunks) == s + others;
      ParseExtended(state, req, s, others, c.time);
      ParseTimeless(state, req, req, s + others, c.time, t);
      var r := Parse(state, req, s, c.time);
      if r.ok && Parsing(r.state) {
        SplitIndependence(r.state, r.request, r.rest, chunks[1..], t);
        ParseTimeless(r.state, r.request, r.request, r.rest + others, c.time, t);
      }
    }
  }

  /** From a new context: the whole input in one call, or in any chunks. */
  lemma SplitIndependenceFromStart(req: Request, chunks: seq<Chunk>, t: int)
    ensures Timeless(ParseChunks(ExpectRequestLine, req, [], chunks))
         == Timeless(Parse(ExpectRequestLine, req, Joined(chunks), t))
  {
    SplitIndependence(ExpectRequestLine, req, [], chunks, t);
    assert [] + Joined(chunks) == Joined(chunks);
  }
}
