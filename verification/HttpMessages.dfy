/**
  Whole messages through the HTTP parser: what a request line and header lines leave in the request, and
  where the parser stops.
 */
module HttpMessages {
  import opened Wrappers
  import opened BigEndian
  import opened ByteSearch
  import opened Http

  /** CR LF */
  const EOL: seq<Byte> := [13, 10]

  predicate NoEol(line: seq<Byte>) {
    forall k :: 0 <= k < |line| - 1 ==> !(line[k] == 13 && line[k + 1] == 10)
  }

  lemma FirstEol(line: seq<Byte>, rest: seq<Byte>)
    requires NoEol(line)
    ensures FindCrlf(line + EOL + rest) == Some(|line|)
    ensures (line + EOL + rest)[..|line|] == line && (line + EOL + rest)[|line| + 2..] == rest
  {
    var s := line + EOL + rest;
    assert CrlfAt(s, |line|);
    forall k: nat | k < |line| ensures !CrlfAt(s, k) {
      assert s[k] == line[k];
      if k + 1 < |line| {
        assert s[k + 1] == line[k + 1];
      } else {
        assert s[k + 1] == 13;
      }
    }
  }

  // ---------- header lines ----------

  /** name ":" before value after, where before and after are white space around the value. */
  datatype Header = Header(name: seq<Byte>, before: seq<Byte>, value: seq<Byte>, after: seq<Byte>)

  predicate White(s: seq<Byte>) { forall i :: 0 <= i < |s| ==> !Visible(s[i]) }

  predicate Visible(b: Byte) { b != 32 && !(9 <= b <= 13) }

  function Line(h: Header): seq<Byte> { h.name + [58] + h.before + h.value + h.after }

  predicate WellFormed(h: Header) {
    && 58 !in h.name && NoEol(Line(h)) && White(h.before) && White(h.after)
    && (h.value != [] ==> Visible(h.value[0]) && Visible(h.value[|h.value| - 1]))
  }

  function Lines(hs: seq<Header>): seq<Byte> {
    if hs == [] then [] else Line(hs[0]) + EOL + Lines(hs[1..])
  }

  /** Every value under its name; of two headers with one name the later counts. */
  function Stored(headers: map<seq<Byte>, seq<Byte>>, hs: seq<Header>): map<seq<Byte>, seq<Byte>>
    decreases |hs|
  {
    if hs == [] then headers else Stored(headers[hs[0].name := hs[0].value], hs[1..])
  }

  lemma {:induction false} LeftTrimmed(before: seq<Byte>, s: seq<Byte>)
    requires White(before) && (s != [] ==> Visible(s[0]))
    ensures TrimLeft(before + s) == s
  {
    if before == [] {
      assert before + s == s;
    } else {
      assert (before + s)[1..] == before[1..] + s;
      LeftTrimmed(before[1..], s);
    }
  }

  lemma {:induction false} RightTrimmed(s: seq<Byte>, after: seq<Byte>)
    requires White(after) && (s != [] ==> Visible(s[|s| - 1]))
    ensures TrimRight(s + after) == s
  {
    if after == [] {
      assert s + after == s;
    } else {
      var n := |after| - 1;
      assert (s + after)[..|s + after| - 1] == s + after[..n];
      RightTrimmed(s, after[..n]);
    }
  }

  lemma AllTrimmed(before: seq<Byte>, value: seq<Byte>, after: seq<Byte>)
    requires White(before) && White(after)
    requires value != [] ==> Visible(value[0]) && Visible(value[|value| - 1])
    ensures TrimRight(TrimLeft(before + value + after)) == value
  {
    if value == [] {
      assert before + value + after == (before + after) + [];
      LeftTrimmed(before + after, []);
    } else {
      assert before + value + after == before + (value + after);
      LeftTrimmed(before, value + after);
      RightTrimmed(value, after);
    }
  }

  lemma FindColon(name: seq<Byte>, tail: seq<Byte>)
    requires 58 !in name
    ensures Find(name + [58] + tail, 58) == |name|
  {
    FindInConcat(name, 58, tail, 0);
  }

  /** One header line is stored under its name. */
  lemma OneHeader(req: Request, h: Header, rest: seq<Byte>, t: int)
    requires WellFormed(h)
    ensures Parse(ExpectHeaders, req, Line(h) + EOL + rest, t)
         == Parse(ExpectHeaders, req.(headers := req.headers[h.name := h.value]), rest, t)
  {
    var line := Line(h);
    var tail := h.before + h.value + h.after;
    assert line == h.name + [58] + tail;
    FirstEol(line, rest);
    FindColon(h.name, tail);
    AllTrimmed(h.before, h.value, h.after);
    assert line[..|h.name|] == h.name && line[|h.name| + 1..] == tail;
    hide Find, FindCrlf, TrimLeft, TrimRight, Line;
  }

  lemma EmptyLine(req: Request, rest: seq<Byte>, t: int)
    ensures Parse(ExpectHeaders, req, EOL + rest, t) == Result(true, GotAll, req, rest)
  {
    FirstEol([], rest);
    assert [] + EOL + rest == EOL + rest;
    assert Find([], 58) == 0;
    hide FindCrlf;
  }

  /** Header lines and an empty line complete the request with exactly these headers and leave what follows. */
  lemma {:induction false} HeadersParse(req: Request, hs: seq<Header>, rest: seq<Byte>, t: int)
    requires forall h :: h in hs ==> WellFormed(h)
    ensures Parse(ExpectHeaders, req, Lines(hs) + (EOL + rest), t)
         == Result(true, GotAll, req.(headers := Stored(req.headers, hs)), rest)
    decreases |hs|
  {
    hide Parse, WellFormed, Line;
    if hs == [] {
      EmptyLine(req, rest, t);
      assert Lines(hs) + (EOL + rest) == EOL + rest;
    } else {
      var more := Lines(hs[1..]) + (EOL + rest);
      assert Lines(hs) + (EOL + rest) == Line(hs[0]) + EOL + more;
      OneHeader(req, hs[0], more, t);
      HeadersParse(req.(headers := req.headers[hs[0].name := hs[0].value]), hs[1..], rest, t);
    }
  }

  // ---------- whole requests ----------

  lemma RequestLineKeeps(req: Request, line: seq<Byte>)
    ensures RequestLine(req, line).1.headers == req.headers && RequestLine(req, line).1.receiveTime == req.receiveTime
  {
    hide Find, FindFrom, MethodOf;
  }

  /** GET, POST, HEAD, PUT, DELETE */
  function NameOf(m: Method): seq<Byte>
    requires m != Invalid
  {
    match m
    case Get => [71, 69, 84]
    case Post => [80, 79, 83, 84]
    case Head => [72, 69, 65, 68]
    case Put => [80, 85, 84]
    case Delete => [68, 69, 76, 69, 84, 69]
  }

  /** The method, a target that is a path and maybe a query, and HTTP/1.0 or HTTP/1.1, one space between them. */
  predicate IsFirstLine(line: seq<Byte>, m: Method, path: seq<Byte>, query: seq<Byte>, version: Version) {
    && m != Invalid && version != Unknown
    && 32 !in path && 32 !in query && 63 !in path && (query == [] || query[0] == 63)
    && line == NameOf(m) + [32] + (path + query) + [32]
               + [72, 84, 84, 80, 47, 49, 46, if version == Http11 then 49 else 48]
  }

  lemma FirstLineAccepted(req: Request, line: seq<Byte>, m: Method, path: seq<Byte>, query: seq<Byte>, v: Version)
    requires IsFirstLine(line, m, path, query, v)
    ensures RequestLine(req, line)
         == (true, req.(verb := m, version := v, path := path, query := if query == [] then req.query else query))
  {
    var minor: Byte := if v == Http11 then 49 else 48;
    var target := path + query;
    assert HTTP_1 + [minor] == [72, 84, 84, 80, 47, 49, 46, minor];
    assert line == MethodName(m) + [SPACE] + target + [SPACE] + HTTP_1 + [minor] by {
      assert NameOf(m) == MethodName(m);
      var start := NameOf(m) + [32] + target + [32];
      assert start + (HTTP_1 + [minor]) == start + HTTP_1 + [minor];
    }
    TargetParts(path, query);
    RequestLineAccepts(req, line, m, target, minor);
    RequestLineKeeps(req, line);
    hide RequestLine, Find, NameOf;
  }

  lemma TargetParts(path: seq<Byte>, query: seq<Byte>)
    requires 32 !in path && 32 !in query && 63 !in path && (query == [] || query[0] == 63)
    ensures var target := path + query;
            && 32 !in target && (63 in target <==> query != [])
            && Find(target, 63) == |path| && target[..|path|] == path && target[|path|..] == query
  {
    var target := path + query;
    assert forall i :: 0 <= i < |path| ==> target[i] == path[i];
    if query == [] {
      assert target == path;
    } else {
      assert target[|path|] == 63;
    }
  }

  /**
    Such a first line, header lines and an empty line: the request is complete, with this method, version, path
    and query and these headers, and what follows stays in the buffer.
   */
  lemma RequestParses(req: Request, line: seq<Byte>, m: Method, path: seq<Byte>, query: seq<Byte>, version: Version,
                      hs: seq<Header>, rest: seq<Byte>, t: int)
    requires IsFirstLine(line, m, path, query, version) && NoEol(line) && forall h :: h in hs ==> WellFormed(h)
    ensures Parse(ExpectRequestLine, req, line + EOL + (Lines(hs) + (EOL + rest)), t)
         == Result(true, GotAll,
                   Request(m, version, path, if query == [] then req.query else query, t, Stored(req.headers, hs)),
                   rest)
  {
    var more := Lines(hs) + (EOL + rest);
    FirstEol(line, more);
    FirstLineAccepted(req, line, m, path, query, version);
    var r := RequestLine(req, line).1.(receiveTime := t);
    HeadersParse(r, hs, rest, t);
    hide RequestLine, FindCrlf, IsFirstLine, Lines, Stored, NoEol, WellFormed;
  }

  /** A complete first line that is not a request line is rejected and stays in the buffer. */
  lemma BadLineRejected(req: Request, line: seq<Byte>, rest: seq<Byte>, t: int)
    requires NoEol(line) && !RequestLine(req, line).0
    ensures var r := Parse(ExpectRequestLine, req, line + EOL + rest, t);
            !r.ok && r.state == ExpectRequestLine && r.rest == line + EOL + rest
  {
    FirstEol(line, rest);
    hide RequestLine, FindCrlf;
  }

  /** Without a complete line the parser waits. */
  lemma NoLineWaits(state: ParseState, req: Request, s: seq<Byte>, t: int)
    requires Parsing(state) && NoEol(s)
    ensures Parse(state, req, s, t) == Result(true, state, req, s)
  {
    assert forall k: nat :: !CrlfAt(s, k);
  }
}
