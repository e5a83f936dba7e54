/** Http/httprequestparser.h and Http/httprequestparser.cpp: the incremental, line-driven parser,
    and the way Http/httpserver.cpp feeds it. */
module HttpParsers {
  import opened Lines
  import opened Wrappers
  import opened HttpRequests
  import opened Buffers

  datatype ParseState = ParseRequestLine | ParseHeader | ParseBody | GotCompleteRequest | ParseErrno

  datatype Parser = Parser(state: ParseState, request: Request)

  const FRESH_PARSER := Parser(ParseRequestLine, FRESH_REQUEST)

  /** Outcome of one line: the parser, and whether parseContent returns at once. */
  datatype StepResult = StepResult(parser: Parser, stop: bool)

  function Step(p: Parser, line: string): (res: StepResult) {
    match p.state
    case ParseRequestLine =>
      var res := RequestLine(p.request, line);
      StepResult(Parser(if res.ok then ParseHeader else ParseErrno, res.request), !res.ok)
    case ParseHeader =>
      var colon := Find(line, ':');
      if line == "" then StepResult(p.(state := GotCompleteRequest), false)
      else if colon < |line| then StepResult(p.(request := HeaderAdded(p.request, line, colon)), false)
      else StepResult(p.(state := ParseErrno), true)
    case ParseBody =>
      var post := if line != "" && p.request.method_ == Post then PostParsed(p.request.post, line)
                  else p.request.post;
      StepResult(Parser(GotCompleteRequest, p.request.(post := post)), true)
    case _ =>
      StepResult(p.(state := ParseErrno), true)
  }

  /** A parser together with the bytes left unread in its buffer. */
  datatype Feed = Feed(parser: Parser, rest: string)

  /** parseContent on a buffer holding buf. */
  function Parse(p: Parser, buf: string): (f: Feed)
    ensures |f.rest| <= |buf|
    decreases |buf|
  {
    var crlf := FindCRLF(buf);
    if crlf.None? then Feed(p, buf)
    else
      var res := Step(p, buf[..crlf.value]);
      var rest := buf[crlf.value + 2..];
      if res.stop then Feed(res.parser, rest) else Parse(res.parser, rest)
  }

  // ----- What every run keeps -----

  function Rank(s: ParseState): (n: nat) {
    match s
    case ParseRequestLine => 0
    case ParseHeader => 1
    case ParseBody => 1
    case GotCompleteRequest => 2
    case ParseErrno => 3
  }

  /** The body state is never entered and the posted form never filled. */
  predicate Clean(p: Parser) {
    p.state != ParseBody && p.request.post == map[]
  }

  /** Unread bytes hold no complete line, except after an error. */
  predicate Settled(f: Feed) {
    f.parser.state == ParseErrno || NoCRLF(f.rest)
  }

  lemma StepKeeps(p: Parser, line: string)
    requires Clean(p)
    ensures var res := Step(p, line);
            && Clean(res.parser) && Rank(p.state) <= Rank(res.parser.state)
            && (res.stop ==> res.parser.state == ParseErrno)
  {
  }

  /** The check after the switch (lines 72-75 of the source) never applies: a line that does not make
      parseContent return never leaves it in the body state. */
  lemma BodyCheckIsDead(p: Parser, line: string)
    ensures Step(p, line).stop || Step(p, line).parser.state != ParseBody
  {
  }

  lemma {:induction false} ParseKeeps(p: Parser, buf: string)
    requires Clean(p)
    ensures var f := Parse(p, buf);
            Clean(f.parser) && Rank(p.state) <= Rank(f.parser.state) && Settled(f)
    decreases |buf|
  {
    var crlf := FindCRLF(buf);
    if crlf.None? {
    } else {
      StepKeeps(p, buf[..crlf.value]);
      var res := Step(p, buf[..crlf.value]);
      if !res.stop {
        ParseKeeps(res.parser, buf[crlf.value + 2..]);
      }
    }
  }

  lemma JoinLinesCons(line: string, lines: seq<string>, rest: string)
    ensures JoinLines([line] + lines) + rest == line + CRLF + (JoinLines(lines) + rest)
  {
    assert ([line] + lines)[1..] == lines;
  }

  /** The bytes that leave the buffer are whole lines, each with its CRLF. */
  lemma {:induction false} ParseConsumesLines(p: Parser, buf: string) returns (lines: seq<string>)
    ensures buf == JoinLines(lines) + Parse(p, buf).rest
    ensures forall i :: 0 <= i < |lines| ==> NoCRLF(lines[i])
    ensures |buf| >= |Parse(p, buf).rest| + 2 * |lines|
    decreases |buf|
  {
    var crlf := FindCRLF(buf);
    if crlf.None? {
      lines := [];
    } else {
      var line, rest := buf[..crlf.value], buf[crlf.value + 2..];
      FoundLine(buf);
      var more := [];
      if !Step(p, line).stop {
        more := ParseConsumesLines(Step(p, line).parser, rest);
      }
      lines := [line] + more;
      JoinLinesCons(line, more, Parse(p, buf).rest);
    }
  }

  // ----- Chunking -----

  lemma ErrnoAbsorbs(p: Parser, buf: string)
    requires p.state == ParseErrno
    ensures Parse(p, buf).parser == p
  {
  }

  /** Same parser; and the same unread bytes unless an error stopped the parsing. */
  predicate Same(f: Feed, g: Feed) {
    f.parser == g.parser && (f.parser.state != ParseErrno ==> f.rest == g.rest)
  }

  /** Parsing a, then the leftovers followed by b, is parsing a + b, wherever the cut falls. */
  lemma {:induction false} ParseSplit(p: Parser, a: string, b: string)
    requires p.state != ParseBody
    ensures var f := Parse(p, a); Same(Parse(f.parser, f.rest + b), Parse(p, a + b))
    decreases |a|
  {
    var crlf := FindCRLF(a);
    if crlf.None? {
    } else {
      FindCRLFStable(a, b);
      var i := crlf.value;
      assert (a + b)[..i] == a[..i] && (a + b)[i + 2..] == a[i + 2..] + b;
      var res := Step(p, a[..i]);
      if res.stop {
        ErrnoAbsorbs(res.parser, a[i + 2..] + b);
      } else {
        ParseSplit(res.parser, a[i + 2..], b);
      }
    }
  }

  /** parseContent after every chunk, leftovers kept in the buffer. */
  function FeedAll(f: Feed, chunks: seq<string>): (g: Feed)
    decreases |chunks|
  {
    if chunks == [] then f else FeedAll(Parse(f.parser, f.rest + chunks[0]), chunks[1..])
  }

  function Concat(chunks: seq<string>): (s: string) {
    if chunks == [] then "" else chunks[0] + Concat(chunks[1..])
  }

  lemma {:induction false} FeedAllIsParse(f: Feed, chunks: seq<string>)
    requires Clean(f.parser) && Settled(f)
    ensures Same(FeedAll(f, chunks), Parse(f.parser, f.rest + Concat(chunks)))
    decreases |chunks|
  {
    if chunks == [] {
      assert f.rest + "" == f.rest;
      if f.parser.state == ParseErrno {
        ErrnoAbsorbs(f.parser, f.rest);
      }
    } else {
      var buf := f.rest + chunks[0];
      ParseKeeps(f.parser, buf);
      FeedAllIsParse(Parse(f.parser, buf), chunks[1..]);
      ParseSplit(f.parser, buf, Concat(chunks[1..]));
      assert f.rest + Concat(chunks) == buf + Concat(chunks[1..]);
    }
  }

  /** However a byte string is cut, the parser ends as if it had seen the whole string at once. */
  lemma ChunkingIndependence(chunks: seq<string>)
    ensures Same(FeedAll(Feed(FRESH_PARSER, ""), chunks), Parse(FRESH_PARSER, Concat(chunks)))
  {
    FeedAllIsParse(Feed(FRESH_PARSER, ""), chunks);
    assert "" + Concat(chunks) == Concat(chunks);
  }

  // ----- HttpServer::onMessage, which throws the leftovers away -----

  function OnMessage(p: Parser, chunk: string): (q: Parser) {
    Parse(p, chunk).parser
  }

  /** When discarding the leftovers cannot matter. */
  predicate Discardable(f: Feed) {
    || f.rest == ""
    || f.parser.state == ParseErrno
    || (f.parser.state == GotCompleteRequest && f.rest[|f.rest| - 1] != '\r')
  }

  lemma CompleteSeesCrlf(p: Parser, buf: string)
    requires p.state == GotCompleteRequest
    ensures Parse(p, buf).parser == if NoCRLF(buf) then p else p.(state := ParseErrno)
  {
  }

  lemma CrlfInSuffix(a: string, b: string)
    requires NoCRLF(a) && (a == "" || a[|a| - 1] != '\r')
    ensures NoCRLF(a + b) <==> NoCRLF(b)
  {
    if NoCRLF(b) {
      NoCRLFConcat(a, b);
    } else {
      var i := FindCRLF(b).value;
      assert CrlfAt(a + b, |a| + i);
    }
  }

  lemma DiscardHarmless(f: Feed, b: string)
    requires Clean(f.parser) && Settled(f) && Discardable(f)
    ensures Parse(f.parser, f.rest + b).parser == Parse(f.parser, b).parser
  {
    if f.parser.state == ParseErrno {
      ErrnoAbsorbs(f.parser, f.rest + b);
      ErrnoAbsorbs(f.parser, b);
    } else if f.rest == "" {
      assert f.rest + b == b;
    } else {
      CrlfInSuffix(f.rest, b);
      CompleteSeesCrlf(f.parser, f.rest + b);
      CompleteSeesCrlf(f.parser, b);
    }
  }

  const PROBE := "GET" + " " + ("/" + " " + "HTTP/1.1")

  lemma ProbeAccepted(r: Request)
    ensures NoCRLF(PROBE) && RequestLine(r, PROBE).ok
  {
    NoCarriageReturn(PROBE);
    VersionTextReadsBack(Http11);
    RequestLineAccepted(r, PROBE, "GET", "/", "HTTP/1.1");
  }

  /** The blanks of a request line: one after the method, one before the eight bytes of version. */
  lemma BlanksOfRequestLine(line: string, m: string, target: string, version: string, k: nat)
    requires IsRequestLine(line, m, target, version)
    requires k + 9 < |line| && line[k] == ' '
    ensures k == |m|
  {
    assert |version| == 8;
    assert forall j :: 0 <= j < |m| ==> line[j] == m[j];
    assert forall j :: |m| < j <= |m| + |target| ==> line[j] == target[j - |m| - 1];
  }

  /** No line that ends with the probe, other than the probe, is a request line. */
  lemma ProbeWithJunkRejected(r: Request, junk: string)
    requires junk != ""
    ensures !RequestLine(r, junk + PROBE).ok
  {
    var line := junk + PROBE;
    if RequestLine(r, line).ok {
      var m, target, version := AcceptedLineShape(r, line);
      var k := |junk| + 3;
      assert line[k] == PROBE[3];
      BlanksOfRequestLine(line, m, target, version, k);
      assert m == line[..k] && line[..k] == junk + "GET";
      NoLongerMethodEndsInGet(m);
    }
  }

  lemma NoLongerMethodEndsInGet(m: string)
    requires |m| > 3 && m[|m| - 3..] == "GET"
    ensures MethodOf(m) == InvalidMethod
  {
    assert m[|m| - 1] == 'T' && m[|m| - 2] == 'E' && m[|m| - 3] == 'G';
  }

  /** A continuation on which the leftovers make a difference. */
  function Witness(f: Feed): (b: string) {
    match f.parser.state
    case ParseRequestLine => PROBE + CRLF
    case GotCompleteRequest => "\n"
    case _ => CRLF
  }

  /** One line in front of anything else. */
  lemma ParseLine(p: Parser, line: string, rest: string)
    requires NoCRLF(line)
    ensures Parse(p, line + CRLF + rest) ==
            if Step(p, line).stop then Feed(Step(p, line).parser, rest) else Parse(Step(p, line).parser, rest)
  {
    LineThenRest(line, rest);
  }

  lemma ParseOneLine(p: Parser, line: string)
    requires NoCRLF(line)
    ensures Parse(p, line + CRLF).parser == Step(p, line).parser
  {
    ParseLine(p, line, "");
    assert line + CRLF + "" == line + CRLF;
  }

  lemma FirstLineVerdict(p: Parser, line: string)
    requires p.state == ParseRequestLine && NoCRLF(line)
    ensures Parse(p, line + CRLF).parser.state ==
            if RequestLine(p.request, line).ok then ParseHeader else ParseErrno
  {
    ParseOneLine(p, line);
  }

  lemma JunkBeforeProbe(p: Parser, junk: string)
    requires p.state == ParseRequestLine && NoCRLF(junk) && junk != ""
    ensures Parse(p, junk + (PROBE + CRLF)).parser.state == ParseErrno
  {
    ProbeWithJunkRejected(p.request, junk);
    assert NoCRLF(junk + PROBE) by {
      NoCarriageReturn(PROBE);
      NoCRLFConcat(junk, PROBE);
    }
    FirstLineVerdict(p, junk + PROBE);
    assert junk + PROBE + CRLF == junk + (PROBE + CRLF);
  }

  lemma DiscardHarms(f: Feed)
    requires Clean(f.parser) && Settled(f) && !Discardable(f)
    ensures Parse(f.parser, f.rest + Witness(f)).parser != Parse(f.parser, Witness(f)).parser
  {
    var p, rest := f.parser, f.rest;
    if p.state == ParseRequestLine {
      ProbeAccepted(p.request);
      FirstLineVerdict(p, PROBE);
      JunkBeforeProbe(p, rest);
    } else if p.state == ParseHeader {
      ParseOneLine(p, "");
      ParseOneLine(p, rest);
      assert "" + CRLF == CRLF;
    } else {
      assert CrlfAt(rest + "\n", |rest| - 1);
      CompleteSeesCrlf(p, rest + "\n");
      CompleteSeesCrlf(p, "\n");
    }
  }

  /** Discarding the leftovers of chunk a goes unnoticed on every continuation exactly when there
      are none, or the parser has failed, or it is complete and the leftovers do not end in CR. */
  lemma DiscardExactness(p: Parser, a: string)
    requires Clean(p)
    ensures (forall b: string :: OnMessage(OnMessage(p, a), b) == OnMessage(p, a + b)) <==>
            Discardable(Parse(p, a))
  {
    var f := Parse(p, a);
    ParseKeeps(p, a);
    if Discardable(f) {
      forall b: string
        ensures OnMessage(OnMessage(p, a), b) == OnMessage(p, a + b)
      {
        ParseSplit(p, a, b);
        DiscardHarmless(f, b);
      }
    } else {
      DiscardHarms(f);
      ParseSplit(p, a, Witness(f));
      assert OnMessage(OnMessage(p, a), Witness(f)) != OnMessage(p, a + Witness(f));
    }
  }

  predicate EndsLine(s: string) {
    s == "" || (|s| >= 2 && CrlfAt(s, |s| - 2))
  }

  lemma LineEndSuffix(buf: string)
    requires EndsLine(buf) && buf != ""
    ensures FindCRLF(buf).Some? && EndsLine(buf[FindCRLF(buf).value + 2..])
  {
    var n := |buf|;
    var i := FindCRLF(buf).value;
    assert i <= n - 2 && i + 1 != n - 2;
  }

  lemma {:induction false} LineEndLeavesNothing(p: Parser, buf: string)
    requires Clean(p) && EndsLine(buf)
    ensures Parse(p, buf).rest == "" || Parse(p, buf).parser.state == ParseErrno
    decreases |buf|
  {
    if buf == "" {
    } else {
      LineEndSuffix(buf);
      var i := FindCRLF(buf).value;
      var res := Step(p, buf[..i]);
      if !res.stop {
        LineEndLeavesNothing(res.parser, buf[i + 2..]);
      }
    }
  }

  function OnMessages(p: Parser, chunks: seq<string>): (q: Parser)
    decreases |chunks|
  {
    if chunks == [] then p else OnMessages(OnMessage(p, chunks[0]), chunks[1..])
  }

  /** When every chunk ends a line, onMessage sees what one call on the whole string would see. */
  lemma {:induction false} OnMessageOnLineEnds(p: Parser, chunks: seq<string>)
    requires Clean(p)
    requires forall i :: 0 <= i < |chunks| ==> EndsLine(chunks[i])
    ensures OnMessages(p, chunks) == Parse(p, Concat(chunks)).parser
    decreases |chunks|
  {
    if chunks == [] {
    } else {
      var f := Parse(p, chunks[0]);
      ParseKeeps(p, chunks[0]);
      LineEndLeavesNothing(p, chunks[0]);
      OnMessageOnLineEnds(f.parser, chunks[1..]);
      ParseSplit(p, chunks[0], Concat(chunks[1..]));
      DiscardHarmless(f, Concat(chunks[1..]));
    }
  }

  // ----- reset -----

  /** std::swap with a new request leaves the posted form where it was. */
  function ResetOf(p: Parser): (q: Parser) {
    Parser(ParseRequestLine, FRESH_REQUEST.(post := p.request.post))
  }

  datatype Event = Chunk(bytes: string) | Reset

  function Events(f: Feed, es: seq<Event>): (g: Feed)
    decreases |es|
  {
    if es == [] then f
    else match es[0]
      case Chunk(bytes) => Events(Parse(f.parser, f.rest + bytes), es[1..])
      case Reset => Events(f.(parser := ResetOf(f.parser)), es[1..])
  }

  lemma {:induction false} EventsStayClean(f: Feed, es: seq<Event>)
    requires Clean(f.parser)
    ensures Clean(Events(f, es).parser)
    decreases |es|
  {
    if es == [] {
    } else {
      match es[0]
      case Chunk(bytes) =>
        ParseKeeps(f.parser, f.rest + bytes);
        EventsStayClean(Parse(f.parser, f.rest + bytes), es[1..]);
      case Reset =>
        EventsStayClean(f.(parser := ResetOf(f.parser)), es[1..]);
    }
  }

  /** In every run from a fresh parser, reset yields a parser equal to a fresh one. */
  lemma ResetIsFresh(es: seq<Event>)
    ensures ResetOf(Events(Feed(FRESH_PARSER, ""), es).parser) == FRESH_PARSER
  {
    EventsStayClean(Feed(FRESH_PARSER, ""), es);
  }

  /** Without a reset, a complete parser answers the next line with an error. */
  lemma CompleteThenError(p: Parser, line: string, more: string)
    requires p.state == GotCompleteRequest && NoCRLF(line)
    ensures Parse(p, line + CRLF + more) == Feed(p.(state := ParseErrno), more)
  {
    ParseLine(p, line, more);
  }

  // ----- Single lines -----

  /** A request line is accepted if and only if it has the shape of section 3 of RFC 9112. Otherwise the
      parser stops in the error state; a line without a space leaves the request as it was, an unknown
      method leaves its mark there. */
  lemma RequestLineStep(p: Parser, line: string, m: string, rest: string)
    requires p.state == ParseRequestLine && ' ' !in m
    ensures Step(p, line).parser.state == ParseHeader <==>
            exists m, target, version :: IsRequestLine(line, m, target, version)
    ensures Step(p, line).parser.state == ParseHeader <==> !Step(p, line).stop
    ensures Step(p, line).stop ==> Step(p, line).parser.state == ParseErrno
    ensures Step(p, m) == StepResult(p.(state := ParseErrno), true)
    ensures m !in METHOD_NAMES ==>
              Step(p, m + " " + rest) == StepResult(Parser(ParseErrno, p.request.(method_ := InvalidMethod)), true)
  {
    RequestLineExact(p.request, line);
    RequestLineRejected(p.request, m, "", rest);
  }

  /** Any text after the first colon: the field is stored under the text before it, the value cut of
      white space at both ends, and nothing else changes. */
  lemma HeaderLineStored(p: Parser, name: string, text: string)
    requires p.state == ParseHeader && ':' !in name
    ensures var res := Step(p, name + ":" + text);
            var fields := res.parser.request.headers;
            && !res.stop && name in fields && IsTrimOf(fields[name], text)
            && res.parser == p.(request := p.request.(headers := p.request.headers[name := fields[name]]))
  {
    assert name + ":" + text == name + [':'] + text;
    FindSplit(name, ':', text);
    TrimCuts(text);
  }

  /** A non-empty header line is accepted if and only if it contains a colon; otherwise the parser is in
      the error state, its request unchanged, and stops. */
  lemma HeaderLineExact(p: Parser, line: string)
    requires p.state == ParseHeader && line != ""
    ensures Step(p, line).parser.state == ParseHeader <==> ':' in line
    ensures ':' in line ==> !Step(p, line).stop
    ensures ':' !in line ==> Step(p, line) == StepResult(p.(state := ParseErrno), true)
  {
    FindAbsent(line, ':');
  }

  predicate FieldLine(line: string) {
    line != "" && ':' in line && NoCRLF(line)
  }

  /** Field lines, a blank line, and then anything but another line end. */
  predicate IsSection(buf: string, fields: seq<string>, rest: string) {
    && buf == JoinLines(fields) + (CRLF + rest)
    && (forall i :: 0 <= i < |fields| ==> FieldLine(fields[i]))
    && NoCRLF(rest)
  }

  /** The request after these field lines, in order. */
  function WithFields(r: Request, fields: seq<string>): (s: Request)
    requires forall i :: 0 <= i < |fields| ==> ':' in fields[i]
    decreases |fields|
  {
    if fields == [] then r
    else
      FindAbsent(fields[0], ':');
      WithFields(HeaderAdded(r, fields[0], Find(fields[0], ':')), fields[1..])
  }

  lemma {:induction false} SectionParses(p: Parser, buf: string, fields: seq<string>, rest: string)
    requires p.state == ParseHeader && IsSection(buf, fields, rest)
    ensures Parse(p, buf) == Feed(Parser(GotCompleteRequest, WithFields(p.request, fields)), rest)
    decreases |fields|
  {
    if fields == [] {
      assert buf == "" + CRLF + rest;
      LineThenRest("", rest);
    } else {
      var tail := JoinLines(fields[1..]) + (CRLF + rest);
      assert buf == fields[0] + CRLF + tail;
      LineThenRest(fields[0], tail);
      FindAbsent(fields[0], ':');
      SectionParses(Step(p, fields[0]).parser, tail, fields[1..], rest);
    }
  }

  /** A complete parser stays complete only if no further line end comes. */
  lemma StaysComplete(p: Parser, buf: string)
    requires p.state == GotCompleteRequest && Parse(p, buf).parser.state == GotCompleteRequest
    ensures NoCRLF(buf)
  {
  }

  lemma SectionLonger(line: string, tail: string, fields: seq<string>, rest: string)
    requires FieldLine(line) && IsSection(tail, fields, rest)
    ensures IsSection(line + CRLF + tail, [line] + fields, rest)
  {
    assert ([line] + fields)[1..] == fields;
    assert line + CRLF + (JoinLines(fields) + (CRLF + rest)) == line + CRLF + JoinLines(fields) + (CRLF + rest);
  }

  lemma {:induction false} CompleteHasSection(p: Parser, buf: string) returns (fields: seq<string>, rest: string)
    requires p.state == ParseHeader && Parse(p, buf).parser.state == GotCompleteRequest
    ensures IsSection(buf, fields, rest)
    decreases |buf|
  {
    FoundLine(buf);
    var i := FindCRLF(buf).value;
    var line, tail := buf[..i], buf[i + 2..];
    if line == "" {
      StaysComplete(Step(p, line).parser, tail);
      fields, rest := [], tail;
      assert buf == "" + (CRLF + tail);
    } else {
      HeaderLineExact(p, line);
      fields, rest := CompleteHasSection(Step(p, line).parser, tail);
      SectionLonger(line, tail, fields, rest);
      fields := [line] + fields;
    }
  }

  /** The request line, the header section, and no further line end. */
  predicate IsMessage(s: string, first: string, fields: seq<string>, rest: string) {
    && s == first + CRLF + (JoinLines(fields) + (CRLF + rest))
    && NoCRLF(first) && RequestLine(FRESH_REQUEST, first).ok
    && (forall i :: 0 <= i < |fields| ==> FieldLine(fields[i]))
    && NoCRLF(rest)
  }

  lemma MessageParses(s: string, first: string, fields: seq<string>, rest: string)
    requires IsMessage(s, first, fields, rest)
    ensures Parse(FRESH_PARSER, s) ==
            Feed(Parser(GotCompleteRequest, WithFields(RequestLine(FRESH_REQUEST, first).request, fields)), rest)
  {
    var tail := JoinLines(fields) + (CRLF + rest);
    LineThenRest(first, tail);
    SectionParses(Step(FRESH_PARSER, first).parser, tail, fields, rest);
  }

  /** Exactly which byte strings a fresh parser takes for a complete request: an accepted request line,
      lines with a colon, a blank line, and no line end after that. */
  lemma CompleteExactly(s: string)
    ensures Parse(FRESH_PARSER, s).parser.state == GotCompleteRequest <==>
            exists first, fields, rest :: IsMessage(s, first, fields, rest)
  {
    if Parse(FRESH_PARSER, s).parser.state == GotCompleteRequest {
      FoundLine(s);
      var i := FindCRLF(s).value;
      var first, tail := s[..i], s[i + 2..];
      var fields, rest := CompleteHasSection(Step(FRESH_PARSER, first).parser, tail);
      assert IsMessage(s, first, fields, rest);
    } else if first, fields, rest :| IsMessage(s, first, fields, rest) {
      MessageParses(s, first, fields, rest);
    }
  }

  /** The parser object: its state and its request, updated line by line. */
  class HttpRequestParser {
    const request: HttpRequest
    var state: ParseState

    ghost function V(): (p: Parser)
      reads this, request
    {
      Parser(state, request.V())
    }

    constructor ()
      ensures fresh(request) && V() == FRESH_PARSER
    {
      request := new HttpRequest();
      state := ParseRequestLine;
    }

    predicate GotAll()
      reads this
    {
      state == GotCompleteRequest
    }

    /** The switch of parseContent on one line; stop says that parseContent returns at once. */
    method HandleLine(line: string) returns (stop: bool)
      modifies this, request
      ensures StepResult(V(), stop) == Step(old(V()), line)
    {
      stop := false;
      match state {
        case ParseRequestLine =>
          var ok := request.ParseRequestLine(line);
          if ok {
            state := ParseHeader;
          } else {
            state := ParseErrno;
            stop := true;
          }
        case ParseHeader =>
          var colon := Find(line, ':');
          if line == "" {
            state := GotCompleteRequest;
          } else if colon != |line| {
            request.AddHeader(line, colon);
          } else {
            state := ParseErrno;
            stop := true;
          }
        case ParseBody =>
          if line != "" {
            request.ParseRequestBody(line);
          }
          state := GotCompleteRequest;
          stop := true;
        case _ =>
          state := ParseErrno;
          stop := true;
      }
    }

    /** Takes one line off the buffer, if a whole one is there. */
    method TakeLine(buffer: Buffer) returns (line: Option<string>)
      requires buffer.Valid()
      modifies buffer
      ensures buffer.Valid()
      ensures var unread := old(buffer.V().View());
              match FindCRLF(unread)
              case None => line == None && buffer.V().View() == unread
              case Some(i) => line == Some(unread[..i]) && buffer.V().View() == unread[i + 2..]
    {
      var unread := buffer.data[buffer.readIndex..buffer.writeIndex];
      var crlf := FindCRLF(unread);
      if crlf.None? {
        return None;
      }
      line := Some(unread[..crlf.value]);
      buffer.RetrieveUntilIndex(crlf.value + 2);
    }

    method ParseContent(buffer: Buffer) returns (s: ParseState)
      requires buffer.Valid()
      modifies this, request, buffer
      ensures buffer.Valid() && s == state
      ensures Feed(V(), buffer.V().View()) == Parse(old(V()), old(buffer.V().View()))
    {
      ghost var goal := Parse(V(), buffer.V().View());
      while buffer.readIndex < buffer.writeIndex
        invariant buffer.Valid()
        invariant Parse(V(), buffer.V().View()) == goal
        decreases |buffer.V().View()|
      {
        var line := TakeLine(buffer);
        if line.None? {
          return state;
        }
        var stop := HandleLine(line.value);
        if stop {
          return state;
        }
      }
      return state;
    }

    /** The input path of a connection: handleRead fills the input buffer, onMessage parses it and
        then empties it. The buffer is empty before and after, at the start of its storage, so it
        never compacts and the parser sees every byte. */
    method ReceiveMessage(buffer: Buffer, bytes: string)
      requires buffer.Valid() && buffer.V().View() == "" && buffer.readIndex <= PREPEND
      requires |bytes| <= ReadLimit(buffer.V())
      modifies this, request, buffer
      ensures buffer.Valid() && buffer.V().View() == "" && buffer.readIndex <= PREPEND
      ensures V() == OnMessage(old(V()), bytes)
    {
      StepRefinesQueue(buffer.V(), ReadFd(bytes), false);
      buffer.ReadFd(bytes);
      assert buffer.V().View() == bytes;
      var _ := ParseContent(buffer);
      buffer.RetrieveAll();
    }

    method ResetParser()
      modifies this, request
      ensures V() == ResetOf(old(V()))
    {
      var tmp := new HttpRequest();
      tmp.Swap(request);
      state := ParseRequestLine;
    }
  }
}
