/** Http/httpresponse.cpp: the response printer, and a reader that frames the printed stream by the
    first blank line and Content-length, as section 6.3 of RFC 9112 describes. */
module HttpResponses {
  import opened Lines
  import opened Wrappers
  import opened Decimal
  import opened Buffers
  import HttpRequests

  const SERVER_NAME := "Ymirth server"

  datatype Response = Response(
    code: nat, message: string, body: string, contentType: string, close: bool)

  function HeaderLines(r: Response): (lines: seq<string>) {
    ["HTTP/1.1 " + Text(r.code) + " " + r.message]
    + (if r.close then ["Connection: close"]
       else ["Content-length: " + Text(|r.body|), "Connection: Keep-Alive"])
    + ["Content-type: " + r.contentType, "Server: " + SERVER_NAME]
  }

  /** What appendToBuffer adds to the buffer. */
  function Rendered(r: Response): (s: string) {
    JoinLines(HeaderLines(r)) + (CRLF + r.body)
  }

  function Stream(rs: seq<Response>): (s: string) {
    if rs == [] then "" else Rendered(rs[0]) + Stream(rs[1..])
  }

  // ----- The reader -----

  datatype Head = Head(lines: seq<string>, rest: string)

  /** Lines up to the first blank one, and what follows it; None if there is no blank line yet. */
  function ReadHead(s: string): (h: Option<Head>)
    ensures h.Some? ==> |h.value.rest| < |s|
    decreases |s|
  {
    var crlf := FindCRLF(s);
    if crlf.None? then None
    else
      var line, rest := s[..crlf.value], s[crlf.value + 2..];
      if line == "" then Some(Head([], rest))
      else
        var h := ReadHead(rest);
        if h.None? then None else Some(Head([line] + h.value.lines, h.value.rest))
  }

  const LENGTH_PREFIX := "Content-length: "

  /** The value of the first Content-length field. */
  function ContentLength(lines: seq<string>): (n: Option<nat>) {
    if lines == [] then None
    else if LENGTH_PREFIX <= lines[0] then
      var p := Parse(lines[0][|LENGTH_PREFIX|..]);
      if p.Number? && p.value >= 0 then Some(p.value) else None
    else ContentLength(lines[1..])
  }

  /** Bodies read off the stream until the connection closes: Content-length bytes, or else all
      that remains. */
  function ReadBodies(s: string): (bodies: Option<seq<string>>)
    decreases |s|
  {
    if s == "" then Some([])
    else
      var head := ReadHead(s);
      if head.None? then None
      else
        var rest := head.value.rest;
        match ContentLength(head.value.lines)
        case None => Some([rest])
        case Some(n) =>
          if n > |rest| then None
          else
            var more := ReadBodies(rest[n..]);
            if more.None? then None else Some([rest[..n]] + more.value)
  }

  // ----- Framing -----

  predicate Wellformed(r: Response) {
    NoCRLF(r.message) && NoCRLF(r.contentType)
  }

  predicate GoodLine(line: string) {
    line != "" && NoCRLF(line)
  }

  lemma ReadHeadLine(line: string, rest: string)
    requires GoodLine(line)
    ensures ReadHead(line + CRLF + rest) ==
            match ReadHead(rest)
            case None => None
            case Some(h) => Some(Head([line] + h.lines, h.rest))
  {
    LineThenRest(line, rest);
  }

  lemma {:induction false} ReadHeadOf(lines: seq<string>, rest: string)
    requires forall i :: 0 <= i < |lines| ==> GoodLine(lines[i])
    ensures ReadHead(JoinLines(lines) + (CRLF + rest)) == Some(Head(lines, rest))
  {
    if lines == [] {
      LineThenRest("", rest);
      assert "" + CRLF + rest == "" + (CRLF + rest);
    } else {
      var tail := JoinLines(lines[1..]) + (CRLF + rest);
      ReadHeadLine(lines[0], tail);
      assert JoinLines(lines) + (CRLF + rest) == lines[0] + CRLF + tail;
      ReadHeadOf(lines[1..], rest);
      assert lines == [lines[0]] + lines[1..];
    }
  }

  lemma PrefixedLine(prefix: string, s: string)
    requires prefix != "" && '\r' !in prefix && NoCRLF(s)
    ensures GoodLine(prefix + s)
  {
    NoCarriageReturn(prefix);
    NoCRLFConcat(prefix, s);
  }

  lemma DigitsHaveNoCR(n: nat)
    ensures '\r' !in Text(n)
  {
    NatTextIsCanonical(n);
  }

  lemma StatusLineIsGood(r: Response)
    requires Wellformed(r)
    ensures GoodLine("HTTP/1.1 " + Text(r.code) + " " + r.message)
  {
    DigitsHaveNoCR(r.code);
    PrefixedLine("HTTP/1.1 " + Text(r.code) + " ", r.message);
  }

  lemma HeaderLinesAreGood(r: Response)
    requires Wellformed(r)
    ensures forall i :: 0 <= i < |HeaderLines(r)| ==> GoodLine(HeaderLines(r)[i])
  {
    StatusLineIsGood(r);
    DigitsHaveNoCR(|r.body|);
    NoCarriageReturn(Text(|r.body|));
    PrefixedLine("Content-length: ", Text(|r.body|));
    PrefixedLine("Content-type: ", r.contentType);
    PrefixedLine("Server: ", SERVER_NAME);
    PrefixedLine("Connection: close", "");
    PrefixedLine("Connection: Keep-Alive", "");
    assert "Connection: close" + "" == "Connection: close";
    assert "Connection: Keep-Alive" + "" == "Connection: Keep-Alive";
  }

  /** A line starting with another word is not a Content-length line. */
  lemma OtherPrefix(line: string, i: nat)
    requires i < |LENGTH_PREFIX| && i < |line| && line[i] != LENGTH_PREFIX[i]
    ensures !(LENGTH_PREFIX <= line)
  {
  }

  lemma LengthFieldReadsBack(n: nat, more: seq<string>)
    ensures ContentLength([LENGTH_PREFIX + Text(n)] + more) == Some(n)
  {
    var line := LENGTH_PREFIX + Text(n);
    assert line[|LENGTH_PREFIX|..] == Text(n);
    TextRoundTrip(n);
  }

  lemma SkipLine(line: string, more: seq<string>)
    requires !(LENGTH_PREFIX <= line)
    ensures ContentLength([line] + more) == ContentLength(more)
  {
    assert ([line] + more)[1..] == more;
  }

  lemma ContentLengthOf(r: Response)
    ensures ContentLength(HeaderLines(r)) == if r.close then None else Some(|r.body|)
  {
    var status, ctype := "HTTP/1.1 " + Text(r.code) + " " + r.message, "Content-type: " + r.contentType;
    var server := "Server: " + SERVER_NAME;
    OtherPrefix(status, 0);
    if r.close {
      OtherPrefix(ctype, 8);
      OtherPrefix(server, 0);
      OtherPrefix("Connection: close", 3);
      assert HeaderLines(r) == [status] + (["Connection: close"] + ([ctype] + ([server] + [])));
      SkipLine(status, ["Connection: close"] + ([ctype] + ([server] + [])));
      SkipLine("Connection: close", [ctype] + ([server] + []));
      SkipLine(ctype, [server] + []);
      SkipLine(server, []);
    } else {
      var more := ["Connection: Keep-Alive", ctype, server];
      assert HeaderLines(r) == [status] + ([LENGTH_PREFIX + Text(|r.body|)] + more);
      SkipLine(status, [LENGTH_PREFIX + Text(|r.body|)] + more);
      LengthFieldReadsBack(|r.body|, more);
    }
  }

  function Bodies(rs: seq<Response>): (bodies: seq<string>) {
    if rs == [] then [] else [rs[0].body] + Bodies(rs[1..])
  }

  /** Keep-alive responses, of which only the last may close. */
  predicate Session(rs: seq<Response>) {
    && (forall i :: 0 <= i < |rs| ==> Wellformed(rs[i]))
    && (forall i :: 0 <= i < |rs| - 1 ==> !rs[i].close)
  }

  lemma HeadOfStream(r: Response, more: string)
    requires Wellformed(r)
    ensures ReadHead(Rendered(r) + more) == Some(Head(HeaderLines(r), r.body + more))
  {
    HeaderLinesAreGood(r);
    ReadHeadOf(HeaderLines(r), r.body + more);
    assert Rendered(r) + more == JoinLines(HeaderLines(r)) + (CRLF + (r.body + more));
  }

  lemma ReadOneBody(r: Response, more: string)
    requires Wellformed(r)
    ensures ReadBodies(Rendered(r) + more) ==
            if r.close then Some([r.body + more])
            else if ReadBodies(more).None? then None
            else Some([r.body] + ReadBodies(more).value)
  {
    var s, rest := Rendered(r) + more, r.body + more;
    HeadOfStream(r, more);
    ContentLengthOf(r);
    assert s != "";
    assert rest[..|r.body|] == r.body && rest[|r.body|..] == more;
  }

  /** The reader recovers every body of a session, whatever bytes the bodies hold. */
  lemma {:induction false} ResponseFraming(rs: seq<Response>)
    requires Session(rs)
    ensures ReadBodies(Stream(rs)) == Some(Bodies(rs))
  {
    if rs == [] {
    } else {
      var r := rs[0];
      ReadOneBody(r, Stream(rs[1..]));
      if r.close {
        assert rs[1..] == [] && r.body + "" == r.body;
        assert Bodies([]) == [] && [r.body] + [] == [r.body];
      } else {
        ResponseFraming(rs[1..]);
      }
    }
  }

  // ----- What else a reader finds in the head -----

  /** Status code and reason of a status line. */
  datatype Status = Status(code: int, reason: string)

  const STATUS_PREFIX := "HTTP/1.1 "

  function StatusOf(line: string): (s: Option<Status>) {
    if !(STATUS_PREFIX <= line) then None
    else
      var rest := line[|STATUS_PREFIX|..];
      var sp := HttpRequests.Find(rest, ' ');
      var code := Parse(rest[..sp]);
      if sp == |rest| || !code.Number? then None else Some(Status(code.value, rest[sp + 1..]))
  }

  /** The value of the first field with this name. */
  function Field(lines: seq<string>, name: string): (v: Option<string>) {
    if lines == [] then None
    else if name + ": " <= lines[0] then Some(lines[0][|name| + 2..])
    else Field(lines[1..], name)
  }

  lemma StatusReadsBack(code: nat, reason: string)
    ensures StatusOf("HTTP/1.1 " + Text(code) + " " + reason) == Some(Status(code, reason))
  {
    var line := "HTTP/1.1 " + Text(code) + " " + reason;
    assert line == STATUS_PREFIX + (Text(code) + [' '] + reason);
    assert line[|STATUS_PREFIX|..] == Text(code) + [' '] + reason;
    NatTextIsCanonical(code);
    TextRoundTrip(code);
    HttpRequests.FindSplit(Text(code), ' ', reason);
  }

  lemma FieldFound(name: string, value: string, more: seq<string>)
    ensures Field([name + ": " + value] + more, name) == Some(value)
  {
    var line := name + ": " + value;
    assert line[..|name| + 2] == name + ": ";
  }

  lemma FieldSkipped(line: string, more: seq<string>, name: string, i: nat)
    requires i < |line| && i < |name| + 2 && line[i] != (name + ": ")[i]
    ensures Field([line] + more, name) == Field(more, name)
  {
    assert ([line] + more)[1..] == more;
  }

  /** The fields behind the status line. */
  lemma TypeAndServer(r: Response, name: string)
    requires name == "Content-type" || name == "Server"
    ensures Field(["Content-type: " + r.contentType, "Server: " + SERVER_NAME], name) ==
            Some(if name == "Server" then SERVER_NAME else r.contentType)
  {
    var ctype, server := "Content-type: " + r.contentType, "Server: " + SERVER_NAME;
    assert [ctype, server] == [ctype] + [server];
    if name == "Server" {
      FieldSkipped(ctype, [server], name, 0);
      assert server == name + ": " + SERVER_NAME && [server] == [server] + [];
      FieldFound(name, SERVER_NAME, []);
    } else {
      assert ctype == name + ": " + r.contentType;
      FieldFound(name, r.contentType, [server]);
    }
  }

  /** A line that starts like neither of the two names. */
  predicate OtherLine(line: string) {
    |line| > 9 && line[0] != 'S' && (line[0] != 'C' || line[3] != 't' || line[8] != 't')
  }

  lemma SkipOther(line: string, more: seq<string>, name: string)
    requires OtherLine(line) && (name == "Content-type" || name == "Server")
    ensures Field([line] + more, name) == Field(more, name)
  {
    FieldSkipped(line, more, name,
                 if name == "Server" || line[0] != 'C' then 0 else if line[3] != 't' then 3 else 8);
  }

  lemma SkipAll(lines: seq<string>, last: seq<string>, name: string)
    requires (forall i :: 0 <= i < |lines| ==> OtherLine(lines[i])) && (name == "Content-type" || name == "Server")
    ensures Field(lines + last, name) == Field(last, name)
  {
    if lines == [] {
      assert lines + last == last;
    } else {
      SkipAll(lines[1..], last, name);
      assert lines + last == [lines[0]] + (lines[1..] + last);
      SkipOther(lines[0], lines[1..] + last, name);
    }
  }

  lemma HeaderFields(r: Response, name: string)
    requires name == "Content-type" || name == "Server"
    ensures Field(HeaderLines(r), name) == Some(if name == "Server" then SERVER_NAME else r.contentType)
  {
    var last := ["Content-type: " + r.contentType, "Server: " + SERVER_NAME];
    var n := |HeaderLines(r)| - 2;
    TypeAndServer(r, name);
    SkipAll(HeaderLines(r)[..n], last, name);
    assert HeaderLines(r) == HeaderLines(r)[..n] + last;
  }

  lemma ConnectionField(r: Response)
    ensures Field(HeaderLines(r), "Connection") == Some(if r.close then "close" else "Keep-Alive")
  {
    var status := "HTTP/1.1 " + Text(r.code) + " " + r.message;
    var last := ["Content-type: " + r.contentType, "Server: " + SERVER_NAME];
    if r.close {
      assert "Connection" + ": " + "close" == "Connection: close";
      assert HeaderLines(r) == [status] + (["Connection: close"] + last);
      FieldSkipped(status, ["Connection: close"] + last, "Connection", 0);
      FieldFound("Connection", "close", last);
    } else {
      var length := "Content-length: " + Text(|r.body|);
      assert "Connection" + ": " + "Keep-Alive" == "Connection: Keep-Alive";
      var kept := ["Connection: Keep-Alive"] + last;
      assert HeaderLines(r) == [status] + ([length] + kept);
      FieldSkipped(status, [length] + kept, "Connection", 0);
      FieldSkipped(length, kept, "Connection", 3);
      FieldFound("Connection", "Keep-Alive", last);
    }
  }

  /** A reader of the head recovers status code, reason, content type, server and whether the connection
      stays open; what follows the head is the body. */
  lemma HeadReadsBack(r: Response, more: string)
    requires Wellformed(r)
    ensures var h := ReadHead(Rendered(r) + more);
            && h.Some? && h.value.rest == r.body + more && h.value.lines != []
            && StatusOf(h.value.lines[0]) == Some(Status(r.code, r.message))
            && Field(h.value.lines, "Content-type") == Some(r.contentType)
            && Field(h.value.lines, "Server") == Some("Ymirth server")
            && Field(h.value.lines, "Connection") == Some(if r.close then "close" else "Keep-Alive")
  {
    HeadOfStream(r, more);
    StatusReadsBack(r.code, r.message);
    HeaderFields(r, "Content-type");
    HeaderFields(r, "Server");
    ConnectionField(r);
  }

  lemma {:induction false} JoinLinesSnoc(lines: seq<string>, line: string)
    ensures JoinLines(lines + [line]) == JoinLines(lines) + (line + CRLF)
  {
    if lines == [] {
      assert [line][1..] == [];
      assert [] + [line] == [line];
    } else {
      JoinLinesSnoc(lines[1..], line);
      assert (lines + [line])[1..] == lines[1..] + [line];
    }
  }

  /** The unread bytes are `text`, unless the buffer was not safe to begin with. */
  ghost predicate Holds(buffer: Buffer, safe: bool, text: string)
    reads buffer
  {
    buffer.Valid() && (safe ==> buffer.readIndex <= PREPEND && buffer.V().View() == text)
  }

  method AppendText(buffer: Buffer, msg: string, ghost safe: bool, ghost text: string)
    requires Holds(buffer, safe, text)
    modifies buffer
    ensures Holds(buffer, safe, text + msg)
  {
    buffer.Append(msg);
  }

  method AppendLine(buffer: Buffer, line: string, ghost safe: bool, ghost before: string, ghost lines: seq<string>)
    requires Holds(buffer, safe, before + JoinLines(lines))
    modifies buffer
    ensures Holds(buffer, safe, before + JoinLines(lines + [line]))
  {
    JoinLinesSnoc(lines, line);
    AppendText(buffer, line + CRLF, safe, before + JoinLines(lines));
    assert before + JoinLines(lines) + (line + CRLF) == before + (JoinLines(lines) + (line + CRLF));
  }

  method AppendHeaderLines(r: Response, buffer: Buffer, ghost safe: bool, ghost before: string)
    requires Holds(buffer, safe, before)
    modifies buffer
    ensures Holds(buffer, safe, before + JoinLines(HeaderLines(r)))
  {
    var status := "HTTP/1.1 " + Text(r.code) + " " + r.message;
    assert before + JoinLines([]) == before;
    AppendLine(buffer, status, safe, before, []);
    ghost var done := [] + [status];
    if r.close {
      AppendLine(buffer, "Connection: close", safe, before, done);
      done := done + ["Connection: close"];
    } else {
      AppendLine(buffer, "Content-length: " + Text(|r.body|), safe, before, done);
      done := done + ["Content-length: " + Text(|r.body|)];
      AppendLine(buffer, "Connection: Keep-Alive", safe, before, done);
      done := done + ["Connection: Keep-Alive"];
    }
    AppendLine(buffer, "Content-type: " + r.contentType, safe, before, done);
    done := done + ["Content-type: " + r.contentType];
    AppendLine(buffer, "Server: " + SERVER_NAME, safe, before, done);
    assert done + ["Server: " + SERVER_NAME] == HeaderLines(r);
  }

  /** appendToBuffer, step by step. The response is built in a new buffer, which has nothing to
      compact; a buffer whose read index has moved past the prepend area may lose bytes. */
  method AppendToBuffer(r: Response, buffer: Buffer)
    requires buffer.Valid()
    modifies buffer
    ensures buffer.Valid()
    ensures old(buffer.readIndex) <= PREPEND ==>
              buffer.V().View() == old(buffer.V().View()) + Rendered(r)
  {
    ghost var safe, before := buffer.readIndex <= PREPEND, buffer.V().View();
    AppendHeaderLines(r, buffer, safe, before);
    ghost var head := before + JoinLines(HeaderLines(r));
    AppendText(buffer, CRLF, safe, head);
    AppendText(buffer, r.body, safe, head + CRLF);
    assert head + CRLF + r.body == before + Rendered(r);
  }
}
