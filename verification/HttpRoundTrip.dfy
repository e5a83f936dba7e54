/** Printing a request and parsing it back: what Http/httprequestparser.cpp and Http/httprequest.cpp
    owe to sections 3 and 5 of RFC 9112. */
module HttpRoundTrip {
  import opened Lines
  import opened HttpRequests
  import opened HttpParsers

  function Target(r: Request): (t: string) {
    r.path + if r.query == "" then "" else "?" + r.query
  }

  function PrintedRequestLine(r: Request): (s: string)
    requires r.method_ != InvalidMethod && r.version != InvalidVersion
  {
    MethodText(r.method_) + " " + (Target(r) + " " + VersionText(r.version))
  }

  function PrintedHeader(name: string, value: string): (s: string) {
    name + ": " + value
  }

  function PrintedHeaders(headers: map<string, string>, order: seq<string>): (s: string)
    requires forall i :: 0 <= i < |order| ==> order[i] in headers
  {
    if order == [] then ""
    else PrintedHeader(order[0], headers[order[0]]) + CRLF + PrintedHeaders(headers, order[1..])
  }

  /** The whole request, its header fields in the given order. */
  function Printed(r: Request, order: seq<string>): (s: string)
    requires Printable(r) && (forall i :: 0 <= i < |order| ==> order[i] in r.headers)
  {
    PrintedRequestLine(r) + CRLF + (PrintedHeaders(r.headers, order) + (CRLF + ""))
  }

  predicate PrintableField(name: string, value: string) {
    ':' !in name && NoCRLF(name) && NoCRLF(value) && Trimmed(value)
  }

  /** The delimiters of each part do not occur in it. */
  predicate Printable(r: Request) {
    && r.method_ != InvalidMethod && r.version != InvalidVersion
    && ' ' !in r.path && '?' !in r.path && NoCRLF(r.path)
    && ' ' !in r.query && NoCRLF(r.query)
    && (forall name | name in r.headers :: PrintableField(name, r.headers[name]))
    && r.post == map[]
  }

  lemma TargetParses(r: Request, s: Request)
    requires Printable(r) && s.query == ""
    ensures ' ' !in Target(r) && NoCRLF(Target(r))
    ensures WithTarget(s, Target(r)) == s.(path := r.path, query := r.query)
  {
    var t := Target(r);
    if r.query == "" {
      assert t == r.path;
      FindAbsent(t, '?');
    } else {
      assert t == r.path + ['?'] + r.query;
      FindSplit(r.path, '?', r.query);
      NoCRLFConcat("?", r.query);
      NoCRLFConcat(r.path, "?" + r.query);
    }
  }

  lemma PrintedLineHasNoCRLF(r: Request)
    requires Printable(r)
    ensures NoCRLF(PrintedRequestLine(r))
  {
    var m, t, v := MethodText(r.method_), Target(r), VersionText(r.version);
    TargetParses(r, FRESH_REQUEST);
    NoCRLFConcat(t, " ");
    NoCRLFConcat(t + " ", v);
    NoCRLFConcat(m, " ");
    NoCRLFConcat(m + " ", t + " " + v);
  }

  lemma PrintedLineParses(r: Request)
    requires Printable(r)
    ensures RequestLine(FRESH_REQUEST, PrintedRequestLine(r)) == LineResult(true, r.(headers := map[]))
  {
    var m, t, v := MethodText(r.method_), Target(r), VersionText(r.version);
    TargetParses(r, FRESH_REQUEST.(method_ := r.method_));
    VersionTextReadsBack(r.version);
    RequestLineAccepted(FRESH_REQUEST, PrintedRequestLine(r), m, t, v);
  }

  lemma TrimPrinted(value: string)
    requires Trimmed(value)
    ensures Trim(" " + value) == value
  {
    assert (" " + value)[1..] == value;
    assert TrimLeft(" " + value) == TrimLeft(value);
  }

  lemma PrintedHeaderParses(p: Parser, name: string, value: string)
    requires p.state == ParseHeader && PrintableField(name, value)
    ensures NoCRLF(PrintedHeader(name, value))
    ensures Step(p, PrintedHeader(name, value)) ==
            StepResult(p.(request := p.request.(headers := p.request.headers[name := value])), false)
  {
    var line := PrintedHeader(name, value);
    NoCRLFConcat(name, ": ");
    NoCRLFConcat(name + ": ", value);
    assert line == name + [':'] + (" " + value);
    FindSplit(name, ':', " " + value);
    TrimPrinted(value);
  }

  /** The header map after the fields of order have been added, in order. */
  function Updated(acc: map<string, string>, headers: map<string, string>, order: seq<string>)
    : (m: map<string, string>)
    requires forall i :: 0 <= i < |order| ==> order[i] in headers
    decreases |order|
  {
    if order == [] then acc else Updated(acc[order[0] := headers[order[0]]], headers, order[1..])
  }

  lemma {:induction false} PrintedHeadersParse(
      p: Parser, headers: map<string, string>, order: seq<string>, rest: string)
    requires p.state == ParseHeader
    requires forall i :: 0 <= i < |order| ==> order[i] in headers
    requires forall name | name in headers :: PrintableField(name, headers[name])
    ensures Parse(p, PrintedHeaders(headers, order) + rest) ==
            Parse(p.(request := p.request.(headers := Updated(p.request.headers, headers, order))), rest)
    decreases |order|
  {
    if order == [] {
      assert "" + rest == rest;
    } else {
      var name, value := order[0], headers[order[0]];
      var more := PrintedHeaders(headers, order[1..]);
      PrintedHeaderParses(p, name, value);
      ParseLine(p, PrintedHeader(name, value), more + rest);
      assert PrintedHeaders(headers, order) + rest == PrintedHeader(name, value) + CRLF + (more + rest);
      PrintedHeadersParse(Step(p, PrintedHeader(name, value)).parser, headers, order[1..], rest);
    }
  }

  /** order lists every header field; a name may be listed more than once. */
  predicate Lists(order: seq<string>, headers: map<string, string>) {
    && (forall i :: 0 <= i < |order| ==> order[i] in headers)
    && (forall name | name in headers :: name in order)
  }

  lemma {:induction false} UpdatedIs(acc: map<string, string>, headers: map<string, string>, order: seq<string>)
    requires forall i :: 0 <= i < |order| ==> order[i] in headers
    requires forall name | name in acc :: name in headers && acc[name] == headers[name]
    requires forall name | name in headers :: name in acc || name in order
    ensures Updated(acc, headers, order) == headers
    decreases |order|
  {
    if order == [] {
    } else {
      var next := acc[order[0] := headers[order[0]]];
      forall name | name in headers
        ensures name in next || name in order[1..]
      {
        assert name in order ==> name == order[0] || name in order[1..];
      }
      UpdatedIs(next, headers, order[1..]);
    }
  }

  /** Printing any printable request, its fields in any order, and parsing the text from a fresh
      parser gives the request back, complete, with nothing left over. */
  lemma RequestRoundTrip(r: Request, order: seq<string>)
    requires Printable(r) && Lists(order, r.headers)
    ensures Parse(FRESH_PARSER, Printed(r, order)) == Feed(Parser(GotCompleteRequest, r), "")
  {
    var line := PrintedRequestLine(r);
    var rest := PrintedHeaders(r.headers, order) + (CRLF + "");
    PrintedLineHasNoCRLF(r);
    ParseLine(FRESH_PARSER, line, rest);
    PrintedLineParses(r);
    var p1 := Parser(ParseHeader, r.(headers := map[]));
    assert Step(FRESH_PARSER, line) == StepResult(p1, false);
    assert Parse(FRESH_PARSER, Printed(r, order)) == Parse(p1, rest);
    PrintedHeadersParse(p1, r.headers, order, CRLF + "");
    UpdatedIs(map[], r.headers, order);
    EmptyLineCompletes(Parser(ParseHeader, r));
  }

  lemma EmptyLineCompletes(p: Parser)
    requires p.state == ParseHeader
    ensures Parse(p, CRLF + "") == Feed(p.(state := GotCompleteRequest), "")
  {
    ParseLine(p, "", "");
    assert "" + CRLF + "" == CRLF + "";
  }

  /** The same, however the network cuts the text. */
  lemma ChunkedRequestRoundTrip(r: Request, order: seq<string>, chunks: seq<string>)
    requires Printable(r) && Lists(order, r.headers)
    requires Concat(chunks) == Printed(r, order)
    ensures FeedAll(Feed(FRESH_PARSER, ""), chunks) == Feed(Parser(GotCompleteRequest, r), "")
  {
    RequestRoundTrip(r, order);
    ChunkingIndependence(chunks);
  }
}
