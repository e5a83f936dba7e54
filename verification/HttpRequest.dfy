/** Http/httprequest.h and Http/httprequest.cpp: the request line, the header fields, and the
    request object that the parser fills in. */
module HttpRequests {
  import opened Lines

  datatype Method =
    | Get | Post | Head | Put | Delete | Trace | Options | Connect | Patch | InvalidMethod

  datatype Version = Http10 | Http11 | InvalidVersion

  datatype Request = Request(
    method_: Method, version: Version, path: string, query: string,
    headers: map<string, string>, post: map<string, string>)

  const FRESH_REQUEST := Request(InvalidMethod, InvalidVersion, "", "", map[], map[])

  /** std::find: the first index of c, or the length. */
  function Find(s: string, c: char): (i: nat)
    ensures i <= |s|
    ensures i < |s| ==> s[i] == c
    ensures c !in s[..i]
  {
    if s == "" then 0
    else if s[0] == c then 0
    else
      var i := 1 + Find(s[1..], c);
      assert s[..i] == [s[0]] + s[1..][..i - 1];
      i
  }

  lemma FindSplit(a: string, c: char, b: string)
    requires c !in a
    ensures Find(a + [c] + b, c) == |a|
    ensures (a + [c] + b)[..|a|] == a
    ensures (a + [c] + b)[|a| + 1..] == b
  {
    var s := a + [c] + b;
    var i := Find(s, c);
    assert s[|a|] == c && c !in s[..|a|];
    assert !(i > |a|);
  }

  lemma FoundSplit(s: string, c: char)
    requires Find(s, c) < |s|
    ensures s == s[..Find(s, c)] + [c] + s[Find(s, c) + 1..]
  {
  }

  lemma FindAbsent(s: string, c: char)
    ensures Find(s, c) == |s| <==> c !in s
  {
    assert s[..|s|] == s;
  }

  function MethodOf(text: string): (m: Method) {
    if text == "GET" then Get
    else if text == "POST" then Post
    else if text == "HEAD" then Head
    else if text == "PUT" then Put
    else if text == "DELETE" then Delete
    else if text == "TRACE" then Trace
    else if text == "OPTIONS" then Options
    else if text == "CONNECT" then Connect
    else if text == "PATCH" then Patch
    else InvalidMethod
  }

  function MethodText(m: Method): (text: string)
    requires m != InvalidMethod
    ensures MethodOf(text) == m && ' ' !in text && NoCRLF(text)
  {
    match m
    case Get => "GET"
    case Post => "POST"
    case Head => "HEAD"
    case Put => "PUT"
    case Delete => "DELETE"
    case Trace => "TRACE"
    case Options => "OPTIONS"
    case Connect => "CONNECT"
    case Patch => "PATCH"
  }

  const METHOD_NAMES: set<string> :=
    {"GET", "POST", "HEAD", "PUT", "DELETE", "TRACE", "OPTIONS", "CONNECT", "PATCH"}

  /** The nine names, in this spelling, and no other text. */
  lemma MethodExact(text: string)
    ensures MethodOf(text) != InvalidMethod <==> text in METHOD_NAMES
    ensures MethodOf(text) != InvalidMethod ==> text == MethodText(MethodOf(text))
    ensures MethodOf("GET") == Get && MethodOf("POST") == Post && MethodOf("HEAD") == Head
    ensures MethodOf("PUT") == Put && MethodOf("DELETE") == Delete && MethodOf("TRACE") == Trace
    ensures MethodOf("OPTIONS") == Options && MethodOf("CONNECT") == Connect && MethodOf("PATCH") == Patch
  {
  }

  function Lower(c: char): (d: char) {
    if 'A' <= c <= 'Z' then (c as int + 32) as char else c
  }

  predicate EqualIgnoreCase(s: string, t: string) {
    |s| == |t| && forall i :: 0 <= i < |s| ==> Lower(s[i]) == Lower(t[i])
  }

  function VersionOf(text: string): (v: Version) {
    if EqualIgnoreCase(text, "HTTP/1.1") then Http11
    else if EqualIgnoreCase(text, "HTTP/1.0") then Http10
    else InvalidVersion
  }

  function VersionText(v: Version): (text: string)
    requires v != InvalidVersion
    ensures |text| == 8 && text[0] == 'H' && NoCRLF(text)
  {
    if v == Http11 then "HTTP/1.1" else "HTTP/1.0"
  }

  lemma VersionTextReadsBack(v: Version)
    requires v != InvalidVersion
    ensures VersionOf(VersionText(v)) == v
  {
    var s, t := "HTTP/1.0", "HTTP/1.1";
    assert Lower(s[7]) != Lower(t[7]);
    assert !EqualIgnoreCase(s, t);
  }

  /** The version texts, the protocol name in either case, and no other text. */
  predicate IsVersion(text: string, minor: char) {
    && |text| == 8
    && text[0] in {'H', 'h'} && text[1] in {'T', 't'} && text[2] in {'T', 't'} && text[3] in {'P', 'p'}
    && text[4] == '/' && text[5] == '1' && text[6] == '.' && text[7] == minor
  }

  lemma SameTextIgnoringCase(text: string, name: string)
    requires |name| == 8 && name[..4] == "HTTP" && name[4..7] == "/1." && '0' <= name[7] <= '9'
    ensures EqualIgnoreCase(text, name) <==> IsVersion(text, name[7])
  {
    assert name[0] == name[..4][0] == 'H' && name[1] == name[..4][1] == 'T';
    assert name[2] == name[..4][2] == 'T' && name[3] == name[..4][3] == 'P';
    assert name[4] == name[4..7][0] == '/' && name[5] == name[4..7][1] == '1' && name[6] == name[4..7][2] == '.';
    if EqualIgnoreCase(text, name) {
      assert forall i :: 0 <= i < 8 ==> Lower(text[i]) == Lower(name[i]);
    }
  }

  lemma VersionExact(text: string)
    ensures VersionOf(text) == Http11 <==> IsVersion(text, '1')
    ensures VersionOf(text) == Http10 <==> IsVersion(text, '0')
  {
    SameTextIgnoringCase(text, "HTTP/1.1");
    SameTextIgnoringCase(text, "HTTP/1.0");
  }

  datatype LineResult = LineResult(ok: bool, request: Request)

  function WithTarget(r: Request, target: string): (s: Request) {
    var q := Find(target, '?');
    if q < |target| then r.(path := target[..q], query := target[q + 1..])
    else r.(path := target)
  }

  /** The target is cut at the first '?'; without one, the query keeps its value. */
  lemma TargetSplit(r: Request, path: string, query: string)
    requires '?' !in path
    ensures WithTarget(r, path + "?" + query) == r.(path := path, query := query)
    ensures WithTarget(r, path) == r.(path := path)
  {
    assert path + "?" + query == path + ['?'] + query;
    FindSplit(path, '?', query);
    FindAbsent(path, '?');
  }

  /** parseRequestLine: success, and the request with every field assigned on the way, which a
      failing line may leave partly updated. */
  function RequestLine(r: Request, line: string): (res: LineResult) {
    var sp := Find(line, ' ');
    if sp == |line| then LineResult(false, r)
    else
      var r1 := r.(method_ := MethodOf(line[..sp]));
      var rest := line[sp + 1..];
      var sp2 := Find(rest, ' ');
      if r1.method_ == InvalidMethod || sp2 == |rest| then LineResult(false, r1)
      else
        var r2 := WithTarget(r1, rest[..sp2]);
        var v := VersionOf(rest[sp2 + 1..]);
        if v == InvalidVersion then LineResult(false, r2)
        else LineResult(true, r2.(version := v))
  }

  /** The grammar of section 3 of RFC 9112: method SP target SP version. */
  predicate IsRequestLine(line: string, m: string, target: string, version: string) {
    && line == m + " " + (target + " " + version)
    && MethodOf(m) != InvalidMethod
    && ' ' !in m && ' ' !in target
    && VersionOf(version) != InvalidVersion
  }

  lemma RequestLineAccepted(r: Request, line: string, m: string, target: string, version: string)
    requires IsRequestLine(line, m, target, version)
    ensures RequestLine(r, line) ==
            LineResult(true, WithTarget(r.(method_ := MethodOf(m)), target).(version := VersionOf(version)))
  {
    var rest := target + " " + version;
    assert line == m + [' '] + rest && rest == target + [' '] + version;
    FindSplit(m, ' ', rest);
    FindSplit(target, ' ', version);
  }

  lemma AcceptedLineShape(r: Request, line: string) returns (m: string, target: string, version: string)
    requires RequestLine(r, line).ok
    ensures IsRequestLine(line, m, target, version)
  {
    var sp := Find(line, ' ');
    var rest := line[sp + 1..];
    var sp2 := Find(rest, ' ');
    m, target, version := line[..sp], rest[..sp2], rest[sp2 + 1..];
    FoundSplit(line, ' ');
    FoundSplit(rest, ' ');
  }

  /** A line is accepted exactly when it has that shape. */
  lemma RequestLineExact(r: Request, line: string)
    ensures RequestLine(r, line).ok <==>
            exists m, target, version :: IsRequestLine(line, m, target, version)
  {
    if RequestLine(r, line).ok {
      var m, target, version := AcceptedLineShape(r, line);
    } else if m, target, version :| IsRequestLine(line, m, target, version) {
      RequestLineAccepted(r, line, m, target, version);
    }
  }

  /** What a rejected line leaves behind: nothing without a space; the method if that is not one of the
      names or no second space follows; method and target if the version is at fault. */
  lemma RequestLineRejected(r: Request, m: string, target: string, rest: string)
    requires ' ' !in m && ' ' !in target
    ensures RequestLine(r, m) == LineResult(false, r)
    ensures m !in METHOD_NAMES ==> RequestLine(r, m + " " + rest) == LineResult(false, r.(method_ := InvalidMethod))
    ensures RequestLine(r, m + " " + target) == LineResult(false, r.(method_ := MethodOf(m)))
    ensures m in METHOD_NAMES && VersionOf(rest) == InvalidVersion ==>
              RequestLine(r, m + " " + (target + " " + rest)) ==
              LineResult(false, WithTarget(r.(method_ := MethodOf(m)), target))
  {
    MethodExact(m);
    FindAbsent(m, ' ');
    FindAbsent(target, ' ');
    assert forall x: string :: m + " " + x == m + [' '] + x;
    FindSplit(m, ' ', rest);
    FindSplit(m, ' ', target);
    FindSplit(m, ' ', target + " " + rest);
    assert target + " " + rest == target + [' '] + rest;
    FindSplit(target, ' ', rest);
  }

  /** isspace in the C locale. */
  predicate IsSpace(c: char) {
    c == ' ' || 9 <= c as int <= 13
  }

  lemma SpaceExact(c: char)
    ensures IsSpace(c) <==> c in {' ', '\t', '\n', '\r', 11 as char, 12 as char}
  {
  }

  predicate AllSpaces(s: string, lo: nat, hi: nat) {
    forall i :: lo <= i < hi <= |s| ==> IsSpace(s[i])
  }

  predicate Trimmed(s: string) {
    s != "" ==> !IsSpace(s[0]) && !IsSpace(s[|s| - 1])
  }

  /** Where the white space starting at k ends. */
  function SpaceEnd(s: string, k: nat): (e: nat)
    requires k <= |s|
    ensures k <= e <= |s| && AllSpaces(s, k, e)
    ensures e < |s| ==> !IsSpace(s[e])
    decreases |s| - k
  {
    if k < |s| && IsSpace(s[k]) then SpaceEnd(s, k + 1) else k
  }

  /** Where the white space ending at k starts. */
  function SpaceStart(s: string, k: nat): (b: nat)
    requires k <= |s|
    ensures b <= k && AllSpaces(s, b, k)
    ensures b > 0 ==> !IsSpace(s[b - 1])
  {
    if k > 0 && IsSpace(s[k - 1]) then SpaceStart(s, k - 1) else k
  }

  function TrimLeft(s: string): (t: string) { s[SpaceEnd(s, 0)..] }

  function TrimRight(s: string): (t: string) { s[..SpaceStart(s, |s|)] }

  /** t is s from i up to j, with nothing but white space cut off on either side. */
  predicate CutFrom(t: string, s: string, i: nat, j: nat) {
    i <= j <= |s| && t == s[i..j] && AllSpaces(s, 0, i) && AllSpaces(s, j, |s|)
  }

  function Trim(s: string): (t: string)
    ensures Trimmed(t)
  {
    TrimRight(TrimLeft(s))
  }

  /** Trimming cuts off the white space at both ends and nothing else. */
  lemma {:induction false} TrimCuts(s: string)
    ensures CutFrom(Trim(s), s, SpaceEnd(s, 0), SpaceEnd(s, 0) + |Trim(s)|)
  {
    var i := SpaceEnd(s, 0);
    var left := TrimLeft(s);
    var n := SpaceStart(left, |left|);
    forall k | i + n <= k < |s|
      ensures IsSpace(s[k])
    {
      assert s[k] == left[k - i];
    }
  }

  /** t is s without its surrounding white space. */
  ghost predicate IsTrimOf(t: string, s: string) {
    Trimmed(t) && exists i, j :: CutFrom(t, s, i, j)
  }

  /** addHeader: the field name as it stands, the value without surrounding white space. */
  function HeaderAdded(r: Request, line: string, colon: nat): (s: Request)
    requires colon < |line|
  {
    r.(headers := r.headers[line[..colon] := Trim(line[colon + 1..])])
  }

  /** parsePost: each "key=value" found left to right; the key is the text after the last '&'
      before the sign, the value runs to the next '=' or '&'. */
  function PostParsed(post: map<string, string>, body: string): (p: map<string, string>)
    decreases |body|
  {
    var eq := Find(body, '=');
    if eq == |body| then post
    else
      var key := AfterLastAmpersand(body[..eq]);
      var rest := body[eq + 1..];
      var e := if Find(rest, '=') < Find(rest, '&') then Find(rest, '=') else Find(rest, '&');
      PostParsed(post[key := rest[..e]], rest[e..])
  }

  function AfterLastAmpersand(s: string): (t: string) {
    if s == "" || s[|s| - 1] == '&' then "" else AfterLastAmpersand(s[..|s| - 1]) + [s[|s| - 1]]
  }

  method SkipSpaces(line: string, from: nat) returns (start: nat)
    requires from <= |line|
    ensures from <= start <= |line| && line[start..] == TrimLeft(line[from..])
  {
    start := from;
    while start < |line| && IsSpace(line[start])
      invariant from <= start <= |line|
      invariant SpaceEnd(line[from..], 0) == SpaceEnd(line[from..], start - from)
    {
      start := start + 1;
    }
  }

  method DropTrailingSpaces(s: string) returns (value: string)
    ensures value == TrimRight(s)
  {
    value := s;
    while value != "" && IsSpace(value[|value| - 1])
      invariant |value| <= |s| && value == s[..|value|]
      invariant SpaceStart(s, |s|) == SpaceStart(s, |value|)
      decreases |value|
    {
      value := value[..|value| - 1];
    }
  }

  /** The request object, its fields updated in place. */
  class HttpRequest {
    var method_: Method
    var version: Version
    var path: string
    var query: string
    var headers: map<string, string>
    var post: map<string, string>

    ghost function V(): (r: Request)
      reads this
    {
      Request(method_, version, path, query, headers, post)
    }

    constructor ()
      ensures V() == FRESH_REQUEST
    {
      method_, version := InvalidMethod, InvalidVersion;
      path, query := "", "";
      headers, post := map[], map[];
    }

    method ParseRequestLine(line: string) returns (ok: bool)
      modifies this
      ensures LineResult(ok, V()) == RequestLine(old(V()), line)
    {
      var space := Find(line, ' ');
      if space == |line| {
        return false;
      }
      method_ := MethodOf(line[..space]);
      if method_ == InvalidMethod {
        return false;
      }
      var rest := line[space + 1..];
      space := Find(rest, ' ');
      if space == |rest| {
        return false;
      }
      SetTarget(rest[..space]);
      ok := SetVersion(rest[space + 1..]);
    }

    method SetTarget(target: string)
      modifies this`path, this`query
      ensures V() == WithTarget(old(V()), target)
    {
      path := target;
      var q := Find(target, '?');
      if q != |target| {
        path := target[..q];
        query := target[q + 1..];
      } else {
        path := target;
      }
    }

    method SetVersion(text: string) returns (ok: bool)
      modifies this`version
      ensures ok <==> VersionOf(text) != InvalidVersion
      ensures version == if ok then VersionOf(text) else old(version)
    {
      if |text| != 8 {
        return false;
      }
      if EqualIgnoreCase(text, "HTTP/1.1") {
        version := Http11;
      } else if EqualIgnoreCase(text, "HTTP/1.0") {
        version := Http10;
      } else {
        return false;
      }
      return true;
    }

    method AddHeader(line: string, colon: nat)
      requires colon < |line|
      modifies this
      ensures V() == HeaderAdded(old(V()), line, colon)
      ensures line[..colon] in headers && IsTrimOf(headers[line[..colon]], line[colon + 1..])
    {
      TrimCuts(line[colon + 1..]);
      var start := SkipSpaces(line, colon + 1);
      var value := DropTrailingSpaces(line[start..]);
      headers := headers[line[..colon] := value];
    }

    method ParseRequestBody(line: string)
      modifies this
      ensures V() == if old(method_) == Post then old(V()).(post := PostParsed(old(post), line)) else old(V())
    {
      if method_ == Post {
        post := PostParsed(post, line);
      }
    }

    /** Everything but the posted form is exchanged. */
    method Swap(that: HttpRequest)
      requires that != this
      modifies this, that
      ensures V() == old(that.V()).(post := old(post))
      ensures that.V() == old(V()).(post := old(that.post))
    {
      method_, that.method_ := that.method_, method_;
      version, that.version := that.version, version;
      path, that.path := that.path, path;
      query, that.query := that.query, query;
      headers, that.headers := that.headers, headers;
    }
  }
}
