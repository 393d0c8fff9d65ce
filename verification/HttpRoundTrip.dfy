/**
 Printing a GET request and parsing what was printed gives the request back.
 */
module HttpRoundTrip {
  import opened Bytes
  import opened HttpFraming
  import opened HttpLines
  import opened HttpSpec
  import opened HttpMessages
  import opened Decimals
  import HttpNumbers

  const GET: string := "GET"
  const VERSION: string := "HTTP/1.1"
  const HTTP: string := "http://"
  const HOST: string := "Host:"
  const CONNECTION: string := "Connection:"
  const KEEP_ALIVE: string := "keep-alive"
  const CONTENT_LENGTH: string := "Content-length:"

  predicate Plain(s: string) { forall i :: 0 <= i < |s| ==> s[i] != NUL && s[i] != '\n' }

  function PrintTarget(path: string, authority: Option<string>): string {
    match authority
    case None => path
    case Some(a) => HTTP + (a + path)
  }

  function PrintRequestLine(target: string): string {
    GET + [' '] + target + [' '] + VERSION
  }

  function PrintHeader(name: string, value: string): string { name + ([' '] + value) }

  function PrintHeaders(host: string, keepAlive: bool, length: Option<nat>): seq<string> {
    [PrintHeader(HOST, host)]
    + (if keepAlive then [PrintHeader(CONNECTION, KEEP_ALIVE)] else [])
    + match length
      case None => []
      case Some(n) => [PrintHeader(CONTENT_LENGTH, Decimal(n))]
  }

  function PrintMessage(path: string, authority: Option<string>, host: string, keepAlive: bool, length: Option<nat>): Message {
    Message(PrintRequestLine(PrintTarget(path, authority)), PrintHeaders(host, keepAlive, length), "")
  }

  function Print(path: string, authority: Option<string>, host: string, keepAlive: bool, length: Option<nat>): string {
    Joined(PrintMessage(path, authority, host, keepAlive, length).Lines())
  }

  lemma {:induction false} PlainCString(s: string)
    requires Plain(s)
    ensures CString(s) == s
  {
    assert |CString(s)| == |s|;
  }

  // ----- The request line -----

  lemma PrintedTarget(path: string, authority: Option<string>)
    requires path != "" && path[0] == '/' && NoBlank(path)
    requires authority.Some? ==> '/' !in authority.value && NoBlank(authority.value)
    ensures var target := PrintTarget(path, authority); IsTarget(target, path) && NoBlank(target)
  {
    match authority {
      case Some(a) => AbsoluteTarget(a, path);
      case None => assert |path| >= 7 ==> path[..7][0] == '/';
    }
  }

  lemma AbsoluteTarget(a: string, path: string)
    requires path != "" && path[0] == '/' && NoBlank(path) && '/' !in a && NoBlank(a)
    ensures var target := HTTP + (a + path); IsTarget(target, path) && NoBlank(target)
  {
    var target := HTTP + (a + path);
    assert target[..7] == HTTP && target[7..] == a + path;
    assert SameWord(HTTP, HTTP) && NoBlank(HTTP);
  }

  lemma PrintedRequestLine(target: string, path: string)
    requires IsTarget(target, path) && NoBlank(target)
    ensures IsRequestLine(PrintRequestLine(target), path)
  {
    assert SameWord(GET, "get") && NoBlank(GET) && SameWord(VERSION, "http/1.1") && AllBlank([' ', ' ']);
    assert Fields(PrintRequestLine(target), GET, ' ', target, ' ', VERSION);
  }

  // ----- Header fields -----

  lemma PrintedName(name: string, lower: string, value: string)
    requires Lower(name) == lower && Plain(name) && Plain(value)
    ensures var line := PrintHeader(name, value); Plain(line) && CString(line) == line && StartsWith(line, lower)
  {
    var line := PrintHeader(name, value);
    assert Plain(line);
    PlainCString(line);
    assert line[..|name|] == name;
  }

  lemma PrintedValue(name: string, value: string)
    requires value == "" || !IsBlank(value[0])
    ensures HeaderValue(PrintHeader(name, value), |name|) == value
  {
    var t := [' '] + value;
    assert PrintHeader(name, value)[|name|..] == t;
    assert t[1..] == value && LeadingBlanks(t) == 1;
  }

  lemma PrintedHeader(name: string, lower: string, value: string)
    requires Lower(name) == lower && Plain(name) && Plain(value)
    requires value == "" || !IsBlank(value[0])
    ensures var line := PrintHeader(name, value);
            Plain(line) && line != "" && CString(line) == line
            && Named(line, lower) && HeaderValue(CString(line), |name|) == value
  {
    PrintedName(name, lower, value);
    PrintedValue(name, value);
    PlainCString(PrintHeader(name, value));
  }

  lemma PrintedHost(host: string)
    requires Plain(host) && (host == "" || !IsBlank(host[0]))
    ensures var line := PrintHeader(HOST, host);
            && Plain(line) && line != "" && CString(line) == line
            && Named(line, "host:") && HeaderValue(CString(line), 5) == host
            && !SaysKeepAlive(line) && !Named(line, "content-length:")
  {
    assert Lower(HOST) == "host:" && Plain(HOST);
    PrintedHeader(HOST, "host:", host);
    PrefixesDiffer(CString(PrintHeader(HOST, host)));
  }

  lemma PrintedKeepAlive()
    ensures var line := PrintHeader(CONNECTION, KEEP_ALIVE);
            && Plain(line) && line != "" && CString(line) == line
            && SaysKeepAlive(line) && !Named(line, "host:") && !Named(line, "content-length:")
  {
    assert Lower(CONNECTION) == "connection:" && Plain(CONNECTION) && Plain(KEEP_ALIVE);
    assert Lower(KEEP_ALIVE) == KEEP_ALIVE;
    PrintedHeader(CONNECTION, "connection:", KEEP_ALIVE);
    PrefixesDiffer(CString(PrintHeader(CONNECTION, KEEP_ALIVE)));
  }

  lemma PrintedLength(n: nat)
    ensures var line := PrintHeader(CONTENT_LENGTH, Decimal(n));
            && Plain(line) && line != "" && CString(line) == line
            && Named(line, "content-length:") && HeaderValue(CString(line), 15) == Decimal(n)
            && !Named(line, "host:") && !SaysKeepAlive(line)
  {
    hide Decimal;
    assert Lower(CONTENT_LENGTH) == "content-length:" && Plain(CONTENT_LENGTH);
    assert '0' <= Decimal(n)[0] <= '9';
    PrintedHeader(CONTENT_LENGTH, "content-length:", Decimal(n));
    PrefixesDiffer(CString(PrintHeader(CONTENT_LENGTH, Decimal(n))));
  }

  // The first headers, with one more or without.
  lemma OneMore(headers: seq<string>, line: string)
    ensures LastValue(headers + [line], "host:")
            == if Named(line, "host:") then Some(HeaderValue(CString(line), 5)) else LastValue(headers, "host:")
    ensures LastValue(headers + [line], "content-length:")
            == if Named(line, "content-length:") then Some(HeaderValue(CString(line), 15))
               else LastValue(headers, "content-length:")
    ensures KeepAlive(headers + [line]) <==> KeepAlive(headers) || SaysKeepAlive(line)
  {
    hide CString, Named, HeaderValue, SaysKeepAlive, LastValue;
    LastValueGrows(headers, line, "host:");
    LastValueGrows(headers, line, "content-length:");
    KeepAliveGrows(headers, line);
  }

  lemma PrintedHeaders(host: string, keepAlive: bool, length: Option<nat>)
    requires Plain(host) && (host == "" || !IsBlank(host[0]))
    ensures var headers := PrintHeaders(host, keepAlive, length);
            && LastValue(headers, "host:") == Some(host)
            && (KeepAlive(headers) <==> keepAlive)
            && LastValue(headers, "content-length:") == (if length.Some? then Some(Decimal(length.value)) else None)
            && forall i :: 0 <= i < |headers| ==> Plain(headers[i]) && CString(headers[i]) != ""
  {
    hide CString, Named, HeaderValue, SaysKeepAlive, PrintHeader, Lower, Decimal;
    var first := PrintHeader(HOST, host);
    var second := PrintHeader(CONNECTION, KEEP_ALIVE);
    PrintedHost(host);
    PrintedKeepAlive();
    OneMore([], first);
    assert [] + [first] == [first];
    OneMore([first], second);
    var some := [first] + if keepAlive then [second] else [];
    assert !keepAlive ==> some == [first];
    match length {
      case None => assert PrintHeaders(host, keepAlive, length) == some;
      case Some(n) =>
        PrintedLength(n);
        OneMore(some, PrintHeader(CONTENT_LENGTH, Decimal(n)));
    }
  }

  // ----- The round trip -----

  lemma PrintedIsWellFormed(path: string, authority: Option<string>, host: string, keepAlive: bool, length: Option<nat>)
    requires path != "" && path[0] == '/' && NoBlank(path) && Plain(path)
    requires authority.Some? ==> NoBlank(authority.value) && Plain(authority.value) && '/' !in authority.value
    requires Plain(host) && (host == "" || !IsBlank(host[0]))
    ensures WellFormed(PrintMessage(path, authority, host, keepAlive, length), path)
  {
    hide CString, IsRequestLine, Lower, LastValue, KeepAlive, ContentLength, PrintHeaders;
    var m := PrintMessage(path, authority, host, keepAlive, length);
    var target := PrintTarget(path, authority);
    PrintedTarget(path, authority);
    PrintedRequestLine(target, path);
    PrintedHeaders(host, keepAlive, length);
    assert Plain(HTTP) && Plain(GET) && Plain(VERSION) && Plain([' ']);
    assert Plain(target);
    assert Plain(m.requestLine);
    PlainCString(m.requestLine);
  }

  // Whatever follows the printed request, the path, the host, the keep-alive flag and the length
  // come back; a length other than zero leaves the parser waiting for a body.
  lemma RoundTrip(path: string, authority: Option<string>, host: string, keepAlive: bool, length: Option<nat>, rest: string)
    requires path != "" && path[0] == '/' && NoBlank(path) && Plain(path)
    requires authority.Some? ==> NoBlank(authority.value) && Plain(authority.value) && '/' !in authority.value
    requires Plain(host) && (host == "" || !IsBlank(host[0]))
    requires length.Some? ==> length.value <= 2147483647
    ensures var (verdict, q) := Process(ParseText, Initial(), Print(path, authority, host, keepAlive, length) + rest);
            var n := if length.Some? then length.value else 0;
            && verdict == (if n == 0 then GetRequest else BodyPending)
            && q.data == Request(Header, Some(path), Some(host), keepAlive, n)
  {
    hide Process, ParseText, PrintMessage, PrintHeaders, WellFormed, LastValue, KeepAlive, Decimal, Atol, ToInt32;
    PrintedIsWellFormed(path, authority, host, keepAlive, length);
    PrintedHeaders(host, keepAlive, length);
    assert PrintMessage(path, authority, host, keepAlive, length).headers == PrintHeaders(host, keepAlive, length) by {
      HeadersOf(path, authority, host, keepAlive, length);
    }
    if length.Some? {
      HttpNumbers.LengthRead(length.value);
    }
    MessageDecided(PrintMessage(path, authority, host, keepAlive, length), path, rest);
  }

  lemma HeadersOf(path: string, authority: Option<string>, host: string, keepAlive: bool, length: Option<nat>)
    ensures PrintMessage(path, authority, host, keepAlive, length).headers == PrintHeaders(host, keepAlive, length)
  {
  }
}
