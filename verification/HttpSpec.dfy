/**
 The request line and the header fields, as the web server's parser reads them:
 C strings, case ignored where the source ignores it.

 A request with a nonzero Content-length stops at `BodyPending`: bodies are not
 modelled.
 */
module HttpSpec {
  import opened Bytes
  import opened HttpFraming

  datatype CheckState = RequestLine | Header

  datatype Request = Request(
    state: CheckState,
    url: Option<string>,
    host: Option<string>,
    linger: bool,
    length: int)   // m_content_length

  function Initial(): Cursor<Request> { Cursor(0, 0, Request(RequestLine, None, None, false, 0)) }

  const NUL: char := '\0'

  // The bytes before the first NUL: a line as the C string the parsers read.
  function CString(s: string): (t: string)
    ensures |t| <= |s| && t == s[..|t|] && (|t| < |s| ==> s[|t|] == NUL)
    ensures forall i :: 0 <= i < |t| ==> t[i] != NUL
  {
    if s == [] || s[0] == NUL then [] else [s[0]] + CString(s[1..])
  }

  function LowerChar(c: char): char {
    if 'A' <= c <= 'Z' then c - 'A' + 'a' else c
  }

  function Lower(s: string): (t: string)
    ensures |t| == |s| && forall i :: 0 <= i < |s| ==> t[i] == LowerChar(s[i])
  {
    seq(|s|, i requires 0 <= i < |s| => LowerChar(s[i]))
  }

  predicate IsBlank(c: char) { c == ' ' || c == '\t' }

  // strncasecmp(s, word, |word|) == 0, for a lower-case `word`.
  predicate StartsWith(s: string, word: string) {
    |word| <= |s| && Lower(s[..|word|]) == word
  }

  // strpbrk(s, " \t"), as an index; |s| when there is none.
  function FirstBlank(s: string): (i: nat)
    ensures i <= |s| && (i < |s| ==> IsBlank(s[i])) && forall j :: 0 <= j < i ==> !IsBlank(s[j])
  {
    if s == [] || IsBlank(s[0]) then 0 else 1 + FirstBlank(s[1..])
  }

  // strchr(s, '/'), as an index; |s| when there is none.
  function FirstSlash(s: string): (i: nat)
    ensures i <= |s| && (i < |s| ==> s[i] == '/') && forall j :: 0 <= j < i ==> s[j] != '/'
  {
    if s == [] || s[0] == '/' then 0 else 1 + FirstSlash(s[1..])
  }

  // strspn(s, " \t")
  function LeadingBlanks(s: string): (i: nat)
    ensures i <= |s| && (i < |s| ==> !IsBlank(s[i])) && forall j :: 0 <= j < i ==> IsBlank(s[j])
  {
    if s == [] || !IsBlank(s[0]) then 0 else 1 + LeadingBlanks(s[1..])
  }

  // ----- atol into an int -----

  predicate IsSpace(c: char) { c == ' ' || '\t' <= c <= '\r' }

  predicate IsDigit(c: char) { '0' <= c <= '9' }

  function Digits(s: string, value: nat): nat
    decreases s
  {
    if s == [] || !IsDigit(s[0]) then value else Digits(s[1..], 10 * value + (s[0] - '0') as nat)
  }

  const LONG_MAX: int := 0x7fff_ffff_ffff_ffff

  // strtol saturates at the ends of a 64-bit long.
  function Atol(s: string): int {
    if s == [] then 0
    else if IsSpace(s[0]) then Atol(s[1..])
    else if s[0] == '-' then Max(-LONG_MAX - 1, -(Digits(s[1..], 0) as int))
    else if s[0] == '+' then Min(LONG_MAX, Digits(s[1..], 0))
    else Min(LONG_MAX, Digits(s, 0))
  }

  // The assignment of a long to the int m_content_length keeps the low 32 bits.
  function ToInt32(n: int): int {
    var low := n % 0x1_0000_0000;
    if low < 0x8000_0000 then low else low - 0x1_0000_0000
  }

  // ----- One line -----

  // prase_request_line: the path it recovers, or none for a bad request.
  function ParseRequestLine(text: string): Option<string> {
    var i := FirstBlank(text);
    if i == |text| || Lower(text[..i]) != "get" then None
    else
      var rest := text[i + 1..];
      var j := FirstBlank(rest);
      if j == |rest| || Lower(rest[j + 1..]) != "http/1.1" then None
      else ParseTarget(rest[..j])
  }

  function ParseTarget(target: string): Option<string> {
    var path := if StartsWith(target, "http://") then target[7..][FirstSlash(target[7..])..] else target;
    if path == [] || path[0] != '/' then None else Some(path)
  }

  function HeaderValue(text: string, name: nat): string
    requires name <= |text|
  {
    text[name..][LeadingBlanks(text[name..])..]
  }

  // prase_headers on a line that is not empty.
  function ParseHeader(p: Request, text: string): Request {
    if StartsWith(text, "connection:") then
      if Lower(HeaderValue(text, 11)) == "keep-alive" then p.(linger := true) else p
    else if StartsWith(text, "content-length:") then p.(length := ToInt32(Atol(HeaderValue(text, 15))))
    else if StartsWith(text, "host:") then p.(host := Some(HeaderValue(text, 5)))
    else p
  }

  function ParseText(p: Request, line: string): (Verdict, Request) {
    var text := CString(line);
    match p.state
    case RequestLine =>
      (match ParseRequestLine(text)
       case None => (BadRequest, p)
       case Some(path) => (NoRequest, p.(url := Some(path), state := Header)))
    case Header =>
      if text != [] then (NoRequest, ParseHeader(p, text))
      else if p.length != 0 then (BodyPending, p)
      else (GetRequest, p)
  }

  // ----- How the bytes are cut does not matter -----

  // For every byte stream and every way of cutting it into reads, the first verdict and all
  // that was recovered are those of a single read of the whole.
  lemma ChunkIndependence(s: string, chunks: seq<string>)
    requires Concat(chunks) == s && chunks != []
    ensures Feed(ParseText, Initial(), "", chunks) == Process(ParseText, Initial(), s)
  {
    FeedIsProcess(ParseText, Initial(), "", chunks);
    assert "" + Concat(chunks) == s;
  }
}
