/**
 What the parser accepts, said without a parser: a message is lines ended by CR LF,
 the first a request line, the last empty, header lines between.  The incremental
 machine decides exactly these messages, and printing a request and parsing the
 result gives the request back.
 */
module HttpMessages {
  import opened Bytes
  import opened HttpFraming
  import opened HttpLines
  import opened HttpSpec

  // ----- Words and blanks -----

  // The same word but for the case of its letters.
  predicate SameWord(s: string, word: string) {
    && |s| == |word|
    && forall i :: 0 <= i < |s| ==> s[i] == word[i] || ('a' <= word[i] <= 'z' && s[i] == word[i] - 'a' + 'A')
  }

  lemma LowerIsSameWord(s: string, word: string)
    requires forall i :: 0 <= i < |word| ==> !('A' <= word[i] <= 'Z')
    ensures Lower(s) == word <==> SameWord(s, word)
  {
    if |s| == |word| {
      forall i | 0 <= i < |s|
        ensures Lower(s)[i] == word[i]
                <==> s[i] == word[i] || ('a' <= word[i] <= 'z' && s[i] == word[i] - 'a' + 'A')
      {
      }
    }
  }

  ghost predicate NoBlank(s: string) { forall i :: 0 <= i < |s| ==> s[i] != ' ' && s[i] != '\t' }

  predicate AllBlank(s: string) { forall i :: 0 <= i < |s| ==> s[i] == ' ' || s[i] == '\t' }

  // ----- The request line -----

  // origin-form, or http:// with an authority up to the path
  ghost predicate IsTarget(target: string, path: string) {
    && path != "" && path[0] == '/'
    && if |target| >= 7 && SameWord(target[..7], "http://")
       then exists authority :: '/' !in authority && target[7..] == authority + path
       else target == path
  }

  // Three fields with one blank between them: GET, a target, HTTP/1.1; the last field may not be split.
  ghost predicate IsRequestLine(text: string, path: string) {
    exists method_: string, b1: char, target: string, b2: char, version: string ::
      Fields(text, method_, b1, target, b2, version) && IsTarget(target, path)
  }

  ghost predicate Fields(text: string, method_: string, b1: char, target: string, b2: char, version: string) {
    && text == method_ + [b1] + target + [b2] + version
    && AllBlank([b1, b2]) && NoBlank(method_) && NoBlank(target)
    && SameWord(method_, "get") && SameWord(version, "http/1.1")
  }

  lemma {:induction false} BlankFound(word: string, b: char, rest: string)
    requires NoBlank(word) && (b == ' ' || b == '\t')
    ensures FirstBlank(word + [b] + rest) == |word|
    decreases word
  {
    if word != "" {
      BlankFound(word[1..], b, rest);
      assert (word + [b] + rest)[1..] == word[1..] + [b] + rest;
    }
  }

  lemma {:induction false} SlashFound(word: string, path: string)
    requires '/' !in word && path != "" && path[0] == '/'
    ensures FirstSlash(word + path) == |word|
    decreases word
  {
    if word != "" {
      SlashFound(word[1..], path);
      assert (word + path)[1..] == word[1..] + path;
    } else {
      assert word + path == path;
    }
  }

  lemma AuthorityParsed(t: string, path: string)
    requires path != "" && path[0] == '/'
    ensures t[FirstSlash(t)..] == path <==> exists authority :: '/' !in authority && t == authority + path
  {
    if exists authority :: '/' !in authority && t == authority + path {
      var authority :| '/' !in authority && t == authority + path;
      SlashFound(authority, path);
    }
    if t[FirstSlash(t)..] == path {
      var authority := t[..FirstSlash(t)];
      assert forall j :: 0 <= j < |authority| ==> authority[j] != '/';
      assert '/' !in authority && t == authority + path;
    }
  }

  lemma TargetParsed(target: string, path: string)
    ensures ParseTarget(target) == Some(path) <==> IsTarget(target, path)
  {
    if |target| >= 7 {
      LowerIsSameWord(target[..7], "http://");
    }
    if StartsWith(target, "http://") && path != "" && path[0] == '/' {
      AuthorityParsed(target[7..], path);
    }
  }

  lemma RequestLineOfFields(text: string, method_: string, b1: char, target: string, b2: char, version: string)
    requires Fields(text, method_, b1, target, b2, version)
    ensures ParseRequestLine(text) == ParseTarget(target)
  {
    var rest := target + [b2] + version;
    assert [b1, b2][0] == b1 && [b1, b2][1] == b2;
    LowerIsSameWord(method_, "get");
    LowerIsSameWord(version, "http/1.1");
    Regroup(method_, b1, target, b2, version);
    BlankFound(method_, b1, rest);
    BlankFound(target, b2, version);
    assert text[..|method_|] == method_ && text[|method_| + 1..] == rest;
    assert rest[..|target|] == target && rest[|target| + 1..] == version;
  }

  lemma CutAt(text: string, i: nat)
    requires i < |text|
    ensures text == text[..i] + [text[i]] + text[i + 1..]
  {
  }

  lemma FieldsOfRequestLine(text: string)
    requires ParseRequestLine(text).Some?
    ensures var i := FirstBlank(text); var rest := text[i + 1..]; var j := FirstBlank(rest);
            && i < |text| && j < |rest| && ParseRequestLine(text) == ParseTarget(rest[..j])
            && Fields(text, text[..i], text[i], rest[..j], rest[j], rest[j + 1..])
  {
    hide FirstBlank, Lower, SameWord, ParseTarget;
    var i := FirstBlank(text);
    var rest := text[i + 1..];
    var j := FirstBlank(rest);
    CutAt(text, i);
    CutAt(rest, j);
    Regroup(text[..i], text[i], rest[..j], rest[j], rest[j + 1..]);
    assert NoBlank(text[..i]) && NoBlank(rest[..j]);
    LowerIsSameWord(text[..i], "get");
    LowerIsSameWord(rest[j + 1..], "http/1.1");
  }

  lemma Regroup(a: string, b: char, c: string, d: char, e: string)
    ensures a + [b] + (c + [d] + e) == a + [b] + c + [d] + e
  {
  }

  lemma RequestLineParsed(text: string, path: string)
    ensures ParseRequestLine(text) == Some(path) <==> IsRequestLine(text, path)
  {
    if IsRequestLine(text, path) {
      var method_, b1, target, b2, version :|
        Fields(text, method_, b1, target, b2, version) && IsTarget(target, path);
      RequestLineOfFields(text, method_, b1, target, b2, version);
      TargetParsed(target, path);
    }
    if ParseRequestLine(text) == Some(path) {
      FieldsOfRequestLine(text);
      var i := FirstBlank(text);
      var rest := text[i + 1..];
      TargetParsed(rest[..FirstBlank(rest)], path);
    }
  }

  // ----- Header fields -----

  predicate Named(line: string, name: string) { StartsWith(CString(line), name) }

  // A header field: its name and colon, blanks, and a value that starts with none.
  ghost predicate IsField(text: string, name: string, value: string) {
    exists spelled: string, gap: string :: IsFieldOf(text, name, value, spelled, gap)
  }

  ghost predicate IsFieldOf(text: string, name: string, value: string, spelled: string, gap: string) {
    && text == spelled + (gap + value) && SameWord(spelled, name) && AllBlank(gap)
    && (value == "" || (value[0] != ' ' && value[0] != '\t'))
  }

  lemma {:induction false} BlanksFound(gap: string, value: string)
    requires AllBlank(gap) && (value == "" || (value[0] != ' ' && value[0] != '\t'))
    ensures LeadingBlanks(gap + value) == |gap|
    decreases gap
  {
    if gap == "" {
      assert gap + value == value;
    } else {
      assert (gap + value)[1..] == gap[1..] + value;
      BlanksFound(gap[1..], value);
    }
  }

  // What the parser takes for a field of a name, and for its value, is one.
  lemma FieldParsed(text: string, name: string, value: string)
    requires forall i :: 0 <= i < |name| ==> !('A' <= name[i] <= 'Z')
    ensures StartsWith(text, name) && HeaderValue(text, |name|) == value <==> IsField(text, name, value)
  {
    hide Lower, LeadingBlanks;
    if StartsWith(text, name) && HeaderValue(text, |name|) == value {
      var rest := text[|name|..];
      var spelled, gap := text[..|name|], rest[..LeadingBlanks(rest)];
      LowerIsSameWord(spelled, name);
      assert rest == gap + value && text == spelled + rest;
      assert IsFieldOf(text, name, value, spelled, gap);
    }
    if IsField(text, name, value) {
      var spelled, gap :| IsFieldOf(text, name, value, spelled, gap);
      LowerIsSameWord(spelled, name);
      assert text[..|name|] == spelled && text[|name|..] == gap + value;
      BlanksFound(gap, value);
      assert (gap + value)[|gap|..] == value;
    }
  }

  // The value of the last field of that name.
  function LastValue(headers: seq<string>, name: string): Option<string> {
    if headers == [] then None
    else
      var last := headers[|headers| - 1];
      if Named(last, name) then Some(HeaderValue(CString(last), |name|))
      else LastValue(headers[..|headers| - 1], name)
  }

  ghost predicate KeepAlive(headers: seq<string>) {
    exists i :: 0 <= i < |headers| && SaysKeepAlive(headers[i])
  }

  function ContentLength(headers: seq<string>): int {
    match LastValue(headers, "content-length:")
    case None => 0
    case Some(value) => ToInt32(Atol(value))
  }

  // The request that a request line with that path and these header lines describe.
  ghost function Described(path: string, headers: seq<string>): Request {
    Request(Header, Some(path), LastValue(headers, "host:"), KeepAlive(headers), ContentLength(headers))
  }

  lemma PrefixesDiffer(text: string)
    ensures StartsWith(text, "connection:") ==> !StartsWith(text, "content-length:")
    ensures StartsWith(text, "connection:") || StartsWith(text, "content-length:") ==> !StartsWith(text, "host:")
  {
    if StartsWith(text, "connection:") || StartsWith(text, "content-length:") {
      assert LowerChar(text[0]) == 'c';
    }
    if StartsWith(text, "host:") {
      assert LowerChar(text[0]) == Lower(text[..5])[0];
    }
    if StartsWith(text, "connection:") {
      assert LowerChar(text[3]) == Lower(text[..11])[3];
    }
    if StartsWith(text, "content-length:") {
      assert LowerChar(text[3]) == Lower(text[..15])[3];
    }
  }

  lemma LastValueGrows(headers: seq<string>, line: string, name: string)
    ensures LastValue(headers + [line], name)
            == if Named(line, name) then Some(HeaderValue(CString(line), |name|)) else LastValue(headers, name)
  {
    assert (headers + [line])[..|headers|] == headers;
  }

  predicate SaysKeepAlive(line: string) {
    Named(line, "connection:") && Lower(HeaderValue(CString(line), 11)) == "keep-alive"
  }

  lemma SaysKeepAliveIs(line: string)
    ensures SaysKeepAlive(line)
            <==> exists value :: IsField(CString(line), "connection:", value) && SameWord(value, "keep-alive")
  {
    hide Lower, CString, HeaderValue, SameWord;
    var text := CString(line);
    if SaysKeepAlive(line) {
      var value := HeaderValue(text, 11);
      LowerIsSameWord(value, "keep-alive");
      FieldParsed(text, "connection:", value);
    }
    if exists value :: IsField(text, "connection:", value) && SameWord(value, "keep-alive") {
      var value :| IsField(text, "connection:", value) && SameWord(value, "keep-alive");
      LowerIsSameWord(value, "keep-alive");
      FieldParsed(text, "connection:", value);
    }
  }

  lemma KeepAliveGrows(headers: seq<string>, line: string)
    ensures KeepAlive(headers + [line]) <==> KeepAlive(headers) || SaysKeepAlive(line)
  {
    var more := headers + [line];
    assert forall i :: 0 <= i < |headers| ==> more[i] == headers[i];
    if KeepAlive(headers) {
      var i :| 0 <= i < |headers| && SaysKeepAlive(headers[i]);
      assert SaysKeepAlive(more[i]);
    }
    if SaysKeepAlive(line) {
      assert SaysKeepAlive(more[|headers|]);
    }
  }

  // One more header line.
  lemma DescribedGrows(path: string, headers: seq<string>, line: string)
    ensures Described(path, headers + [line]) == ParseHeader(Described(path, headers), CString(line))
  {
    PrefixesDiffer(CString(line));
    KeepAliveGrows(headers, line);
    LastValueGrows(headers, line, "host:");
    LastValueGrows(headers, line, "content-length:");
  }

  // ----- Messages -----

  datatype Message = Message(requestLine: string, headers: seq<string>, blank: string) {
    function Lines(): seq<string> { [requestLine] + headers + [blank] }
  }

  ghost predicate WellFormed(m: Message, path: string) {
    && NoLineFeed(m.Lines())
    && IsRequestLine(CString(m.requestLine), path)
    && (forall i :: 0 <= i < |m.headers| ==> CString(m.headers[i]) != "")
    && CString(m.blank) == ""
  }

  function VerdictOn(length: int): Verdict { if length == 0 then GetRequest else BodyPending }

  lemma {:induction false} HeadersDecide(path: string, done: seq<string>, headers: seq<string>, blank: string)
    requires forall i :: 0 <= i < |headers| ==> CString(headers[i]) != ""
    requires CString(blank) == ""
    ensures var r := Described(path, done);
            && Decides(ParseText, r, headers + [blank])
            && Fold(ParseText, r, headers + [blank])
               == (VerdictOn(ContentLength(done + headers)), Described(path, done + headers))
    decreases headers
  {
    hide CString, ParseHeader;
    var lines := headers + [blank];
    if headers == [] {
      assert done + headers == done && lines == [blank];
    } else {
      DescribedGrows(path, done, headers[0]);
      assert (done + [headers[0]]) + headers[1..] == done + headers;
      assert lines[1..] == headers[1..] + [blank];
      HeadersDecide(path, done + [headers[0]], headers[1..], blank);
    }
  }

  lemma FirstLineTaken(line: string, path: string)
    requires IsRequestLine(CString(line), path)
    ensures ParseText(Initial().data, line) == (NoRequest, Described(path, []))
  {
    hide CString, ParseRequestLine, IsRequestLine;
    RequestLineParsed(CString(line), path);
  }

  lemma WellFormedDecides(m: Message, path: string)
    requires WellFormed(m, path)
    ensures Decides(ParseText, Initial().data, m.Lines())
    ensures Fold(ParseText, Initial().data, m.Lines())
            == (VerdictOn(ContentLength(m.headers)), Described(path, m.headers))
  {
    hide CString, ParseText, VerdictOn, IsRequestLine, Described, ContentLength;
    FirstLineTaken(m.requestLine, path);
    assert m.Lines()[1..] == m.headers + [m.blank];
    HeadersDecide(path, [], m.headers, m.blank);
    assert [] + m.headers == m.headers;
  }

  // Lines on which the header parser decides are headers and a blank one.
  lemma {:induction false} DecidedHeaders(r: Request, lines: seq<string>)
    requires r.state.Header? && Decides(ParseText, r, lines)
    ensures CString(lines[|lines| - 1]) == ""
    ensures forall i :: 0 <= i < |lines| - 1 ==> CString(lines[i]) != ""
    ensures Fold(ParseText, r, lines).0 != BadRequest
    decreases lines
  {
    if |lines| > 1 {
      DecidedHeaders(ParseText(r, lines[0]).1, lines[1..]);
      assert forall i :: 1 <= i < |lines| ==> lines[i] == lines[1..][i - 1];
    }
  }

  // Lines on which the machine decides otherwise than against are a well-formed message.
  lemma DecidedIsWellFormed(lines: seq<string>) returns (m: Message, path: string)
    requires Decides(ParseText, Initial().data, lines) && NoLineFeed(lines)
    requires Fold(ParseText, Initial().data, lines).0 != BadRequest
    ensures m.Lines() == lines && WellFormed(m, path)
  {
    var first := ParseRequestLine(CString(lines[0]));
    assert |lines| > 1 && first.Some?;
    path := first.value;
    DecidedHeaders(ParseText(Initial().data, lines[0]).1, lines[1..]);
    m := Message(lines[0], lines[1..|lines| - 1], lines[|lines| - 1]);
    assert m.Lines() == lines;
    RequestLineParsed(CString(lines[0]), path);
    assert forall i :: 0 <= i < |m.headers| ==> m.headers[i] == lines[1..][i];
  }

  // The machine decides in favour exactly when the bytes received start with a well-formed
  // message ...
  lemma DecidesIffWellFormed(s: string)
    ensures Process(ParseText, Initial(), s).0 in {GetRequest, BodyPending}
            <==> exists m: Message, path, rest :: s == Joined(m.Lines()) + rest && WellFormed(m, path)
  {
    if Process(ParseText, Initial(), s).0 in {GetRequest, BodyPending} {
      var lines, rest := ReadAreLines(ParseText, Initial().data, s);
      var m, path := DecidedIsWellFormed(lines);
    }
    if exists m: Message, path, rest :: s == Joined(m.Lines()) + rest && WellFormed(m, path) {
      var m: Message, path, rest :| s == Joined(m.Lines()) + rest && WellFormed(m, path);
      MessageDecided(m, path, rest);
    }
  }

  // ... and then it has recovered what the message describes.
  lemma MessageDecided(m: Message, path: string, rest: string)
    requires WellFormed(m, path)
    ensures var (verdict, q) := Process(ParseText, Initial(), Joined(m.Lines()) + rest);
            verdict == VerdictOn(ContentLength(m.headers)) && q.data == Described(path, m.headers)
  {
    WellFormedDecides(m, path);
    LinesAreRead(ParseText, Initial().data, m.Lines(), rest);
  }

  // The request is bad exactly when a complete first line is not a request line.
  lemma BadIffFirstLineBad(s: string)
    ensures Process(ParseText, Initial(), s).0 == BadRequest
            <==> exists line, rest :: StartsBadly(s, line, rest)
  {
    if Process(ParseText, Initial(), s).0 == BadRequest {
      var line, rest := BadFirstLine(s);
    }
    if exists line, rest :: StartsBadly(s, line, rest) {
      var line, rest :| StartsBadly(s, line, rest);
      NotARequestLine(CString(line));
      LinesAreRead(ParseText, Initial().data, [line], rest);
    }
  }

  ghost predicate StartsBadly(s: string, line: string, rest: string) {
    s == Joined([line]) + rest && '\n' !in line && forall path :: !IsRequestLine(CString(line), path)
  }

  lemma BadFirstLine(s: string) returns (line: string, rest: string)
    requires Process(ParseText, Initial(), s).0 == BadRequest
    ensures StartsBadly(s, line, rest)
  {
    var lines;
    lines, rest := ReadAreLines(ParseText, Initial().data, s);
    OnlyLineBad(lines);
    line := lines[0];
    assert lines == [line];
    NotARequestLine(CString(line));
  }

  lemma OnlyLineBad(lines: seq<string>)
    requires Decides(ParseText, Initial().data, lines) && Fold(ParseText, Initial().data, lines).0 == BadRequest
    ensures |lines| == 1 && ParseRequestLine(CString(lines[0])) == None
  {
    if |lines| > 1 {
      DecidedHeaders(ParseText(Initial().data, lines[0]).1, lines[1..]);
    }
  }

  lemma NotARequestLine(text: string)
    ensures ParseRequestLine(text) == None <==> forall path :: !IsRequestLine(text, path)
  {
    if ParseRequestLine(text).Some? {
      RequestLineParsed(text, ParseRequestLine(text).value);
    }
    forall path
      ensures ParseRequestLine(text) == Some(path) <==> IsRequestLine(text, path)
    {
      RequestLineParsed(text, path);
    }
  }
}
