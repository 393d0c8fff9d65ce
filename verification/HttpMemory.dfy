/**
 The parser's own memory as a value - the read buffer, the indices, the pointers into
 it - and what each parsing function does to it: NULs written over separators,
 pointers left in the buffer.

 What a memory means is a Cursor<Request>.  The lemmas show that the functions on
 memory do to that meaning what HttpSpec does, so the whole in-place machine refines
 the parser on the byte stream.
 */
module HttpMemory {
  import opened Bytes
  import opened HttpFraming
  import opened HttpSpec

  // The C string at `p` is `word`.
  ghost predicate Holds(mem: string, p: int, word: string) {
    && 0 <= p && p + |word| < |mem|
    && mem[p..p + |word|] == word && mem[p + |word|] == NUL
    && forall i :: 0 <= i < |word| ==> word[i] != NUL
  }

  datatype Memory = Memory(
    mem: string,
    read: nat,
    checked: nat,
    start: nat,
    state: CheckState,
    url: int,        // -1 is NULL
    host: int,
    linger: bool,
    length: int)
  {
    // The C string at `p` ends before the line being read.
    ghost predicate Pointer(p: int) {
      p == -1 || (0 <= p < start <= |mem| && |CString(mem[p..start])| < start - p)
    }

    ghost function Text(p: int): Option<string>
      requires Pointer(p)
    {
      if p == -1 then None else Some(CString(mem[p..start]))
    }

    // Everything from the line being read on is as it was received.
    ghost predicate Valid(received: string) {
      && start <= checked <= read == |received| < |mem|
      && mem[start..read] == received[start..]
      && (start > 0 ==> mem[start - 1] != '\r' && received[start - 1] != '\r')
      && Pointer(url) && Pointer(host)
      && (state.RequestLine? ==> host == -1)
    }

    ghost function View(): Cursor<Request>
      requires Pointer(url) && Pointer(host)
    {
      Cursor(start, checked, Request(state, Text(url), Text(host), linger, length))
    }

    function AfterLine(e: nat): Memory
      requires e + 2 <= |mem|
    {
      this.(mem := mem[e := NUL][e + 1 := NUL], checked := e + 2, start := e + 2)
    }
  }

  datatype LineStatus = LineOk | LineBad | LineOpen

  // ----- The functions of the parser -----

  // What a function of the C library sees when it is given the pointer `p`.
  function At(mem: string, p: nat): string
    requires p <= |mem|
  {
    CString(mem[p..])
  }

  function PraseLine(m: Memory): (LineStatus, Memory)
    requires m.checked <= m.read <= |m.mem|
  {
    match Scan(m.mem[..m.read], m.checked)
    case Line(e) => (LineOk, m.(mem := m.mem[e := NUL][e + 1 := NUL], checked := e + 2))
    case Bad(i) => (LineBad, m.(checked := i))
    case Open(i) => (LineOpen, m.(checked := i))
  }

  function PraseRequestLine(m: Memory, text: nat): (r: (Verdict, Memory))
    requires text <= |m.mem|
    ensures r.1 == m.(mem := r.1.mem, url := r.1.url, state := r.1.state) && |r.1.mem| == |m.mem|
  {
    var i := FirstBlank(At(m.mem, text));
    if i == |At(m.mem, text)| then (BadRequest, m.(url := -1))
    else
      var m1 := m.(mem := m.mem[text + i := NUL], url := text + i + 1);
      if Lower(At(m1.mem, text)) != "get" then (BadRequest, m1) else PraseVersion(m1)
  }

  // The rest of the request line, from m_url on ...
  function PraseVersion(m: Memory): (r: (Verdict, Memory))
    requires 0 <= m.url <= |m.mem|
    ensures r.1 == m.(mem := r.1.mem, url := r.1.url, state := r.1.state) && |r.1.mem| == |m.mem|
  {
    var u := At(m.mem, m.url);
    var j := FirstBlank(u);
    if j == |u| then (BadRequest, m)
    else
      var m1 := m.(mem := m.mem[m.url + j := NUL]);
      if Lower(At(m1.mem, m.url + j + 1)) != "http/1.1" then (BadRequest, m1) else PraseTarget(m1)
  }

  // ... and the target: skip http:// and the authority, insist on a slash.
  function PraseTarget(m: Memory): (Verdict, Memory)
    requires 0 <= m.url <= |m.mem|
  {
    var m1 := if StartsWith(At(m.mem, m.url), "http://") then m.(url := SkipAuthority(m.mem, m.url + 7)) else m;
    if m1.url == -1 || m1.url == |m.mem| || m.mem[m1.url] != '/' then (BadRequest, m1)
    else (NoRequest, m1.(state := Header))
  }

  function SkipAuthority(mem: string, p: nat): (url: int)
    requires p <= |mem|
    ensures -1 <= url < |mem|
  {
    var k := FirstSlash(At(mem, p));
    if k == |At(mem, p)| then -1 else p + k
  }

  // The header parser.  A field's value starts behind its name and the blanks after it.
  function PraseHeaders(m: Memory, text: nat): (r: (Verdict, Memory))
    requires text <= |m.mem|
    ensures r.1 == m.(host := r.1.host, linger := r.1.linger, length := r.1.length)
  {
    var t := At(m.mem, text);
    if t == "" then (if m.length != 0 then BodyPending else GetRequest, m)
    else if StartsWith(t, "connection:") then
      (NoRequest, if Lower(HeaderValue(t, 11)) == "keep-alive" then m.(linger := true) else m)
    else if StartsWith(t, "content-length:") then (NoRequest, m.(length := ToInt32(Atol(HeaderValue(t, 15)))))
    else if StartsWith(t, "host:") then (NoRequest, m.(host := text + 5 + LeadingBlanks(t[5..])))
    else (NoRequest, m)
  }

  // The switch of process_read on the line that starts at `text`.
  function TakeLine(m: Memory, text: nat): (Verdict, Memory)
    requires text <= |m.mem|
  {
    match m.state
    case RequestLine => PraseRequestLine(m, text)
    case Header => PraseHeaders(m, text)
  }

  // One turn of the main loop, and whether another follows.
  function Turn(m: Memory): (r: (bool, Verdict, Memory))
    requires m.start <= m.checked <= m.read <= |m.mem|
    ensures |r.2.mem| == |m.mem| && r.2.read == m.read && r.2.start <= r.2.checked <= r.2.read
    ensures r.0 ==> m.checked < r.2.checked
  {
    var (status, m1) := PraseLine(m);
    if status != LineOk then (false, NoRequest, m1)
    else
      var (verdict, m2) := TakeLine(m1.(start := m1.checked), m.start);
      (verdict == NoRequest, verdict, m2)
  }

  // One call of process_read.
  function ProcessRead(m: Memory): (r: (Verdict, Memory))
    requires m.start <= m.checked <= m.read <= |m.mem|
    ensures |r.1.mem| == |m.mem| && r.1.read == m.read && r.1.start <= r.1.checked <= r.1.read
    decreases m.read - m.checked
  {
    var (going, verdict, r) := Turn(m);
    if going then ProcessRead(r) else (verdict, r)
  }

  // The buffer with `chunk` stored from position n on, and a NUL behind it.
  function Stored(mem: string, n: nat, chunk: string): string
    requires n + |chunk| < |mem|
  {
    mem[..n] + chunk + [NUL] + mem[n + |chunk| + 1..]
  }

  // read(): the next bytes behind those that are there, and a NUL.
  function Read(m: Memory, chunk: string): (r: Memory)
    requires m.read + |chunk| < |m.mem|
    ensures |r.mem| == |m.mem| && r == m.(mem := r.mem, read := m.read + |chunk|)
  {
    m.(mem := Stored(m.mem, m.read, chunk), read := m.read + |chunk|)
  }

  // A C string is what stands before the first NUL.
  lemma CStringEnds(s: string, k: nat)
    requires k <= |s| && (k < |s| ==> s[k] == NUL) && forall i :: 0 <= i < k ==> s[i] != NUL
    ensures CString(s) == s[..k]
  {
  }

  // Bytes behind the end of a C string do not change it.
  lemma CStringLonger(a: string, b: string)
    requires |CString(a)| < |a| && a <= b
    ensures CString(b) == CString(a)
  {
    CStringEnds(b, |CString(a)|);
  }

  lemma HoldsIsCString(mem: string, p: nat, word: string, end: nat)
    requires Holds(mem, p, word) && p + |word| < end <= |mem|
    ensures CString(mem[p..end]) == word
  {
    var s := mem[p..end];
    assert s[..|word|] == mem[p..p + |word|] == word;
    assert forall i :: 0 <= i < |word| ==> s[i] == word[i];
    CStringEnds(s, |word|);
  }

  lemma SliceSame(a: string, b: string, n: nat, lo: nat, hi: nat)
    requires n <= |a| && n <= |b| && a[..n] == b[..n] && lo <= hi <= n
    ensures a[lo..hi] == b[lo..hi]
  {
    assert a[lo..hi] == a[..n][lo..hi] && b[lo..hi] == b[..n][lo..hi];
  }

  // One byte of a scan.
  lemma ScanStep(s: string, i: nat)
    requires i < |s|
    ensures Scan(s, i)
            == if s[i] == '\r' && i + 1 == |s| then Open(i)
               else if s[i] == '\r' && s[i + 1] == '\n' then Line(i)
               else if s[i] == '\n' then if i > 1 && s[i - 1] == '\r' then Line(i - 1) else Bad(i)
               else Scan(s, i + 1)
  {
  }

  lemma ScanEnd(s: string)
    ensures Scan(s, |s|) == Open(|s|)
  {
  }

  // A scan looks at nothing before the byte that precedes its first one.
  lemma {:induction false} ScanSame(a: string, b: string, from: nat)
    requires from <= |a| == |b|
    requires forall i :: from <= i < |a| ==> a[i] == b[i]
    requires from > 0 ==> (a[from - 1] == '\r' <==> b[from - 1] == '\r')
    ensures Scan(a, from) == Scan(b, from)
    decreases |a| - from
  {
    if from < |a| {
      ScanSame(a, b, from + 1);
    }
  }

  // Scanning the buffer is scanning the byte stream.
  lemma ScanAgrees(m: Memory, received: string)
    requires m.Valid(received)
    ensures Scan(m.mem[..m.read], m.checked) == Scan(received, m.checked)
  {
    var bytes := m.mem[..m.read];
    forall i | m.start <= i < m.read
      ensures bytes[i] == received[i]
    {
      assert m.mem[m.start..m.read][i - m.start] == received[m.start..][i - m.start];
    }
    ScanSame(bytes, received, m.checked);
  }

  lemma StoredSame(mem: string, n: nat, chunk: string)
    requires n + |chunk| < |mem|
    ensures var now := Stored(mem, n, chunk);
            && |now| == |mem| && now[..n] == mem[..n] && now[n..n + |chunk|] == chunk
            && now[n + |chunk|] == NUL && now[n + |chunk| + 1..] == mem[n + |chunk| + 1..]
  {
  }

  // More bytes arrive behind those that are there.
  lemma Received(m: Memory, received: string, chunk: string)
    requires m.Valid(received) && m.read + |chunk| < |m.mem|
    ensures Read(m, chunk).Valid(received + chunk) && Read(m, chunk).View() == m.View()
  {
    StoredSame(m.mem, m.read, chunk);
    ReceivedBehind(m, received, Stored(m.mem, m.read, chunk), chunk);
  }

  lemma ReceivedBehind(m: Memory, received: string, mem: string, chunk: string)
    requires m.Valid(received) && |mem| == |m.mem| && m.read + |chunk| < |mem|
    requires mem[..m.read] == m.mem[..m.read] && mem[m.read..m.read + |chunk|] == chunk
    ensures var r := m.(mem := mem, read := m.read + |chunk|);
            r.Valid(received + chunk) && r.View() == m.View()
  {
    hide CString, Memory.Pointer, Memory.Text;
    var r := m.(mem := mem, read := m.read + |chunk|);
    PointerBehind(m, r, m.url);
    PointerBehind(m, r, m.host);
    SliceSame(m.mem, mem, m.read, m.start, m.read);
    assert mem[m.start..r.read] == mem[m.start..m.read] + mem[m.read..r.read];
    assert (received + chunk)[m.start..] == received[m.start..] + chunk;
    assert m.start > 0 ==> mem[m.start - 1] == m.mem[..m.read][m.start - 1];
  }

  lemma PointerBehind(m: Memory, r: Memory, p: int)
    requires m.Pointer(p) && m.start == r.start <= m.read <= |m.mem| && m.read <= |r.mem|
    requires r.mem[..m.read] == m.mem[..m.read]
    ensures r.Pointer(p) && r.Text(p) == m.Text(p)
  {
    hide CString;
    if p != -1 {
      SliceSame(m.mem, r.mem, m.read, p, m.start);
    }
  }

  // A C string that ended before position n is not touched by what happens from there on.
  lemma PointerKept(was: string, now: string, p: int, n: nat, end: nat)
    requires n <= end <= |now| && n <= |was| && was[..n] == now[..n]
    requires p == -1 || (0 <= p < n && |CString(was[p..n])| < n - p)
    ensures p != -1 ==> CString(now[p..end]) == CString(was[p..n])
  {
    hide CString;
    if p != -1 {
      SliceSame(was, now, n, p, n);
      assert now[p..n] <= now[p..end];
      CStringLonger(was[p..n], now[p..end]);
    }
  }

  // The two NULs that end a line make its text a C string ...
  lemma LineHolds(mem: string, text: nat, e: nat, raw: string)
    requires text <= e && e + 2 <= |mem| && mem[text..e] == raw
    ensures var now := mem[e := NUL][e + 1 := NUL]; Holds(now, text, CString(raw))
  {
    var now := mem[e := NUL][e + 1 := NUL];
    var line := CString(raw);
    assert now[text..e] == raw;
    assert now[text..text + |line|] == now[text..e][..|line|];
    assert |line| < |raw| ==> now[text + |line|] == now[text..e][|line|];
  }

  // Slices of two texts that agree from position n on agree.
  lemma TailSame(a: string, b: string, n: nat, len: nat, lo: nat, hi: nat)
    requires n <= lo <= hi <= len <= |a| && len == |b| && a[n..len] == b[n..]
    ensures a[lo..hi] == b[lo..hi]
  {
    forall i | lo <= i < hi
      ensures a[i] == b[i]
    {
      assert a[n..len][i - n] == b[n..][i - n];
    }
  }

  lemma AfterLineMemory(m: Memory, e: nat)
    requires e + 2 <= |m.mem| && m.start <= e
    ensures var r := m.AfterLine(e);
            && |r.mem| == |m.mem| && r.mem[..m.start] == m.mem[..m.start] && r.mem[e + 2..] == m.mem[e + 2..]
            && r.mem[e + 1] == NUL && (e + 2 <= m.read <= |m.mem| ==> r.mem[e + 2..m.read] == m.mem[e + 2..m.read])
  {
  }

  lemma LineText(m: Memory, received: string, e: nat)
    requires m.Valid(received) && m.start <= e && e + 2 <= m.read
    ensures Holds(m.AfterLine(e).mem, m.start, CString(received[m.start..e]))
  {
    TailSame(m.mem, received, m.start, m.read, m.start, e);
    LineHolds(m.mem, m.start, e, received[m.start..e]);
  }

  lemma LinePointer(m: Memory, p: int, e: nat)
    requires m.Pointer(p) && m.start <= e && e + 2 <= |m.mem|
    ensures m.AfterLine(e).Pointer(p) && m.AfterLine(e).Text(p) == m.Text(p)
  {
    hide CString;
    AfterLineMemory(m, e);
    if p != -1 {
      PointerKept(m.mem, m.AfterLine(e).mem, p, m.start, e + 2);
    }
  }

  // ... and the memory then means: that line taken, nothing else changed.
  lemma LineTaken(m: Memory, received: string, e: nat)
    requires m.Valid(received) && m.start <= e && e + 2 <= m.read && received[e + 1] == '\n'
    ensures var r := m.AfterLine(e);
            && r.Valid(received) && r.View() == Cursor(e + 2, e + 2, m.View().data)
            && r.mem[e + 2..] == m.mem[e + 2..]
  {
    hide CString;
    AfterLineMemory(m, e);
    TailSame(m.mem, received, m.start, m.read, e + 2, m.read);
    LinePointer(m, m.url, e);
    LinePointer(m, m.host, e);
  }

  // ----- The request line -----

  lemma HoldsAt(mem: string, p: int, word: string)
    requires Holds(mem, p, word)
    ensures At(mem, p) == word
  {
    var s := mem[p..];
    assert s[..|word|] == mem[p..p + |word|] == word;
    assert forall i :: 0 <= i < |word| ==> s[i] == word[i];
    CStringEnds(s, |word|);
  }

  // *m_url++ = 0: the string at `p` becomes two.
  lemma CutHolds(mem: string, p: int, word: string, i: nat)
    requires Holds(mem, p, word) && i < |word|
    ensures var now := mem[p + i := NUL];
            && Holds(now, p, word[..i]) && Holds(now, p + i + 1, word[i + 1..])
            && now[..p] == mem[..p] && now[p + |word|..] == mem[p + |word|..]
  {
    var now := mem[p + i := NUL];
    assert now[p..p + i] == word[..i];
    assert now[p + i + 1..p + |word|] == word[i + 1..];
  }

  // A pointer into the string at `p`, past its first k characters.
  lemma HoldsTail(mem: string, p: int, word: string, k: nat)
    requires Holds(mem, p, word) && k <= |word|
    ensures Holds(mem, p + k, word[k..])
  {
    assert mem[p + k..p + |word|] == mem[p..p + |word|][k..];
  }

  // The outcome of a parser of (part of) the request line between `from` and `end`, which
  // should find `parsed`; `path` is the C string it has left m_url at.
  ghost predicate Outcome(m: Memory, out: (Verdict, Memory), path: string, parsed: Option<string>, from: int, end: int) {
    var (ret, r) := out;
    && r == m.(mem := r.mem, url := r.url, state := r.state) && |r.mem| == |m.mem|
    && 0 <= from <= end <= |m.mem|
    && r.mem[..from] == m.mem[..from] && r.mem[end..] == m.mem[end..]
    && (r.url == -1 || (from <= r.url && Holds(r.mem, r.url, path) && r.url + |path| <= end))
    && match parsed
       case None => ret == BadRequest && r.state == m.state
       case Some(p) => ret == NoRequest && r.state == Header && r.url != -1 && path == p
  }

  lemma OutcomeWider(m: Memory, cut: Memory, out: (Verdict, Memory), path: string, parsed: Option<string>, from: int, wide: int, end: int)
    requires Outcome(cut, out, path, parsed, from, end)
    requires cut == m.(mem := cut.mem, url := cut.url) && |cut.mem| == |m.mem|
    requires 0 <= wide <= from && cut.mem[..wide] == m.mem[..wide] && cut.mem[end..] == m.mem[end..]
    ensures Outcome(m, out, path, parsed, wide, end)
  {
    SliceSame(out.1.mem, cut.mem, from, 0, wide);
  }

  // A failed parse, with m_url left at some string in range.
  lemma BadOutcome(m: Memory, mem: string, url: int, path: string, from: int, end: int)
    requires 0 <= from <= end <= |m.mem| == |mem| && mem[..from] == m.mem[..from] && mem[end..] == m.mem[end..]
    requires url == -1 || (from <= url && Holds(mem, url, path) && url + |path| <= end)
    ensures Outcome(m, (BadRequest, m.(mem := mem, url := url)), path, None, from, end)
  {
  }

  lemma RequestLineOutcome(m: Memory, text: nat, line: string) returns (path: string)
    requires Holds(m.mem, text, line)
    ensures Outcome(m, PraseRequestLine(m, text), path, ParseRequestLine(line), text, text + |line|)
  {
    hide CString, FirstBlank, Lower, PraseVersion, ParseTarget, Outcome;
    HoldsAt(m.mem, text, line);
    var i := FirstBlank(line);
    if i == |line| {
      path := "";
      BadOutcome(m, m.mem, -1, path, text, text + |line|);
    } else {
      path := MethodOutcome(m, text, line, i);
    }
  }

  lemma MethodOutcome(m: Memory, text: nat, line: string, i: nat) returns (path: string)
    requires Holds(m.mem, text, line) && i < |line|
    ensures var m1 := m.(mem := m.mem[text + i := NUL], url := text + i + 1);
            && At(m1.mem, text) == line[..i]
            && Outcome(m, if Lower(line[..i]) != "get" then (BadRequest, m1) else PraseVersion(m1), path,
                       if Lower(line[..i]) != "get" then None else ParseVersion(line[i + 1..]), text, text + |line|)
  {
    hide CString, FirstBlank, Lower, PraseVersion, ParseVersion;
    CutHolds(m.mem, text, line, i);
    var m1 := m.(mem := m.mem[text + i := NUL], url := text + i + 1);
    HoldsAt(m1.mem, text, line[..i]);
    if Lower(line[..i]) != "get" {
      path := line[i + 1..];
      BadOutcome(m, m1.mem, m1.url, path, text, text + |line|);
    } else {
      path := VersionOutcome(m1, line[i + 1..]);
      OutcomeWider(m, m1, PraseVersion(m1), path, ParseVersion(line[i + 1..]), m1.url, text, text + |line|);
    }
  }

  function ParseVersion(rest: string): Option<string> {
    var j := FirstBlank(rest);
    if j == |rest| || Lower(rest[j + 1..]) != "http/1.1" then None else ParseTarget(rest[..j])
  }

  lemma VersionOutcome(m: Memory, rest: string) returns (path: string)
    requires Holds(m.mem, m.url, rest)
    ensures Outcome(m, PraseVersion(m), path, ParseVersion(rest), m.url, m.url + |rest|)
  {
    hide CString, FirstBlank, Lower, PraseTarget, ParseTarget, Outcome;
    HoldsAt(m.mem, m.url, rest);
    var j := FirstBlank(rest);
    if j == |rest| {
      path := rest;
      BadOutcome(m, m.mem, m.url, path, m.url, m.url + |rest|);
    } else {
      path := CutVersionOutcome(m, rest, j);
    }
  }

  lemma CutVersionOutcome(m: Memory, rest: string, j: nat) returns (path: string)
    requires Holds(m.mem, m.url, rest) && j < |rest|
    ensures var m1 := m.(mem := m.mem[m.url + j := NUL]);
            && At(m1.mem, m.url + j + 1) == rest[j + 1..]
            && Outcome(m, if Lower(rest[j + 1..]) != "http/1.1" then (BadRequest, m1) else PraseTarget(m1), path,
                       if Lower(rest[j + 1..]) != "http/1.1" then None else ParseTarget(rest[..j]), m.url, m.url + |rest|)
  {
    hide CString, FirstBlank, Lower, PraseTarget, ParseTarget, Outcome;
    CutHolds(m.mem, m.url, rest, j);
    var m1 := m.(mem := m.mem[m.url + j := NUL]);
    HoldsAt(m1.mem, m.url + j + 1, rest[j + 1..]);
    path := rest[..j];
    if Lower(rest[j + 1..]) != "http/1.1" {
      BadOutcome(m, m1.mem, m1.url, path, m.url, m.url + |rest|);
    } else {
      path := TargetOutcome(m1, rest[..j]);
      OutcomeLonger(m1, PraseTarget(m1), path, ParseTarget(rest[..j]), m.url, m.url + j, m.url + |rest|);
      OutcomeWider(m, m1, PraseTarget(m1), path, ParseTarget(rest[..j]), m.url, m.url, m.url + |rest|);
    }
  }

  lemma OutcomeLonger(m: Memory, out: (Verdict, Memory), path: string, parsed: Option<string>, from: int, end: int, far: int)
    requires Outcome(m, out, path, parsed, from, end) && out.1.mem == m.mem && end <= far <= |m.mem|
    ensures Outcome(m, out, path, parsed, from, far)
  {
  }

  // The target parser writes nothing.
  lemma TargetOutcome(m: Memory, target: string) returns (path: string)
    requires Holds(m.mem, m.url, target)
    ensures PraseTarget(m).1.mem == m.mem
    ensures Outcome(m, PraseTarget(m), path, ParseTarget(target), m.url, m.url + |target|)
  {
    hide CString, FirstSlash, LowerChar, Holds, SkipAuthority, PraseTarget, Outcome;
    path := if StartsWith(target, "http://") then target[7..][FirstSlash(target[7..])..] else target;
    if StartsWith(target, "http://") {
      AbsoluteOutcome(m, target, path);
    } else {
      OriginOutcome(m, path);
    }
  }

  lemma OriginOutcome(m: Memory, target: string)
    requires Holds(m.mem, m.url, target) && !StartsWith(target, "http://")
    ensures PraseTarget(m).1.mem == m.mem
    ensures Outcome(m, PraseTarget(m), target, ParseTarget(target), m.url, m.url + |target|)
  {
    hide CString, FirstSlash, StartsWith;
    HoldsAt(m.mem, m.url, target);
    FirstOf(m.mem, m.url, target);
  }

  lemma AbsoluteOutcome(m: Memory, target: string, path: string)
    requires Holds(m.mem, m.url, target) && StartsWith(target, "http://")
    requires path == target[7..][FirstSlash(target[7..])..]
    ensures PraseTarget(m).1.mem == m.mem
    ensures Outcome(m, PraseTarget(m), path, ParseTarget(target), m.url, m.url + |target|)
  {
    hide CString, FirstSlash, LowerChar, SkipAuthority;
    HoldsAt(m.mem, m.url, target);
    AuthoritySkipped(m.mem, m.url, target, FirstSlash(target[7..]));
  }

  lemma AuthoritySkipped(mem: string, p: nat, target: string, k: nat)
    requires Holds(mem, p, target) && 7 <= |target| && k == FirstSlash(target[7..])
    ensures var path := target[7..][k..]; var url := SkipAuthority(mem, p + 7);
            if path == "" then url == -1 else url == p + 7 + k && Holds(mem, url, path) && mem[url] == path[0]
  {
    hide CString, FirstSlash;
    HoldsTail(mem, p, target, 7);
    HoldsAt(mem, p + 7, target[7..]);
    HoldsTail(mem, p + 7, target[7..], k);
    FirstOf(mem, p + 7 + k, target[7..][k..]);
  }

  lemma FirstOf(mem: string, p: int, word: string)
    requires Holds(mem, p, word)
    ensures mem[p] == if word == "" then NUL else word[0]
  {
    assert word != "" ==> mem[p] == mem[p..p + |word|][0];
  }

  // The request-line parser has cut up its line and left m_url in it.
  lemma UrlTaken(m: Memory, received: string, r: Memory, path: string, text: nat, end: nat)
    requires m.Valid(received) && text <= end < m.start && m.host == -1
    requires r == m.(mem := r.mem, url := r.url, state := r.state) && |r.mem| == |m.mem|
    requires r.mem[end..] == m.mem[end..] && m.mem[end] == NUL
    requires r.url == -1 || (text <= r.url && Holds(r.mem, r.url, path) && r.url + |path| <= end)
    ensures r.Valid(received)
    ensures r.View() == m.View().(data := m.View().data.(state := r.state, url := if r.url == -1 then None else Some(path)))
  {
    assert forall i :: end <= i < |m.mem| ==> r.mem[i] == r.mem[end..][i - end] == m.mem[end..][i - end];
    assert r.mem[m.start..m.read] == m.mem[m.start..m.read];
    if r.url != -1 {
      HoldsIsCString(r.mem, r.url, path, m.start);
    }
  }

  // The header parser, making of the request `q`, has left m_host where it was or at the start
  // of a value in its line.
  lemma HeaderTaken(m: Memory, received: string, r: Memory, q: Request)
    requires m.Valid(received) && m.state.Header?
    requires r == m.(host := r.host, linger := r.linger, length := r.length)
    requires q == m.View().data.(host := q.host, linger := r.linger, length := r.length)
    requires || (q.host == m.View().data.host && r.host == m.host)
             || (q.host.Some? && Holds(m.mem, r.host, q.host.value) && r.host + |q.host.value| < m.start)
    ensures r.Valid(received) && r.View() == m.View().(data := q)
  {
    if q.host.Some? && Holds(m.mem, r.host, q.host.value) && r.host + |q.host.value| < m.start {
      HoldsIsCString(m.mem, r.host, q.host.value, m.start);
    }
  }

  // The scan has only moved on.
  lemma Stopped(m: Memory, received: string, i: nat)
    requires m.Valid(received) && m.checked <= i <= m.read
    ensures m.(checked := i).Valid(received) && m.(checked := i).View() == m.View().(checked := i)
  {
  }
}
