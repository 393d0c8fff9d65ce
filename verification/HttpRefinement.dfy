/**
 The in-place machine refines the parser on the byte stream, call by call, and so its
 verdict and what it recovers do not depend on how the bytes were cut into reads.
 */
module HttpRefinement {
  import opened Bytes
  import opened HttpFraming
  import opened HttpSpec
  import opened HttpMemory

  // What a line does to the memory, against what it does to the request.
  ghost predicate Takes(m: Memory, received: string, out: (Verdict, Memory), parsed: (Verdict, Request)) {
    && m.Valid(received) && out.1.Valid(received) && out.0 == parsed.0
    && |out.1.mem| == |m.mem| && out.1.start == m.start && out.1.checked == m.checked
    && out.1.mem[m.start..] == m.mem[m.start..]
    && (out.0 != BadRequest ==> out.1.View() == m.View().(data := parsed.1))
  }

  lemma SuffixSame(a: string, b: string, n: nat, k: nat)
    requires n <= k <= |a| == |b| && a[n..] == b[n..]
    ensures a[k..] == b[k..]
  {
    assert a[k..] == a[n..][k - n..] && b[k..] == b[n..][k - n..];
  }

  lemma RequestLineTaken(m: Memory, received: string, text: nat, line: string)
    requires m.Valid(received) && m.state.RequestLine? && Holds(m.mem, text, line) && text + |line| < m.start
    ensures Takes(m, received, PraseRequestLine(m, text),
                  match ParseRequestLine(line)
                  case None => (BadRequest, m.View().data)
                  case Some(path) => (NoRequest, m.View().data.(url := Some(path), state := Header)))
  {
    hide PraseRequestLine, ParseRequestLine, CString;
    var path := RequestLineOutcome(m, text, line);
    var r := PraseRequestLine(m, text).1;
    UrlTaken(m, received, r, path, text, text + |line|);
    SuffixSame(r.mem, m.mem, text + |line|, m.start);
  }

  lemma HostHolds(mem: string, text: nat, line: string)
    requires Holds(mem, text, line) && 5 <= |line|
    ensures var k := LeadingBlanks(line[5..]);
            var value := HeaderValue(line, 5);
            Holds(mem, text + 5 + k, value) && text + 5 + k + |value| == text + |line|
  {
    HoldsTail(mem, text, line, 5);
    HoldsTail(mem, text + 5, line[5..], LeadingBlanks(line[5..]));
  }

  lemma HeaderParsed(m: Memory, text: nat, line: string, p: Request)
    requires Holds(m.mem, text, line) && line != "" && p.linger == m.linger && p.length == m.length
    ensures var (ret, r) := PraseHeaders(m, text); var q := ParseHeader(p, line);
            && ret == NoRequest && q == p.(host := q.host, linger := r.linger, length := r.length)
            && ((q.host == p.host && r.host == m.host)
                || (q.host.Some? && Holds(m.mem, r.host, q.host.value) && r.host + |q.host.value| == text + |line|))
  {
    hide CString, Atol, ToInt32, LowerChar, LeadingBlanks, Holds;
    HoldsAt(m.mem, text, line);
    if StartsWith(line, "host:") {
      HostHolds(m.mem, text, line);
    }
  }

  lemma HeaderLineTaken(m: Memory, received: string, text: nat, line: string)
    requires m.Valid(received) && m.state.Header? && Holds(m.mem, text, line) && text + |line| < m.start
    ensures Takes(m, received, PraseHeaders(m, text),
                  if line != "" then (NoRequest, ParseHeader(m.View().data, line))
                  else (if m.length != 0 then BodyPending else GetRequest, m.View().data))
  {
    hide CString, ParseHeader;
    HoldsAt(m.mem, text, line);
    if line != "" {
      hide PraseHeaders;
      HeaderParsed(m, text, line, m.View().data);
      HeaderTaken(m, received, PraseHeaders(m, text).1, ParseHeader(m.View().data, line));
    }
  }

  // The switch of process_read on a line, in place and on the request.
  lemma LineTakes(m: Memory, received: string, text: nat, raw: string)
    requires m.Valid(received) && Holds(m.mem, text, CString(raw)) && text + |CString(raw)| < m.start
    ensures Takes(m, received, TakeLine(m, text), ParseText(m.View().data, raw))
  {
    hide CString, PraseRequestLine, PraseHeaders, ParseRequestLine, ParseHeader, Takes, Holds;
    match m.state {
      case RequestLine => RequestLineTaken(m, received, text, CString(raw));
      case Header => HeaderLineTaken(m, received, text, CString(raw));
    }
  }

  // One turn of the loop: a complete line is taken as HttpSpec takes it, and without one only
  // the checked index moves.
  ghost predicate Turns(m: Memory, received: string, out: (bool, Verdict, Memory)) {
    var (going, verdict, r) := out;
    && m.Valid(received) && r.Valid(received) && |r.mem| == |m.mem| && m.checked <= r.checked
    && r.mem[r.checked..] == m.mem[r.checked..]
    && match Scan(received, m.checked)
       case Line(e) =>
         m.start <= e && e + 2 == r.checked == r.start
         && var (v, d) := ParseText(m.View().data, received[m.start..e]);
            verdict == v && going == (v == NoRequest)
            && (v != BadRequest ==> r.View() == Cursor(e + 2, e + 2, d))
       case Bad(i) => !going && verdict == NoRequest && r.View() == m.View().(checked := i)
       case Open(i) => !going && verdict == NoRequest && r.View() == m.View().(checked := i)
  }

  lemma LineTurn(m: Memory, e: nat)
    requires m.start <= m.checked <= m.read <= |m.mem| && Scan(m.mem[..m.read], m.checked) == Line(e)
    ensures Turn(m) == (var (v, r) := TakeLine(m.AfterLine(e), m.start); (v == NoRequest, v, r))
  {
    hide Scan, TakeLine;
  }

  lemma LineTurns(m: Memory, received: string, e: nat, out: (Verdict, Memory))
    requires m.Valid(received) && Scan(received, m.checked) == Line(e) && m.start <= e
    requires |out.1.mem| == |m.mem| && out.1.start == out.1.checked == e + 2 && out.1.Valid(received)
    requires out.1.mem[e + 2..] == m.mem[e + 2..]
    requires var (v, d) := ParseText(m.View().data, received[m.start..e]);
             out.0 == v && (v != BadRequest ==> out.1.View() == Cursor(e + 2, e + 2, d))
    ensures Turns(m, received, (out.0 == NoRequest, out.0, out.1))
  {
    hide Scan, ParseText, CString;
  }

  lemma TurnRefines(m: Memory, received: string)
    requires m.Valid(received)
    ensures Turns(m, received, Turn(m))
  {
    hide CString, TakeLine, ParseText, Scan, Turn, Turns, Holds, Memory.Pointer, Memory.Text;
    ScanAgrees(m, received);
    match Scan(received, m.checked) {
      case Line(e) =>
        LineStep(ParseText, m.View(), received, e);
        LineTaken(m, received, e);
        LineText(m, received, e);
        LineTurn(m, e);
        LineTakes(m.AfterLine(e), received, m.start, received[m.start..e]);
        LineTurns(m, received, e, TakeLine(m.AfterLine(e), m.start));
      case Bad(i) => StopTurns(m, received, i);
      case Open(i) => StopTurns(m, received, i);
    }
  }

  lemma StopTurns(m: Memory, received: string, i: nat)
    requires m.Valid(received) && Scan(m.mem[..m.read], m.checked) == Scan(received, m.checked)
    requires Scan(received, m.checked) == Bad(i) || Scan(received, m.checked) == Open(i)
    ensures Turns(m, received, Turn(m))
  {
    hide Scan, TakeLine, CString;
    Stopped(m, received, i);
  }

  // ----- Whole calls, and whole connections -----

  // The result of a call in place stands for a result on the byte stream.  A bad request says
  // nothing of the pointer its parser left behind.
  ghost predicate Stands(out: (Verdict, Memory), spec: (Verdict, Cursor<Request>)) {
    && out.1.Pointer(out.1.url) && out.1.Pointer(out.1.host)
    && out.0 == spec.0 && out.1.start == spec.1.start && out.1.checked == spec.1.checked
    && (out.0 != BadRequest ==> out.1.View() == spec.1)
  }

  // process_read in place is Process on the stream; it never alters bytes at or past the checked
  // index, which never moves back.
  lemma {:induction false} ReadRefines(m: Memory, received: string)
    requires m.Valid(received)
    ensures var (v, r) := ProcessRead(m);
            && r.Valid(received) && Stands((v, r), Process(ParseText, m.View(), received))
            && |r.mem| == |m.mem| && m.checked <= r.checked <= r.read && r.mem[r.checked..] == m.mem[r.checked..]
    decreases m.read - m.checked
  {
    hide ParseText, CString, Turn, Process, Scan;
    TurnRefines(m, received);
    var (going, verdict, r) := Turn(m);
    if Scan(received, m.checked).Line? {
      LineStep(ParseText, m.View(), received, Scan(received, m.checked).end);
    } else {
      StopStep(ParseText, m.View(), received);
    }
    if going {
      ReadRefines(r, received);
      SuffixSame(r.mem, m.mem, r.checked, ProcessRead(r).1.checked);
    }
  }

  // read() followed by process_read(), once for each chunk.
  function FeedMemory(m: Memory, chunks: seq<string>): (Verdict, Memory)
    requires m.start <= m.checked <= m.read && m.read + |Concat(chunks)| < |m.mem|
    decreases chunks
  {
    if chunks == [] then (NoRequest, m)
    else
      var (verdict, r) := ProcessRead(Read(m, chunks[0]));
      if verdict == NoRequest then FeedMemory(r, chunks[1..]) else (verdict, r)
  }

  lemma {:induction false} FeedRefines(m: Memory, received: string, chunks: seq<string>)
    requires m.Valid(received) && m.read + |Concat(chunks)| < |m.mem|
    ensures Stands(FeedMemory(m, chunks), Feed(ParseText, m.View(), received, chunks))
    decreases chunks
  {
    hide ParseText, CString, Process, ProcessRead, Read;
    if chunks != [] {
      var s := received + chunks[0];
      Received(m, received, chunks[0]);
      ReadRefines(Read(m, chunks[0]), s);
      var (verdict, r) := ProcessRead(Read(m, chunks[0]));
      if verdict == NoRequest {
        FeedRefines(r, s, chunks[1..]);
      }
    }
  }

  function Fresh(mem: string): Memory { Memory(mem, 0, 0, 0, RequestLine, -1, -1, false, 0) }

  // However the bytes of a stream that fits the buffer are cut into reads, the first verdict
  // and the path, the Host and the keep-alive flag the parser holds are the same.
  lemma InPlaceChunkIndependence(mem: string, chunks: seq<string>, other: seq<string>)
    requires chunks != [] && other != [] && Concat(chunks) == Concat(other) && |Concat(chunks)| < |mem|
    ensures var a, b := FeedMemory(Fresh(mem), chunks), FeedMemory(Fresh(mem), other);
            && a.0 == b.0 && a.1.start == b.1.start && a.1.checked == b.1.checked
            && Stands(a, Process(ParseText, Initial(), Concat(chunks)))
            && Stands(b, Process(ParseText, Initial(), Concat(chunks)))
            && (a.0 != BadRequest ==> a.1.View() == b.1.View())
  {
    hide ParseText, CString, Process, FeedMemory, Feed;
    var m := Fresh(mem);
    assert mem[0..0] == ""[0..];
    FeedRefines(m, "", chunks);
    FeedRefines(m, "", other);
    ChunkIndependence(Concat(chunks), chunks);
    ChunkIndependence(Concat(chunks), other);
  }
}
