/**
 The outer loop of process_read: find complete lines in the bytes received so far,
 hand each line to a handler, and remember where to resume when the bytes
 run out.  Nothing here depends on what the handler makes of a line.
 */
module HttpFraming {
  datatype Verdict = NoRequest | GetRequest | BadRequest | BodyPending

  // A position in the bytes received, and what the lines so far have yielded.
  datatype Cursor<R> = Cursor(
    start: nat,     // m_start_line
    checked: nat,   // m_checked_index
    data: R)

  // What a line does to the data, and whether the request is decided.
  type Handler<!R> = (R, string) -> (Verdict, R)

  // ----- Lines -----

  datatype Scanned =
    | Line(end: nat)    // CR LF at `end`
    | Bad(at: nat)      // a bare LF
    | Open(at: nat)     // no complete line yet; resume here

  // prase_line over the bytes received, from the checked index on.
  function Scan(s: string, i: nat): (r: Scanned)
    requires i <= |s|
    ensures match r
            case Line(e) => i <= e + 1 && e + 2 <= |s| && s[e] == '\r' && s[e + 1] == '\n'
            case Bad(at) => i <= at < |s|
            case Open(at) => i <= at <= |s|
    decreases |s| - i
  {
    if i == |s| then Open(i)
    else if s[i] == '\r' then
      if i + 1 == |s| then Open(i)
      else if s[i + 1] == '\n' then Line(i)
      else Scan(s, i + 1)
    else if s[i] == '\n' then
      if i > 1 && s[i - 1] == '\r' then Line(i - 1) else Bad(i)
    else Scan(s, i + 1)
  }

  // Where a scan may resume: at or after the start of a line that follows a complete one.
  ghost predicate Ready<R>(p: Cursor<R>, s: string) {
    && p.start <= p.checked <= |s|
    && (p.start == p.checked && p.start > 0 ==> s[p.start - 1] != '\r')
  }

  // ----- One call of process_read -----

  ghost function Process<R>(f: Handler<R>, p: Cursor<R>, s: string): (r: (Verdict, Cursor<R>))
    requires Ready(p, s)
    ensures Ready(r.1, s) && p.checked <= r.1.checked
    decreases |s| - p.checked
  {
    match Scan(s, p.checked)
    case Bad(i) => (NoRequest, p.(checked := i))
    case Open(i) => (NoRequest, p.(checked := i))
    case Line(e) =>
      var (verdict, data) := f(p.data, s[p.start..e]);
      var q := Cursor(e + 2, e + 2, data);
      if verdict == NoRequest then Process(f, q, s) else (verdict, q)
  }

  // One turn of the loop: a complete line is handed over, and the rest is as if begun there ...
  lemma LineStep<R>(f: Handler<R>, p: Cursor<R>, s: string, e: nat)
    requires Ready(p, s) && Scan(s, p.checked) == Line(e)
    ensures p.start <= e
    ensures var (verdict, d) := f(p.data, s[p.start..e]);
            var q := Cursor(e + 2, e + 2, d);
            Ready(q, s) && Process(f, p, s) == if verdict == NoRequest then Process(f, q, s) else (verdict, q)
  {
  }

  // ... and without a complete line the loop ends.
  lemma StopStep<R>(f: Handler<R>, p: Cursor<R>, s: string)
    requires Ready(p, s) && !Scan(s, p.checked).Line?
    ensures Process(f, p, s) == (NoRequest, p.(checked := Scan(s, p.checked).at))
  {
  }

  // Each read brings a chunk; process_read runs on all that has been received.
  ghost function Feed<R>(f: Handler<R>, p: Cursor<R>, received: string, chunks: seq<string>): (Verdict, Cursor<R>)
    requires Ready(p, received)
    decreases chunks
  {
    if chunks == [] then (NoRequest, p)
    else
      var s := received + chunks[0];
      var (verdict, q) := Process(f, p, s);
      if verdict == NoRequest then Feed(f, q, s, chunks[1..]) else (verdict, q)
  }

  function Concat(chunks: seq<string>): string {
    if chunks == [] then [] else chunks[0] + Concat(chunks[1..])
  }

  // ----- How the bytes are cut does not matter -----

  // A scan that stopped short resumes as if it had never stopped.
  lemma {:induction false} ScanGrows(a: string, b: string, from: nat)
    requires from <= |a|
    ensures match Scan(a, from)
            case Line(_) => Scan(a + b, from) == Scan(a, from)
            case Bad(i) => Scan(a + b, from) == Bad(i) && Scan(a + b, i) == Bad(i)
            case Open(i) => Scan(a + b, from) == Scan(a + b, i)
    decreases |a| - from
  {
    if from < |a| && a[from] != '\n' && !(a[from] == '\r' && (from + 1 == |a| || a[from + 1] == '\n')) {
      ScanGrows(a, b, from + 1);
    }
  }

  lemma {:induction false} ProcessGrows<R>(f: Handler<R>, p: Cursor<R>, a: string, b: string)
    requires Ready(p, a)
    ensures Ready(p, a + b)
    ensures var (verdict, q) := Process(f, p, a);
            && Ready(q, a + b)
            && Process(f, p, a + b) == if verdict == NoRequest then Process(f, q, a + b) else (verdict, q)
    decreases |a| - p.checked
  {
    ScanGrows(a, b, p.checked);
    match Scan(a, p.checked) {
      case Bad(i) =>
      case Open(i) =>
      case Line(e) =>
        assert (a + b)[p.start..e] == a[p.start..e];
        var (verdict, data) := f(p.data, a[p.start..e]);
        if verdict == NoRequest {
          ProcessGrows(f, Cursor(e + 2, e + 2, data), a, b);
        }
    }
  }

  lemma {:induction false} FeedIsProcess<R>(f: Handler<R>, p: Cursor<R>, received: string, chunks: seq<string>)
    requires Ready(p, received) && chunks != []
    ensures var s := received + Concat(chunks);
            Ready(p, s) && Feed(f, p, received, chunks) == Process(f, p, s)
    decreases chunks
  {
    hide Scan, Process;
    var s1 := received + chunks[0];
    ProcessGrows(f, p, received, chunks[0]);
    assert received + Concat(chunks) == s1 + Concat(chunks[1..]);
    var (verdict, q) := Process(f, p, s1);
    ProcessGrows(f, p, s1, Concat(chunks[1..]));
    if verdict == NoRequest {
      if chunks[1..] == [] {
        assert s1 + Concat(chunks[1..]) == s1;
      } else {
        FeedIsProcess(f, q, s1, chunks[1..]);
      }
    }
  }
}
