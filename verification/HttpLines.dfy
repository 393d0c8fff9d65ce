/**
 Lines ended by CR LF, without a parser: the loop of HttpFraming does to the bytes
 received what its handler does to their lines, one after the other, until one
 decides.
 */
module HttpLines {
  import opened Bytes
  import opened HttpFraming

  const CRLF: string := "\r\n"

  function Joined(lines: seq<string>): string {
    if lines == [] then "" else lines[0] + CRLF + Joined(lines[1..])
  }

  predicate NoLineFeed(lines: seq<string>) {
    forall i :: 0 <= i < |lines| ==> '\n' !in lines[i]
  }

  // The complete lines from position `at` on, up to the first bare LF.
  function Split(s: string, at: nat): seq<string>
    requires at <= |s|
    decreases |s| - at
  {
    match Scan(s, at)
    case Line(e) => if at <= e then [s[at..e]] + Split(s, e + 2) else []
    case _ => []
  }

  // The handler on line after line, until it decides.
  function Fold<R>(f: Handler<R>, data: R, lines: seq<string>): (Verdict, R)
    decreases lines
  {
    if lines == [] then (NoRequest, data)
    else
      var (verdict, d) := f(data, lines[0]);
      if verdict == NoRequest then Fold(f, d, lines[1..]) else (verdict, d)
  }

  lemma {:induction false} ProcessIsFold<R>(f: Handler<R>, data: R, s: string, at: nat)
    requires at <= |s| && (at > 0 ==> s[at - 1] != '\r')
    ensures var (verdict, q) := Process(f, Cursor(at, at, data), s);
            (verdict, q.data) == Fold(f, data, Split(s, at))
    decreases |s| - at
  {
    if Scan(s, at).Line? {
      var e := Scan(s, at).end;
      var (verdict, d) := f(data, s[at..e]);
      assert ([s[at..e]] + Split(s, e + 2))[1..] == Split(s, e + 2);
      if verdict == NoRequest {
        ProcessIsFold(f, d, s, e + 2);
      }
    }
  }

  // ----- Splitting and joining -----

  lemma {:induction false} ScanLine(s: string, from: nat, e: nat)
    requires from <= e && e + 2 <= |s| && s[e] == '\r' && s[e + 1] == '\n'
    requires forall k :: from <= k < e ==> s[k] != '\n'
    ensures Scan(s, from) == Line(e)
    decreases e - from
  {
    if from < e {
      ScanLine(s, from + 1, e);
    }
  }

  lemma {:induction false} ScannedLine(s: string, from: nat)
    requires from <= |s| && Scan(s, from).Line?
    ensures forall k :: from <= k < Scan(s, from).end ==> s[k] != '\n'
    decreases |s| - from
  {
    if Scan(s, from).end > from {
      ScannedLine(s, from + 1);
    }
  }

  // A line and its CR LF ahead of position `at`.
  lemma LineAhead(s: string, at: nat, line: string, tail: string)
    requires at <= |s| && s[at..] == line + (CRLF + tail) && '\n' !in line
    ensures var e := at + |line|;
            e + 2 <= |s| && s[at..e] == line && s[e + 2..] == tail && Scan(s, at) == Line(e)
  {
    var e := at + |line|;
    var text := line + (CRLF + tail);
    assert |s| == at + |text|;
    forall k | at <= k < e
      ensures s[k] == line[k - at] && s[k] != '\n'
    {
      assert s[k] == text[k - at];
    }
    assert s[e] == text[|line|] && s[e + 1] == text[|line| + 1];
    assert s[e + 2..] == text[|line| + 2..];
    ScanLine(s, at, e);
  }

  lemma JoinedStep(lines: seq<string>, rest: string)
    requires lines != []
    ensures Joined(lines) + rest == lines[0] + (CRLF + (Joined(lines[1..]) + rest))
  {
    assert (lines[0] + CRLF + Joined(lines[1..])) + rest == lines[0] + (CRLF + (Joined(lines[1..]) + rest));
  }

  // Joining lines and splitting again gives the lines, whatever follows them.
  lemma {:induction false} JoinedSplits(s: string, at: nat, lines: seq<string>, rest: string)
    requires at <= |s| && s[at..] == Joined(lines) + rest && NoLineFeed(lines)
    ensures lines <= Split(s, at)
    decreases lines
  {
    if lines != [] {
      JoinedStep(lines, rest);
      LineAhead(s, at, lines[0], Joined(lines[1..]) + rest);
      var next := at + |lines[0]| + 2;
      JoinedSplits(s, next, lines[1..], rest);
      SplitStep(s, at, lines, next);
    }
  }

  lemma SplitStep(s: string, at: nat, lines: seq<string>, next: nat)
    requires lines != [] && next == at + |lines[0]| + 2 && next <= |s|
    requires Scan(s, at) == Line(next - 2) && s[at..next - 2] == lines[0] && lines[1..] <= Split(s, next)
    ensures lines <= Split(s, at)
  {
    assert Split(s, at) == [lines[0]] + Split(s, next);
    assert lines == [lines[0]] + lines[1..];
  }

  lemma SplitFirst(s: string, at: nat)
    requires at <= |s| && Scan(s, at).Line? && at <= Scan(s, at).end
    ensures var e := Scan(s, at).end; Split(s, at) == [s[at..e]] + Split(s, e + 2)
  {
  }

  // And the split lines, joined, are where they came from.
  lemma {:induction false} SplitJoins(s: string, at: nat) returns (rest: string)
    requires at <= |s|
    ensures s[at..] == Joined(Split(s, at)) + rest
    ensures NoLineFeed(Split(s, at))
    decreases |s| - at
  {
    if Scan(s, at).Line? && at <= Scan(s, at).end {
      var e := Scan(s, at).end;
      ScannedLine(s, at);
      hide Scan, Joined, Split;
      SplitFirst(s, at);
      rest := SplitJoins(s, e + 2);
      LineJoins(s, at, e, Split(s, e + 2), rest);
    } else {
      rest := s[at..];
    }
  }

  lemma LineJoins(s: string, at: nat, e: nat, more: seq<string>, rest: string)
    requires at <= e && e + 2 <= |s| && s[e] == '\r' && s[e + 1] == '\n' && s[e + 2..] == Joined(more) + rest
    ensures s[at..] == Joined([s[at..e]] + more) + rest
  {
    var line := s[at..e];
    assert ([line] + more)[1..] == more;
    assert s[at..] == line + CRLF + s[e + 2..];
    assert line + CRLF + (Joined(more) + rest) == (line + CRLF + Joined(more)) + rest;
  }

  lemma {:induction false} JoinedAppend(a: seq<string>, b: seq<string>)
    ensures Joined(a + b) == Joined(a) + Joined(b)
    decreases a
  {
    if a == [] {
      assert a + b == b;
    } else {
      JoinedAppend(a[1..], b);
      assert (a + b)[1..] == a[1..] + b;
    }
  }

  // ----- The lines a handler decides on -----

  // The handler decides on the last of these lines, and not before.
  predicate Decides<R>(f: Handler<R>, data: R, lines: seq<string>)
    decreases lines
  {
    lines != [] &&
    var (verdict, d) := f(data, lines[0]);
    if |lines| == 1 then verdict != NoRequest else verdict == NoRequest && Decides(f, d, lines[1..])
  }

  // Once decided, what follows does not count.
  lemma {:induction false} FoldDecided<R>(f: Handler<R>, data: R, lines: seq<string>, all: seq<string>)
    requires Decides(f, data, lines) && lines <= all
    ensures Fold(f, data, all) == Fold(f, data, lines) && Fold(f, data, lines).0 != NoRequest
    decreases lines
  {
    assert all[0] == lines[0];
    if |lines| > 1 {
      FoldDecided(f, f(data, lines[0]).1, lines[1..], all[1..]);
    }
  }

  lemma {:induction false} DecidingLines<R>(f: Handler<R>, data: R, all: seq<string>) returns (n: nat)
    requires Fold(f, data, all).0 != NoRequest
    ensures n <= |all| && Decides(f, data, all[..n])
    decreases all
  {
    var (verdict, d) := f(data, all[0]);
    if verdict == NoRequest {
      var m := DecidingLines(f, d, all[1..]);
      n := m + 1;
      assert all[..n][1..] == all[1..][..m];
    } else {
      n := 1;
    }
  }

  // ----- Together -----

  // A text that starts with lines the handler decides on is decided as those lines are ...
  lemma LinesAreRead<R>(f: Handler<R>, data: R, lines: seq<string>, rest: string)
    requires Decides(f, data, lines) && NoLineFeed(lines)
    ensures var (verdict, q) := Process(f, Cursor(0, 0, data), Joined(lines) + rest);
            (verdict, q.data) == Fold(f, data, lines) && verdict != NoRequest
  {
    var s := Joined(lines) + rest;
    assert s[0..] == s;
    ProcessIsFold(f, data, s, 0);
    JoinedSplits(s, 0, lines, rest);
    FoldDecided(f, data, lines, Split(s, 0));
  }

  // The first n lines, joined, are where the text begins.
  lemma FirstLines(s: string, n: nat) returns (rest: string)
    requires n <= |Split(s, 0)|
    ensures s == Joined(Split(s, 0)[..n]) + rest && NoLineFeed(Split(s, 0)[..n])
  {
    var all := Split(s, 0);
    var end := SplitJoins(s, 0);
    rest := Joined(all[n..]) + end;
    assert all == all[..n] + all[n..];
    JoinedAppend(all[..n], all[n..]);
    assert s == s[0..] == (Joined(all[..n]) + Joined(all[n..])) + end;
  }

  // ... and a text on which the machine decides starts with such lines.
  lemma ReadAreLines<R>(f: Handler<R>, data: R, s: string) returns (lines: seq<string>, rest: string)
    requires Process(f, Cursor(0, 0, data), s).0 != NoRequest
    ensures s == Joined(lines) + rest && NoLineFeed(lines) && Decides(f, data, lines)
    ensures var (verdict, q) := Process(f, Cursor(0, 0, data), s); (verdict, q.data) == Fold(f, data, lines)
  {
    ProcessIsFold(f, data, s, 0);
    var all := Split(s, 0);
    var n := DecidingLines(f, data, all);
    FoldDecided(f, data, all[..n], all);
    lines := all[..n];
    rest := FirstLines(s, n);
  }
}
