/**
 Sending a response: a header in the write buffer and a mapped file behind it, gathered
 by writev from two regions that http_conn::write moves along as the kernel takes bytes.

 What is sent is recorded as the memory cells the bytes were read from, so that wrong
 bytes never look right by coincidence.
 */
module HttpWriter {
  import opened Bytes

  // A byte of the write buffer, or of the memory at and around the mapped file.
  datatype Cell = Buffered(i: int) | Mapped(i: int)

  datatype Iov = Iov(base: int, len: nat)

  datatype Response = Response(
    header: nat,     // m_write_index
    file: nat,       // the size of the mapped file
    two: bool,       // m_iv_count == 2
    head: Iov,       // m_iv[0], relative to the write buffer
    body: Iov,       // m_iv[1], relative to the file
    haveSent: nat,
    toSend: nat,
    sent: seq<Cell>)

  // The iovec set-up of process_write, with a file and without one.
  function ServeFile(header: nat, file: nat): Response {
    Response(header, file, true, Iov(0, header), Iov(0, file), 0, header + file, [])
  }

  function ServeBuffer(header: nat): Response {
    Response(header, 0, false, Iov(0, header), Iov(0, 0), 0, header, [])
  }

  function BufferedCells(from: int, len: nat): (cells: seq<Cell>)
    ensures |cells| == len
  {
    seq(len, k => Buffered(from + k))
  }

  function MappedCells(from: int, len: nat): (cells: seq<Cell>)
    ensures |cells| == len
  {
    seq(len, k => Mapped(from + k))
  }

  // What is to be sent, and what the regions still hold.
  function Wanted(r: Response): seq<Cell> { BufferedCells(0, r.header) + MappedCells(0, r.file) }

  function Pending(r: Response): seq<Cell> {
    BufferedCells(r.head.base, r.head.len) + if r.two then MappedCells(r.body.base, r.body.len) else []
  }

  // One writev, of which the kernel takes at most n bytes, and the adjustment after it.
  function Took(r: Response, n: nat): Response
    requires |Pending(r)| <= r.toSend
  {
    var m := Min(n, |Pending(r)|);
    var s := r.(haveSent := r.haveSent + m, toSend := r.toSend - m, sent := r.sent + Pending(r)[..m]);
    if s.haveSent >= r.head.len then
      s.(head := r.head.(len := 0), body := Iov(s.haveSent - r.header, s.toSend))
    else
      s.(head := Iov(s.haveSent, r.head.len - m))
  }

  // ----- What can be said of every response on its way -----

  // So many bytes are out, and the regions hold the rest.
  ghost predicate OnTrack(r: Response) {
    && (r.two || r.file == 0)
    && r.haveSent + r.toSend == r.header + r.file && r.sent == Wanted(r)[..r.haveSent]
    && if r.haveSent < r.header then
         r.head == Iov(r.haveSent, r.header - r.haveSent) && (r.two ==> r.body == Iov(0, r.file))
       else r.head.len == 0 && r.body == Iov(r.haveSent - r.header, r.toSend)
  }

  // The rest of the header has been dropped after its first k bytes.
  ghost predicate Dropped(r: Response, k: nat) {
    && (r.two || r.file == 0)
    && k < r.header && k <= r.haveSent && (!r.two ==> k == r.haveSent)
    && r.haveSent + r.toSend == r.header + r.file
    && r.head.len == 0 && r.body == Iov(r.haveSent - r.header, r.toSend)
    && r.sent == BufferedCells(0, k) + MappedCells(k - r.header, r.haveSent - k)
  }

  // The write ends inside the header, but past what the header region had left: total bytes
  // sent are compared with a length that earlier writes have already shortened.
  ghost predicate Slips(r: Response, n: nat) {
    var total := r.haveSent + n;
    r.haveSent < r.header && total < r.header <= r.haveSent + total
  }

  lemma OnTrackPending(r: Response)
    requires OnTrack(r)
    ensures Pending(r) == Wanted(r)[r.haveSent..] && |Pending(r)| == r.toSend
  {
  }

  lemma OnTrackSent(r: Response)
    requires OnTrack(r)
    ensures r.sent + Pending(r) == Wanted(r)
  {
    OnTrackPending(r);
  }

  lemma DroppedPending(r: Response, k: nat)
    requires Dropped(r, k)
    ensures Pending(r) == if r.two then MappedCells(r.haveSent - r.header, r.toSend) else []
  {
  }

  lemma TookOnTrack(r: Response, n: nat)
    requires OnTrack(r)
    ensures |Pending(r)| == r.toSend
    ensures if Slips(r, n) then Dropped(Took(r, n), Took(r, n).haveSent) else OnTrack(Took(r, n))
  {
    OnTrackPending(r);
    var m := Min(n, |Pending(r)|);
    assert Wanted(r)[..r.haveSent] + Wanted(r)[r.haveSent..][..m] == Wanted(r)[..r.haveSent + m];
    if Slips(r, n) {
      assert Wanted(r)[..r.haveSent + m] == BufferedCells(0, r.haveSent + m);
    }
  }

  lemma MappedTake(from: int, len: nat, m: nat)
    requires m <= len
    ensures MappedCells(from, len)[..m] == MappedCells(from, m)
  {
  }

  lemma MappedJoin(from: int, a: nat, b: nat)
    ensures MappedCells(from, a) + MappedCells(from + a, b) == MappedCells(from, a + b)
  {
  }

  lemma TookDropped(r: Response, n: nat, k: nat)
    requires Dropped(r, k)
    ensures |Pending(r)| <= r.toSend
    ensures Dropped(Took(r, n), k)
  {
    hide BufferedCells, MappedCells, Pending;
    DroppedPending(r, k);
    if r.two {
      var m := Min(n, r.toSend);
      MappedTake(r.haveSent - r.header, r.toSend, m);
      Appended(BufferedCells(0, k), MappedCells(k - r.header, r.haveSent - k), MappedCells(r.haveSent - r.header, m));
      MappedJoin(k - r.header, r.haveSent - k, m);
    }
  }

  lemma Appended<T>(a: seq<T>, b: seq<T>, c: seq<T>)
    ensures (a + b) + c == a + (b + c)
  {
  }

  ghost predicate Known(r: Response) { OnTrack(r) || exists k :: Dropped(r, k) }

  // ----- Runs: all the writes of a response, over any number of calls -----

  ghost predicate Start(r: Response) {
    r == ServeFile(r.header, r.file) || r == ServeBuffer(r.header)
  }

  ghost function Run(r: Response, ns: seq<nat>): (s: Response)
    requires Start(r)
    ensures s.header == r.header && s.file == r.file && s.two == r.two
    ensures Known(s)
    decreases |ns|
  {
    if ns == [] then r
    else
      var s := Run(r, ns[..|ns| - 1]);
      var n := ns[|ns| - 1];
      Moves(s, n);
      Took(s, n)
  }

  lemma Moves(r: Response, n: nat)
    requires Known(r)
    ensures |Pending(r)| <= r.toSend && Known(Took(r, n))
  {
    if OnTrack(r) {
      TookOnTrack(r, n);
    } else {
      var k :| Dropped(r, k);
      TookDropped(r, n, k);
    }
  }

  ghost predicate NeverSlips(r: Response, ns: seq<nat>)
    requires Start(r)
    decreases |ns|
  {
    ns == [] || (NeverSlips(r, ns[..|ns| - 1]) && !Slips(Run(r, ns[..|ns| - 1]), ns[|ns| - 1]))
  }

  lemma {:induction false} TrackKept(r: Response, ns: seq<nat>)
    requires Start(r)
    ensures var s := Run(r, ns); if NeverSlips(r, ns) then OnTrack(s) else exists k :: Dropped(s, k)
    decreases |ns|
  {
    if ns != [] {
      TrackKept(r, ns[..|ns| - 1]);
      var s := Run(r, ns[..|ns| - 1]);
      var n := ns[|ns| - 1];
      if NeverSlips(r, ns[..|ns| - 1]) {
        TookOnTrack(s, n);
      } else {
        var k :| Dropped(s, k);
        TookDropped(s, n, k);
      }
    }
  }

  lemma RunOne(r: Response, ns: seq<nat>, n: nat)
    requires Start(r)
    ensures |Pending(Run(r, ns))| <= Run(r, ns).toSend
    ensures Run(r, []) == r && Run(r, ns + [n]) == Took(Run(r, ns), n)
    ensures NeverSlips(r, []) && (NeverSlips(r, ns + [n]) <==> NeverSlips(r, ns) && !Slips(Run(r, ns), n))
  {
    hide Known, Pending, Took;
    Moves(Run(r, ns), n);
    assert (ns + [n])[..|ns|] == ns;
  }

  // What is out, with what the regions hold, is the response: exactly when no write has slipped.
  lemma ExactIffNeverSlips(r: Response, ns: seq<nat>)
    requires Start(r)
    ensures var s := Run(r, ns); s.sent + Pending(s) == Wanted(r) <==> NeverSlips(r, ns)
  {
    hide Run, NeverSlips, Pending, OnTrack, Dropped, Known, BufferedCells, MappedCells;
    var s := Run(r, ns);
    TrackKept(r, ns);
    if NeverSlips(r, ns) {
      OnTrackSent(s);
    } else {
      var k :| Dropped(s, k);
      NotWanted(s, k);
    }
  }

  lemma NotWanted(r: Response, k: nat)
    requires Dropped(r, k)
    ensures r.sent + Pending(r) != Wanted(r)
  {
    DroppedPending(r, k);
    var all := r.sent + Pending(r);
    assert Wanted(r)[k] == Buffered(k);
    if r.two {
      assert all[k] == if k < r.haveSent then r.sent[k] else Pending(r)[0];
    } else {
      assert |all| == k;
    }
  }

  // A response reported as finished went out as it was: exactly when no write slipped.
  lemma FinishedExactly(r: Response, ns: seq<nat>)
    requires Start(r) && Run(r, ns).toSend == 0
    ensures Run(r, ns).sent == Wanted(r) <==> NeverSlips(r, ns)
  {
    hide Run, NeverSlips, OnTrack, Dropped;
    var s := Run(r, ns);
    Moves(s, 0);
    ExactIffNeverSlips(r, ns);
    assert s.sent + Pending(s) == s.sent;
  }

  // A response in one region that slips never finishes: nothing is pending any more.
  lemma SlippedIsStuck(r: Response, ns: seq<nat>)
    requires r == ServeBuffer(r.header) && !NeverSlips(r, ns)
    ensures var s := Run(r, ns); Pending(s) == [] && s.toSend > 0 && forall n :: Took(s, n) == s.(body := Took(s, n).body)
  {
    hide Run, NeverSlips;
    TrackKept(r, ns);
    var k :| Dropped(Run(r, ns), k);
    DroppedPending(Run(r, ns), k);
  }

  // It takes two writes that end inside the header: a response whose header leaves in one piece,
  // or in two, is safe.
  lemma SlipNeedsTwo(r: Response, ns: seq<nat>, n: nat)
    requires Start(r) && NeverSlips(r, ns) && Slips(Run(r, ns), n)
    ensures 0 < Run(r, ns).haveSent < r.header && Run(r, ns + [n]).haveSent < r.header
    ensures !NeverSlips(r, ns + [n])
  {
    hide OnTrack, Dropped;
    assert (ns + [n])[..|ns|] == ns;
    TrackKept(r, ns);
    TookOnTrack(Run(r, ns), n);
    OnTrackPending(Run(r, ns));
  }

  // A file of five bytes goes out behind a header of 81.  After writes of 40 and two bytes the
  // rest of the header is never sent.
  lemma LostHeaderBytes()
    ensures var r := ServeFile(81, 5);
            Run(r, [40, 2, 44]).toSend == 0 && Run(r, [40, 2, 44]).sent != Wanted(r)
  {
    hide Run, NeverSlips, Pending, BufferedCells, MappedCells;
    var r := ServeFile(81, 5);
    var s, t := Run(r, [40]), Run(r, [40, 2]);
    assert [] + [40] == [40] && [40] + [2] == [40, 2] && [40, 2] + [44] == [40, 2, 44];
    RunOne(r, [], 40);
    RunOne(r, [40], 2);
    RunOne(r, [40, 2], 44);
    TookOnTrack(Run(r, []), 40);
    TookOnTrack(s, 2);
    OnTrackPending(Run(r, []));
    OnTrackPending(s);
    DroppedPending(t, 42);
    FinishedExactly(r, [40, 2, 44]);
  }

  // ----- http_conn::write -----

  datatype Answer = Wrote(n: nat) | WouldBlock | Failed

  datatype Outcome = Waiting | Broken | Finished

  class Writer {
    var writeIndex: nat
    var fileSize: nat
    var two: bool
    var head: Iov
    var body: Iov
    var haveSent: nat
    var toSend: nat
    ghost var sent: seq<Cell>
    ghost const start: Response
    ghost var taken: seq<nat>   // how much each writev was allowed so far

    ghost function View(): Response
      reads this
    {
      Response(writeIndex, fileSize, two, head, body, haveSent, toSend, sent)
    }

    ghost predicate Valid()
      reads this
    {
      Start(start) && View() == Run(start, taken)
    }

    constructor File(header: nat, file: nat)
      ensures Valid() && start == ServeFile(header, file) && taken == []
    {
      writeIndex, fileSize, two, haveSent, toSend := header, file, true, 0, header + file;
      head, body := Iov(0, header), Iov(0, file);
      sent, taken, start := [], [], ServeFile(header, file);
    }

    constructor Text(header: nat)
      ensures Valid() && start == ServeBuffer(header) && taken == []
    {
      writeIndex, fileSize, two, haveSent, toSend := header, 0, false, 0, header;
      head, body := Iov(0, header), Iov(0, 0);
      sent, taken, start := [], [], ServeBuffer(header);
    }

    method Adjust(n: nat)
      requires |Pending(View())| <= toSend
      modifies this`head, this`body, this`haveSent, this`toSend, this`sent
      ensures View() == Took(old(View()), n)
    {
      var pending := head.len + if two then body.len else 0;
      var temp := Min(n, pending);
      sent := sent + Pending(View())[..temp];
      haveSent := haveSent + temp;
      toSend := toSend - temp;
      if haveSent >= head.len {
        head := head.(len := 0);
        body := Iov(haveSent - writeIndex, toSend);
      } else {
        head := Iov(haveSent, head.len - temp);
      }
    }

    // Writes until the kernel would block, fails, or everything is out.  `answers` are those of
    // writev; after the last the socket is full.  `used` of them were bytes taken.
    method Write(answers: seq<Answer>) returns (outcome: Outcome, used: nat)
      requires Valid()
      modifies this`head, this`body, this`haveSent, this`toSend, this`sent, this`taken
      ensures Valid() && used <= |answers|
      ensures |taken| == |old(taken)| + used && old(taken) <= taken
      ensures forall i :: 0 <= i < used ==> answers[i] == Wrote(taken[|old(taken)| + i])
      // it stops as soon as everything is out, and before that only at another answer
      ensures outcome.Finished? <==> toSend == 0
      ensures outcome.Broken? <==> toSend != 0 && used < |answers| && answers[used].Failed?
      ensures outcome.Waiting? <==> toSend != 0 && (used == |answers| || answers[used].WouldBlock?)
      ensures sent + Pending(View()) == Wanted(start) <==> NeverSlips(start, taken)
      ensures outcome.Finished? ==> (sent == Wanted(start) <==> NeverSlips(start, taken))
    {
      hide Run, NeverSlips, Pending, Took;
      used := WriteAll(answers);
      ExactIffNeverSlips(start, taken);
      if toSend == 0 {
        FinishedExactly(start, taken);
        outcome := Finished;
      } else if used < |answers| && answers[used].Failed? {
        outcome := Broken;
      } else {
        outcome := Waiting;
      }
    }

    // The loop: as long as writev takes bytes and there are some to send.
    method WriteAll(answers: seq<Answer>) returns (used: nat)
      requires Valid()
      modifies this`head, this`body, this`haveSent, this`toSend, this`sent, this`taken
      ensures Valid() && used <= |answers|
      ensures |taken| == |old(taken)| + used && old(taken) <= taken
      ensures forall i :: 0 <= i < used ==> answers[i] == Wrote(taken[|old(taken)| + i])
      ensures toSend == 0 || used == |answers| || !answers[used].Wrote?
    {
      hide Run, NeverSlips, Pending, Took;
      used := 0;
      while toSend != 0 && used < |answers| && answers[used].Wrote?
        invariant Valid() && used <= |answers|
        invariant |taken| == |old(taken)| + used && old(taken) <= taken
        invariant forall i :: 0 <= i < used ==> answers[i] == Wrote(taken[|old(taken)| + i])
        decreases |answers| - used
      {
        RunOne(start, taken, answers[used].n);
        Adjust(answers[used].n);
        taken := taken + [answers[used].n];
        used := used + 1;
      }
    }
  }
}
