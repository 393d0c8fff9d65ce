/**
 The connection object of the web server, as far as it reads and parses requests.  Its
 parser rewrites its own buffer, ending lines and fields with NULs where it found them
 and keeping pointers into it.

 `received` is the byte stream as it arrived; `View` is the parser's state with the
 pointers replaced by the C strings they point to.
 */
module HttpConnection {
  import opened Bytes
  import opened HttpFraming
  import opened HttpSpec
  import M = HttpMemory
  import R = HttpRefinement

  const READ_BUFFER_SIZE: nat := 4096

  class HttpConn {
    const readBuf: array<char>
    var readIndex: nat
    var checkedIndex: nat
    var startLine: nat
    var state: CheckState
    var url: int              // an index into readBuf; -1 for NULL
    var host: int
    var linger: bool
    var contentLength: int
    ghost var received: string

    ghost function Mem(): M.Memory
      reads this, readBuf
    {
      M.Memory(readBuf[..], readIndex, checkedIndex, startLine, state, url, host, linger, contentLength)
    }

    ghost predicate InRange()
      reads this
    {
      startLine <= checkedIndex <= readIndex < readBuf.Length == READ_BUFFER_SIZE
    }

    ghost predicate Valid()
      reads this, readBuf
    {
      readBuf.Length == READ_BUFFER_SIZE && Mem().Valid(received)
    }

    ghost function View(): (c: Cursor<Request>)
      reads this, readBuf
      requires Valid()
      ensures Ready(c, received)
    {
      Mem().View()
    }

    constructor ()
      ensures Valid() && fresh(readBuf) && readBuf.Length == 4096 && received == "" && View() == Initial()
    {
      readBuf := new char[READ_BUFFER_SIZE](_ => NUL);
      readIndex, checkedIndex, startLine := 0, 0, 0;
      state, url, host, linger, contentLength := RequestLine, -1, -1, false, 0;
      received := "";
    }

    // recv puts the next bytes behind those that are there, and a NUL goes behind them.
    method Receive(chunk: string)
      requires InRange() && readIndex + |chunk| < READ_BUFFER_SIZE
      modifies this`readIndex, readBuf
      ensures Mem() == M.Read(old(Mem()), chunk)
    {
      forall i | 0 <= i < |chunk| {
        readBuf[readIndex + i] := chunk[i];
      }
      readIndex := readIndex + |chunk|;
      readBuf[readIndex] := NUL;
    }

    method Read(chunk: string)
      requires Valid() && readIndex + |chunk| < READ_BUFFER_SIZE
      modifies this`readIndex, this`received, readBuf
      ensures Valid() && received == old(received) + chunk && View() == old(View())
    {
      M.Received(Mem(), received, chunk);
      Receive(chunk);
      received := received + chunk;
    }

    // CR LF at `e` becomes two NULs.
    method EndLine(e: nat)
      requires e + 1 < readBuf.Length
      modifies this`checkedIndex, readBuf
      ensures Mem() == old(Mem()).(mem := old(Mem()).mem[e := NUL][e + 1 := NUL], checked := e + 2)
    {
      readBuf[e] := NUL;
      readBuf[e + 1] := NUL;
      checkedIndex := e + 2;
    }

    method PraseLine() returns (status: M.LineStatus)
      requires InRange()
      modifies this`checkedIndex, readBuf
      ensures (status, Mem()) == M.PraseLine(old(Mem()))
    {
      hide Scan;
      ghost var was, bytes := Mem(), readBuf[..readIndex];
      while checkedIndex < readIndex
        invariant InRange() && Mem() == was.(checked := checkedIndex)
        invariant Scan(bytes, checkedIndex) == Scan(bytes, was.checked)
      {
        var temp := readBuf[checkedIndex];
        M.ScanStep(bytes, checkedIndex);
        if temp == '\r' {
          if checkedIndex + 1 == readIndex {
            return M.LineOpen;
          } else if readBuf[checkedIndex + 1] == '\n' {
            EndLine(checkedIndex);
            return M.LineOk;
          }
        } else if temp == '\n' {
          if checkedIndex > 1 && readBuf[checkedIndex - 1] == '\r' {
            EndLine(checkedIndex - 1);
            return M.LineOk;
          }
          return M.LineBad;
        }
        checkedIndex := checkedIndex + 1;
      }
      M.ScanEnd(bytes);
      return M.LineOpen;
    }

    // The C string at `p`: the bytes up to the first NUL.
    method CStringAt(p: nat) returns (s: string)
      requires p <= readBuf.Length
      ensures s == M.At(readBuf[..], p) && p + |s| <= readBuf.Length
    {
      var i := p;
      while i < readBuf.Length && readBuf[i] != NUL
        invariant p <= i <= readBuf.Length
        invariant forall k :: p <= k < i ==> readBuf[k] != NUL
      {
        i := i + 1;
      }
      M.CStringEnds(readBuf[p..], i - p);
      s := readBuf[p..i];
    }

    // *p = 0
    method Cut(p: nat)
      requires p < readBuf.Length
      modifies readBuf
      ensures Mem() == old(Mem()).(mem := old(Mem()).mem[p := NUL])
    {
      readBuf[p] := NUL;
    }

    method PraseRequestLine(text: nat) returns (ret: Verdict)
      requires text <= readBuf.Length
      modifies this`state, this`url, readBuf
      ensures (ret, Mem()) == M.PraseRequestLine(old(Mem()), text)
    {
      hide FirstBlank, Lower, M.At, M.PraseVersion;
      var line := CStringAt(text);
      var i := FirstBlank(line);
      if i == |line| {
        url := -1;
        return BadRequest;
      }
      Cut(text + i);
      url := text + i + 1;
      var verb := CStringAt(text);
      if Lower(verb) != "get" {
        return BadRequest;
      }
      ret := PraseVersion();
    }

    method PraseVersion() returns (ret: Verdict)
      requires 0 <= url <= readBuf.Length
      modifies this`state, this`url, readBuf
      ensures (ret, Mem()) == M.PraseVersion(old(Mem()))
    {
      hide FirstBlank, Lower, M.At, M.PraseTarget;
      var rest := CStringAt(url);
      var j := FirstBlank(rest);
      if j == |rest| {
        return BadRequest;
      }
      Cut(url + j);
      var version := CStringAt(url + j + 1);
      if Lower(version) != "http/1.1" {
        return BadRequest;
      }
      ret := PraseTarget();
    }

    method PraseTarget() returns (ret: Verdict)
      requires 0 <= url <= readBuf.Length
      modifies this`state, this`url
      ensures (ret, Mem()) == M.PraseTarget(old(Mem()))
    {
      hide FirstSlash, LowerChar, M.At;
      var target := CStringAt(url);
      if StartsWith(target, "http://") {
        url := url + 7;
        var authority := CStringAt(url);
        var k := FirstSlash(authority);
        url := if k == |authority| then -1 else url + k;
      }
      if url == -1 || url == readBuf.Length || readBuf[url] != '/' {
        return BadRequest;
      }
      state := Header;
      return NoRequest;
    }

    method PraseHeaders(text: nat) returns (ret: Verdict)
      requires text <= readBuf.Length
      modifies this`linger, this`contentLength, this`host
      ensures (ret, Mem()) == M.PraseHeaders(old(Mem()), text)
    {
      hide Atol, ToInt32, HeaderValue, LeadingBlanks, Lower, M.At;
      var t := CStringAt(text);
      if t == "" {
        return if contentLength != 0 then BodyPending else GetRequest;
      } else if StartsWith(t, "connection:") {
        if Lower(HeaderValue(t, 11)) == "keep-alive" {
          linger := true;
        }
      } else if StartsWith(t, "content-length:") {
        contentLength := ToInt32(Atol(HeaderValue(t, 15)));
      } else if StartsWith(t, "host:") {
        host := text + 5 + LeadingBlanks(t[5..]);
      }
      return NoRequest;
    }

    // The main state machine: line after line, until the request is decided or the bytes run
    // out.  It is Process on the byte stream, and no byte at or past the checked index changes.
    method ProcessRead() returns (verdict: Verdict)
      requires Valid()
      modifies this`checkedIndex, this`startLine, this`state, this`url, this`linger, this`contentLength, this`host, readBuf
      ensures Valid() && startLine <= checkedIndex <= readIndex
      ensures readBuf[checkedIndex..] == old(readBuf[..])[checkedIndex..]
      ensures R.Stands((verdict, Mem()), Process(ParseText, old(View()), received))
    {
      R.ReadRefines(Mem(), received);
      verdict := RunLines();
    }

    method RunLines() returns (verdict: Verdict)
      requires InRange()
      modifies this`checkedIndex, this`startLine, this`state, this`url, this`linger, this`contentLength, this`host, readBuf
      ensures (verdict, Mem()) == M.ProcessRead(old(Mem()))
    {
      var going := true;
      verdict := NoRequest;
      while going
        invariant InRange()
        invariant (if going then M.ProcessRead(Mem()) else (verdict, Mem())) == M.ProcessRead(old(Mem()))
        decreases going, readIndex - checkedIndex
      {
        going, verdict := Turn();
      }
    }

    // One turn of the loop: the next line, if it is complete, goes to the parser of the state.
    method Turn() returns (going: bool, verdict: Verdict)
      requires InRange()
      modifies this`checkedIndex, this`startLine, this`state, this`url, this`linger, this`contentLength, this`host, readBuf
      ensures (going, verdict, Mem()) == M.Turn(old(Mem()))
    {
      var status := PraseLine();
      if status != M.LineOk {
        return false, NoRequest;
      }
      var text := startLine;
      startLine := checkedIndex;
      match state {
        case RequestLine => verdict := PraseRequestLine(text);
        case Header => verdict := PraseHeaders(text);
      }
      going := verdict == NoRequest;
    }
  }
}
