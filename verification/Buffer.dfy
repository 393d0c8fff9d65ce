/**
 The growable byte queue of ql_muduo: a vector whose readable bytes lie between
 two indices, compacted in place or resized when room runs out.

 `Queue` is what an observer of the class can say about it (the vector's size,
 where the readable bytes start, and what they are); every method of `Buffer`
 is proved to act on its `View()` as the matching function below.  What the
 byte queue promises over whole runs is proved about those functions.
 */
module Buffering {
  import opened Bytes

  const CHEAP_PREPEND: nat := 8
  const INITIAL_SIZE: nat := 1024
  const EXTRA_BUF: nat := 65536

  datatype Queue = Queue(size: nat, reader: nat, content: seq<byte>) {
    function Writer(): nat { reader + |content| }

    predicate Ok() { CHEAP_PREPEND <= reader && Writer() <= size }

    // ensureWriteableBytes and makeSpace: leave the bytes, resize or compact.
    function Ensured(len: nat): Queue
      requires Ok()
    {
      if size - Writer() >= len then this
      else if (size - Writer()) + reader < len + CHEAP_PREPEND then this.(size := Writer() + len)
      else this.(reader := CHEAP_PREPEND)
    }

    function Appended(data: seq<byte>): Queue
      requires Ok()
    {
      Ensured(|data|).(content := content + data)
    }

    function Retrieved(len: nat): Queue {
      if len < |content| then Queue(size, reader + len, content[len..]) else Queue(size, CHEAP_PREPEND, [])
    }

    // How many bytes one readv may deliver: the tail of the vector, plus the
    // 64 KiB overflow area when the tail is shorter than that.
    function ReadCapacity(): nat
      requires Ok()
    {
      var writable := size - Writer();
      if writable < EXTRA_BUF then writable + EXTRA_BUF else writable
    }

    // The kernel delivered `data`: the tail fills first, the overflow is appended.
    function Received(data: seq<byte>): Queue
      requires Ok()
    {
      var writable := size - Writer();
      if |data| <= writable then this.(content := content + data)
      else this.(content := content + data[..writable]).Appended(data[writable..])
    }
  }

  // What readv answers: bytes, end of stream (no bytes), or an error.
  datatype ReadAnswer = Delivered(data: seq<byte>) | ReadFailed

  class Buffer {
    var storage: array<byte>
    var readerIndex: nat
    var writerIndex: nat

    ghost predicate Valid()
      reads this
    {
      CHEAP_PREPEND <= readerIndex <= writerIndex <= storage.Length
    }

    ghost function View(): (q: Queue)
      reads this, storage
      requires Valid()
      ensures q.Ok() && q.Writer() == writerIndex
    {
      Queue(storage.Length, readerIndex, storage[readerIndex..writerIndex])
    }

    constructor (initialSize: nat)
      ensures Valid() && fresh(storage)
      ensures View() == Queue(CHEAP_PREPEND + initialSize, CHEAP_PREPEND, [])
    {
      storage := new byte[CHEAP_PREPEND + initialSize](_ => 0);
      readerIndex, writerIndex := CHEAP_PREPEND, CHEAP_PREPEND;
    }

    method ReadableBytes() returns (n: nat)
      requires Valid()
      ensures n == |View().content|
    {
      n := writerIndex - readerIndex;
    }

    method Peek() returns (data: seq<byte>)
      requires Valid()
      ensures data == View().content
    {
      data := storage[readerIndex..writerIndex];
    }

    method RetrieveAll()
      requires Valid()
      modifies this
      ensures Valid() && storage == old(storage)
      ensures View() == Queue(old(View()).size, CHEAP_PREPEND, [])
    {
      readerIndex, writerIndex := CHEAP_PREPEND, CHEAP_PREPEND;
    }

    method Retrieve(len: nat)
      requires Valid()
      modifies this
      ensures Valid() && storage == old(storage)
      ensures View() == old(View()).Retrieved(len)
    {
      if len < writerIndex - readerIndex {
        readerIndex := readerIndex + len;
      } else {
        RetrieveAll();
      }
    }

    // The source hands out `len` bytes of the vector from the reader on; only
    // the first |content| of them are queue contents, the others whatever lies behind.
    method RetrieveAsString(len: nat) returns (result: seq<byte>)
      requires Valid() && readerIndex + len <= storage.Length
      modifies this
      ensures Valid() && storage == old(storage)
      ensures View() == old(View()).Retrieved(len)
      ensures result == old(storage[readerIndex..readerIndex + len])
      ensures len <= |old(View()).content| ==> result == old(View()).content[..len]
    {
      result := storage[readerIndex..readerIndex + len];
      assert len <= writerIndex - readerIndex ==> result == storage[readerIndex..writerIndex][..len];
      Retrieve(len);
    }

    // vector::resize: the old bytes stay where they are, the new ones are zero.
    method Resize(n: nat)
      requires Valid() && storage.Length <= n
      modifies this
      ensures Valid() && fresh(storage)
      ensures View() == old(View()).(size := n)
    {
      var bigger := new byte[n](_ => 0);
      forall i | 0 <= i < storage.Length {
        bigger[i] := storage[i];
      }
      storage := bigger;
    }

    // std::copy of the readable bytes down to the front; the ranges may overlap.
    method CopyDown(readable: nat)
      requires Valid() && readable == writerIndex - readerIndex
      modifies storage
      ensures storage[CHEAP_PREPEND..CHEAP_PREPEND + readable] == old(storage[readerIndex..writerIndex])
    {
      ghost var was := storage[..];
      ghost var r := readerIndex;
      var i := 0;
      while i < readable
        modifies storage
        invariant 0 <= i <= readable
        invariant storage[CHEAP_PREPEND..CHEAP_PREPEND + i] == was[r..r + i]
        invariant storage[CHEAP_PREPEND + i..] == was[CHEAP_PREPEND + i..]
      {
        ghost var rest := storage[CHEAP_PREPEND + i..];
        assert storage[r + i] == rest[r - CHEAP_PREPEND] == was[r + i];
        storage[CHEAP_PREPEND + i] := storage[readerIndex + i];
        i := i + 1;
        assert storage[CHEAP_PREPEND..CHEAP_PREPEND + i] == was[r..r + i - 1] + [was[r + i - 1]];
        assert storage[CHEAP_PREPEND + i..] == rest[1..];
      }
    }

    method Compact()
      requires Valid()
      modifies this, storage
      ensures Valid() && storage == old(storage)
      ensures View() == old(View()).(reader := CHEAP_PREPEND)
    {
      var readable := writerIndex - readerIndex;
      CopyDown(readable);
      readerIndex := CHEAP_PREPEND;
      writerIndex := readerIndex + readable;
    }

    method EnsureWriteableBytes(len: nat)
      requires Valid()
      modifies this, storage
      ensures Valid() && (storage == old(storage) || fresh(storage))
      ensures View() == old(View()).Ensured(len)
      ensures len <= storage.Length - writerIndex
    {
      var writable := storage.Length - writerIndex;
      if writable < len {
        if writable + readerIndex < len + CHEAP_PREPEND {
          Resize(writerIndex + len);
        } else {
          Compact();
        }
      }
    }

    // Copies bytes into the writable tail, which has room for them.
    method Fill(data: seq<byte>)
      requires Valid() && |data| <= storage.Length - writerIndex
      modifies this`writerIndex, storage
      ensures Valid() && writerIndex == old(writerIndex) + |data|
      ensures View() == old(View()).(content := old(View()).content + data)
    {
      var w := writerIndex;
      forall i | 0 <= i < |data| {
        storage[w + i] := data[i];
      }
      writerIndex := w + |data|;
      assert storage[w..writerIndex] == data;
      assert storage[readerIndex..writerIndex] == storage[readerIndex..w] + storage[w..writerIndex];
    }

    method Append(data: seq<byte>)
      requires Valid()
      modifies this, storage
      ensures Valid() && (storage == old(storage) || fresh(storage))
      ensures View() == old(View()).Appended(data)
    {
      EnsureWriteableBytes(|data|);
      Fill(data);
    }

    // readv scatters over the tail and the overflow area; what overflowed is appended.
    method ReadFd(answer: ReadAnswer) returns (n: int)
      requires Valid()
      requires answer.Delivered? ==> |answer.data| <= View().ReadCapacity()
      modifies this, storage
      ensures Valid() && (storage == old(storage) || fresh(storage))
      ensures answer.ReadFailed? ==> n == -1 && View() == old(View())
      ensures answer.Delivered? ==> n == |answer.data| && View() == old(View()).Received(answer.data)
    {
      if answer.ReadFailed? {
        return -1;
      }
      var data := answer.data;
      n := |data|;
      var writable := storage.Length - writerIndex;
      if n <= writable {
        Fill(data);
      } else {
        Fill(data[..writable]);
        Append(data[writable..]);
      }
    }

    // Any run of operations: what is handed out is what the unbounded queue gives, in order.
    method Drive(ops: seq<Op>) returns (handedOut: seq<byte>)
      requires Valid() && Runs(View(), ops)
      modifies this, storage
      ensures Valid() && (storage == old(storage) || fresh(storage))
      ensures View() == Run(old(View()), ops)
      ensures handedOut == HandedOut(old(View()).content, ops)
      ensures handedOut + View().content == old(View()).content + Supplied(ops)
      decreases |ops|
    {
      ghost var q := View();
      RefinesFifo(q, ops);
      Conservation(q.content, ops);
      handedOut := [];
      if ops != [] {
        StepIsFifo(q, ops[0]);
        var first := Perform(ops[0]);
        var rest := Drive(ops[1..]);
        handedOut := first + rest;
      }
    }

    method Perform(op: Op) returns (handedOut: seq<byte>)
      requires Valid() && Possible(View(), op)
      modifies this, storage
      ensures Valid() && (storage == old(storage) || fresh(storage))
      ensures View() == Step(old(View()), op) && handedOut == HandedOutBy(old(View()).content, op)
    {
      handedOut := [];
      match op {
        case Append(data) => Append(data);
        case ReadFd(answer) => var n := ReadFd(answer);
        case Retrieve(len) =>
          var readable := ReadableBytes();
          handedOut := RetrieveAsString(if len < readable then len else readable);
      }
    }
  }

  // ----- Whole runs -----

  datatype Op =
    | Append(data: seq<byte>)
    | ReadFd(answer: ReadAnswer)
    | Retrieve(len: nat)

  predicate Possible(q: Queue, op: Op) {
    q.Ok() && (op.ReadFd? && op.answer.Delivered? ==> |op.answer.data| <= q.ReadCapacity())
  }

  function Step(q: Queue, op: Op): (r: Queue)
    requires Possible(q, op)
    ensures r.Ok()
  {
    match op
    case Append(data) => q.Appended(data)
    case ReadFd(Delivered(data)) => q.Received(data)
    case ReadFd(ReadFailed) => q
    case Retrieve(len) => q.Retrieved(len)
  }

  // An unbounded first-in first-out queue of bytes, with no vector behind it.
  function FifoStep(fifo: seq<byte>, op: Op): seq<byte> {
    match op
    case Append(data) => fifo + data
    case ReadFd(Delivered(data)) => fifo + data
    case ReadFd(ReadFailed) => fifo
    case Retrieve(len) => fifo[Min(len, |fifo|)..]
  }

  function Fifo(fifo: seq<byte>, ops: seq<Op>): seq<byte>
    decreases ops
  {
    if ops == [] then fifo else Fifo(FifoStep(fifo, ops[0]), ops[1..])
  }

  predicate Runs(q: Queue, ops: seq<Op>)
    decreases ops
  {
    ops == [] || (Possible(q, ops[0]) && Runs(Step(q, ops[0]), ops[1..]))
  }

  function Run(q: Queue, ops: seq<Op>): Queue
    requires Runs(q, ops)
    decreases ops
  {
    if ops == [] then q else Run(Step(q, ops[0]), ops[1..])
  }

  // The largest number of readable bytes the queue has held along the run.
  function Peak(q: Queue, ops: seq<Op>): nat
    requires Runs(q, ops)
    decreases ops
  {
    if ops == [] then |q.content| else Max(|q.content|, Peak(Step(q, ops[0]), ops[1..]))
  }

  // What a retrieve gives its caller, and what appends and reads bring in.
  function HandedOutBy(fifo: seq<byte>, op: Op): seq<byte> {
    if op.Retrieve? then fifo[..Min(op.len, |fifo|)] else []
  }

  function HandedOut(fifo: seq<byte>, ops: seq<Op>): seq<byte>
    decreases ops
  {
    if ops == [] then [] else HandedOutBy(fifo, ops[0]) + HandedOut(FifoStep(fifo, ops[0]), ops[1..])
  }

  function SuppliedBy(op: Op): seq<byte> {
    match op
    case Append(data) => data
    case ReadFd(Delivered(data)) => data
    case _ => []
  }

  function Supplied(ops: seq<Op>): seq<byte>
    decreases ops
  {
    if ops == [] then [] else SuppliedBy(ops[0]) + Supplied(ops[1..])
  }

  // No byte is lost, repeated or overtaken on its way through the queue.
  lemma {:induction false} Conservation(fifo: seq<byte>, ops: seq<Op>)
    ensures HandedOut(fifo, ops) + Fifo(fifo, ops) == fifo + Supplied(ops)
    decreases ops
  {
    if ops != [] {
      var out, next := HandedOutBy(fifo, ops[0]), FifoStep(fifo, ops[0]);
      assert out + next == fifo + SuppliedBy(ops[0]);
      Conservation(next, ops[1..]);
      Joined(out, HandedOut(next, ops[1..]), Fifo(next, ops[1..]));
      Joined(out, next, Supplied(ops[1..]));
      Joined(fifo, SuppliedBy(ops[0]), Supplied(ops[1..]));
    }
  }

  lemma Joined(a: seq<byte>, b: seq<byte>, c: seq<byte>)
    ensures (a + b) + c == a + (b + c)
  {
  }

  lemma StepIsFifo(q: Queue, op: Op)
    requires Possible(q, op)
    ensures Step(q, op).content == FifoStep(q.content, op)
  {
    match op {
      case ReadFd(Delivered(data)) =>
        var writable := q.size - q.Writer();
        if |data| > writable {
          assert q.content + data[..writable] + data[writable..] == q.content + data;
        }
      case Retrieve(len) => assert |q.content| <= len ==> q.content[Min(len, |q.content|)..] == [];
      case _ =>
    }
  }

  // Whatever the vector does underneath, the contents are those of the unbounded queue.
  lemma {:induction false} RefinesFifo(q: Queue, ops: seq<Op>)
    requires q.Ok() && Runs(q, ops)
    ensures Run(q, ops).Ok() && 8 <= Run(q, ops).reader && Run(q, ops).reader + |Run(q, ops).content| <= Run(q, ops).size
    ensures Run(q, ops).content == Fifo(q.content, ops)
    decreases ops
  {
    if ops != [] {
      StepIsFifo(q, ops[0]);
      RefinesFifo(Step(q, ops[0]), ops[1..]);
    }
  }

  // One read takes what fits behind the contents, and never less than 64 KiB.
  lemma ReadRoom(q: Queue)
    requires q.Ok()
    ensures var room := q.size - q.reader - |q.content|;
            && q.ReadCapacity() >= 65536 && room <= q.ReadCapacity() <= room + 65536
            && (q.ReadCapacity() > room <==> room < 65536)
  {
  }

  // A queue that has been emptied starts over at the front of the vector.
  lemma {:induction false} EmptyStartsOver(q: Queue, ops: seq<Op>)
    requires q.Ok() && Runs(q, ops) && (q.content == [] ==> q.reader == CHEAP_PREPEND)
    ensures Run(q, ops).content == [] ==> Run(q, ops).reader == CHEAP_PREPEND
    decreases ops
  {
    if ops != [] {
      EmptyStartsOver(Step(q, ops[0]), ops[1..]);
    }
  }

  // The vector grows only to make room for bytes it then holds.
  lemma {:induction false} SpaceBound(q: Queue, ops: seq<Op>)
    requires q.Ok() && Runs(q, ops)
    ensures Run(q, ops).size <= Max(q.size, 2 * Peak(q, ops) + 7)
    decreases ops
  {
    if ops != [] {
      SpaceBound(Step(q, ops[0]), ops[1..]);
    }
  }
}
