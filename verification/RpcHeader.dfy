/**
 The RPC header message: how the generated code parses, serializes, sizes and merges it.
 Records it does not know are kept and written back.
 */
module RpcHeaders {
  import opened Bytes
  import opened RpcWire

  datatype Header = Header(service: seq<byte>, verb: seq<byte>, argsSize: nat, unknown: seq<Field>)

  const EMPTY: Header := Header([], [], 0, [])

  // ----- The four operations -----

  // What the parse loop does with a record.
  function Put(h: Header, f: Field): Header {
    match f
    case BytesField(1, d) => h.(service := d)
    case BytesField(2, d) => h.(verb := d)
    case VarintField(3, v) => h.(argsSize := v % TWO_32)
    case _ => h.(unknown := h.unknown + [f])
  }

  function ParseInto(h: Header, s: seq<byte>): Option<Header>
    decreases |s|
  {
    if s == [] then Some(h)
    else
      match ReadField(s)
      case None => None
      case Some((f, n)) => ParseInto(Put(h, f), s[n..])
  }

  function Parse(s: seq<byte>): Option<Header> { ParseInto(EMPTY, s) }

  // Fields with their default values are left out.
  function Serialize(h: Header): seq<byte> {
    (if h.service != [] then [10] + Varint(|h.service|) + h.service else [])
    + (if h.verb != [] then [18] + Varint(|h.verb|) + h.verb else [])
    + (if h.argsSize != 0 then [24] + Varint(h.argsSize) else [])
    + Encode(h.unknown)
  }

  function FieldSize(f: Field): nat
    decreases f
  {
    VarintSize(f.Tag()) + match f
                          case VarintField(_, v) => VarintSize(v)
                          case Fixed64Field(_, _) => 8
                          case BytesField(_, d) => VarintSize(|d|) + |d|
                          case GroupField(number, fs) => FieldsSize(fs) + VarintSize(EndTag(number))
                          case Fixed32Field(_, _) => 4
  }

  function FieldsSize(fs: seq<Field>): nat
    decreases fs
  {
    if fs == [] then 0 else FieldSize(fs[0]) + FieldsSize(fs[1..])
  }

  function ByteSize(h: Header): nat {
    (if h.service != [] then 1 + VarintSize(|h.service|) + |h.service| else 0)
    + (if h.verb != [] then 1 + VarintSize(|h.verb|) + |h.verb| else 0)
    + (if h.argsSize != 0 then VarintSize(h.argsSize) + 1 else 0)
    + FieldsSize(h.unknown)
  }

  function Merge(to: Header, from: Header): Header {
    Header(
      if from.service != [] then from.service else to.service,
      if from.verb != [] then from.verb else to.verb,
      if from.argsSize != 0 then from.argsSize else to.argsSize,
      to.unknown + from.unknown)
  }

  // ----- What a header can be -----

  predicate Known(f: Field) {
    (f.BytesField? && (f.number == 1 || f.number == 2)) || (f.VarintField? && f.number == 3)
  }

  ghost predicate AllUnknown(fs: seq<Field>) {
    forall i :: 0 <= i < |fs| ==> fs[i].Valid() && !Known(fs[i])
  }

  // A uint32, strings of a size that can be written, and records of other numbers or types.
  ghost predicate Valid(h: Header) {
    h.argsSize < TWO_32 && |h.service| < TWO_64 && |h.verb| < TWO_64 && AllUnknown(h.unknown)
  }

  // Every header that is parsed is one.
  lemma {:induction false} ParsedIsValid(h: Header, s: seq<byte>)
    requires Valid(h) && |s| < TWO_64 && ParseInto(h, s).Some?
    ensures Valid(ParseInto(h, s).value)
    decreases |s|
  {
    hide ReadField;
    if s != [] {
      FieldIsValid(s);
      var (f, n) := ReadField(s).value;
      ParsedIsValid(Put(h, f), s[n..]);
    }
  }

  // ----- A header as a list of records -----

  function Fields(h: Header): seq<Field> {
    (if h.service != [] then [BytesField(1, h.service)] else [])
    + (if h.verb != [] then [BytesField(2, h.verb)] else [])
    + (if h.argsSize != 0 then [VarintField(3, h.argsSize)] else [])
    + h.unknown
  }

  function PutAll(h: Header, fs: seq<Field>): Header
    decreases fs
  {
    if fs == [] then h else PutAll(Put(h, fs[0]), fs[1..])
  }

  lemma EncodeFirst(fs: seq<Field>)
    requires fs != []
    ensures Encode(fs) == EncodeField(fs[0]) + Encode(fs[1..])
  {
    hide EncodeField;
  }

  lemma EncodeNothing()
    ensures Encode([]) == []
  {
  }

  lemma Regrouped(a: seq<byte>, b: seq<byte>, c: seq<byte>)
    ensures (a + b) + c == a + (b + c)
  {
  }

  lemma {:induction false} EncodeAppend(a: seq<Field>, b: seq<Field>)
    ensures Encode(a + b) == Encode(a) + Encode(b)
  {
    hide EncodeField, Encode;
    if a == [] {
      assert a + b == b;
      EncodeNothing();
    } else {
      EncodeAppend(a[1..], b);
      assert (a + b)[1..] == a[1..] + b;
      EncodeFirst(a);
      EncodeFirst(a + b);
      Regrouped(EncodeField(a[0]), Encode(a[1..]), Encode(b));
    }
  }

  lemma EncodeOne(f: Field)
    ensures Encode([f]) == EncodeField(f) && Encode([]) == []
  {
    hide Payload, Varint;
    assert [f][1..] == [];
  }

  lemma SerializeIsEncode(h: Header)
    ensures Serialize(h) == Encode(Fields(h))
  {
    hide Encode;
    var a := if h.service != [] then [BytesField(1, h.service)] else [];
    var b := if h.verb != [] then [BytesField(2, h.verb)] else [];
    var c := if h.argsSize != 0 then [VarintField(3, h.argsSize)] else [];
    EncodeAppend(a + b + c, h.unknown);
    EncodeAppend(a + b, c);
    EncodeAppend(a, b);
    EncodeOne(BytesField(1, h.service));
    EncodeOne(BytesField(2, h.verb));
    EncodeOne(VarintField(3, h.argsSize));
    assert [10] + Varint(|h.service|) + h.service == [10] + (Varint(|h.service|) + h.service);
    assert [18] + Varint(|h.verb|) + h.verb == [18] + (Varint(|h.verb|) + h.verb);
  }

  // Parsing what a list of records encodes to takes them one by one, whatever follows.
  lemma {:induction false} EncodedIsPut(h: Header, fs: seq<Field>, rest: seq<byte>)
    requires forall i :: 0 <= i < |fs| ==> fs[i].Valid()
    ensures ParseInto(h, Encode(fs) + rest) == ParseInto(PutAll(h, fs), rest)
    decreases fs
  {
    hide ReadField, EncodeField, Put;
    if fs == [] {
      assert Encode(fs) + rest == rest;
    } else {
      EncodeFirst(fs);
      assert Encode(fs) + rest == EncodeField(fs[0]) + (Encode(fs[1..]) + rest);
      FieldRead(fs[0], Encode(fs[1..]) + rest);
      EncodedIsPut(Put(h, fs[0]), fs[1..], rest);
    }
  }

  // How many whole records the first n bytes are, if they end at the end of one.
  function WholeRecords(fs: seq<Field>, n: nat): (k: Option<nat>)
    ensures k.Some? ==> k.value <= |fs|
    decreases fs
  {
    if n == 0 then Some(0)
    else if fs == [] || n < |EncodeField(fs[0])| then None
    else
      match WholeRecords(fs[1..], n - |EncodeField(fs[0])|)
      case None => None
      case Some(k) => Some(k + 1)
  }

  // The first n bytes of a list of records parse exactly if they are whole records.
  lemma {:induction false} CutIsPut(h: Header, fs: seq<Field>, n: nat)
    requires (forall i :: 0 <= i < |fs| ==> fs[i].Valid()) && n <= |Encode(fs)|
    ensures var k := WholeRecords(fs, n);
            ParseInto(h, Encode(fs)[..n]) == if k.None? then None else Some(PutAll(h, fs[..k.value]))
    decreases fs
  {
    hide ReadField, EncodeField, Put, Payload, Varint;
    var cut := Encode(fs)[..n];
    if n > 0 {
      EncodeFirst(fs);
      var first := EncodeField(fs[0]);
      if n < |first| {
        FieldCut(fs[0], n);
        assert cut == first[..n];
      } else {
        var more := Encode(fs[1..])[..n - |first|];
        assert cut == first + more;
        FieldRead(fs[0], more);
        CutIsPut(Put(h, fs[0]), fs[1..], n - |first|);
        var k := WholeRecords(fs[1..], n - |first|);
        assert k.Some? ==> fs[..k.value + 1][1..] == fs[1..][..k.value];
      }
    }
  }

  lemma {:induction false} UnknownPut(h: Header, fs: seq<Field>)
    requires AllUnknown(fs)
    ensures PutAll(h, fs) == h.(unknown := h.unknown + fs)
    decreases fs
  {
    if fs == [] {
      assert h.unknown + fs == h.unknown;
    } else {
      UnknownPut(Put(h, fs[0]), fs[1..]);
      assert h.unknown + [fs[0]] + fs[1..] == h.unknown + fs;
    }
  }

  lemma {:induction false} PutAppend(h: Header, a: seq<Field>, b: seq<Field>)
    ensures PutAll(h, a + b) == PutAll(PutAll(h, a), b)
    decreases a
  {
    hide Put;
    if a == [] {
      assert a + b == b;
    } else {
      assert (a + b)[1..] == a[1..] + b;
      PutAppend(Put(h, a[0]), a[1..], b);
    }
  }

  lemma PutOne(h: Header, f: Field)
    ensures PutAll(h, [f]) == Put(h, f) && PutAll(h, []) == h
  {
    hide Put;
    assert [f][1..] == [];
  }

  // Taking the records of a header is merging it.
  lemma PutFieldsIsMerge(h: Header, g: Header)
    requires Valid(g)
    ensures PutAll(h, Fields(g)) == Merge(h, g)
  {
    hide PutAll;
    var a := if g.service != [] then [BytesField(1, g.service)] else [];
    var b := if g.verb != [] then [BytesField(2, g.verb)] else [];
    var c := if g.argsSize != 0 then [VarintField(3, g.argsSize)] else [];
    PutAppend(h, a + b + c, g.unknown);
    PutAppend(h, a + b, c);
    PutAppend(h, a, b);
    var h1 := PutAll(h, a);
    PutOne(h, BytesField(1, g.service));
    var h2 := PutAll(h1, b);
    PutOne(h1, BytesField(2, g.verb));
    var h3 := PutAll(h2, c);
    PutOne(h2, VarintField(3, g.argsSize));
    UnknownPut(h3, g.unknown);
  }

  // ----- What a stream says -----

  // The value of the last record of that number, bytes or varint.
  function LastBytes(fs: seq<Field>, number: nat): Option<seq<byte>> {
    if fs == [] then None
    else
      var f := fs[|fs| - 1];
      if f.BytesField? && f.number == number then Some(f.data) else LastBytes(fs[..|fs| - 1], number)
  }

  function LastVarint(fs: seq<Field>, number: nat): Option<nat> {
    if fs == [] then None
    else
      var f := fs[|fs| - 1];
      if f.VarintField? && f.number == number then Some(f.value) else LastVarint(fs[..|fs| - 1], number)
  }

  // The records that are not of fields 1 and 2 as bytes or 3 as a varint.
  function Others(fs: seq<Field>): seq<Field> {
    if fs == [] then []
    else
      var f := fs[|fs| - 1];
      Others(fs[..|fs| - 1])
      + if (f.BytesField? && (f.number == 1 || f.number == 2)) || (f.VarintField? && f.number == 3) then [] else [f]
  }

  function Or<T>(o: Option<T>, default: T): T { if o.Some? then o.value else default }

  // The last record of each field wins, an empty one too; args_size keeps the low 32 bits;
  // everything else is kept in order.
  lemma {:induction false} RecordsDecide(h: Header, fs: seq<Field>)
    ensures PutAll(h, fs) == Header(
                              Or(LastBytes(fs, 1), h.service),
                              Or(LastBytes(fs, 2), h.verb),
                              (match LastVarint(fs, 3) case None => h.argsSize case Some(v) => v % 4294967296),
                              h.unknown + Others(fs))
    decreases |fs|
  {
    if fs == [] {
      assert h.unknown + [] == h.unknown;
    } else {
      hide PutAll;
      var init, last := fs[..|fs| - 1], fs[|fs| - 1];
      assert fs == init + [last];
      RecordsDecide(h, init);
      PutAppend(h, init, [last]);
      PutOne(PutAll(h, init), last);
      assert (h.unknown + Others(init)) + [last] == h.unknown + (Others(init) + [last]);
      assert h.unknown + (Others(init) + []) == h.unknown + Others(init);
    }
  }

  // The records a stream consists of, if it consists of records.
  function Records(s: seq<byte>): Option<seq<Field>>
    decreases |s|
  {
    if s == [] then Some([])
    else
      match ReadField(s)
      case None => None
      case Some((f, n)) =>
        match Records(s[n..])
        case None => None
        case Some(fs) => Some([f] + fs)
  }

  // A stream parses exactly if it consists of records, to what they say.
  lemma {:induction false} ParseIsRecords(h: Header, s: seq<byte>)
    ensures ParseInto(h, s) == match Records(s) case None => None case Some(fs) => Some(PutAll(h, fs))
    decreases |s|
  {
    hide ReadField, Put;
    if s != [] && ReadField(s).Some? {
      var (f, n) := ReadField(s).value;
      ParseIsRecords(Put(h, f), s[n..]);
      if Records(s[n..]).Some? {
        assert ([f] + Records(s[n..]).value)[1..] == Records(s[n..]).value;
      }
    }
  }

  // A small header on the wire.
  lemma HeaderExample()
    ensures Serialize(Header([97], [98, 99], 300, [])) == [0x0a, 1, 97, 0x12, 2, 98, 99, 0x18, 0xac, 0x02]
  {
    WireExamples();
    assert Varint(1) == [1] && Varint(2) == [2] && Encode([]) == [];
  }

  // ----- The laws -----

  // Parsing a serialized header into another one merges them.
  lemma ParseIntoIsMerge(h: Header, g: Header, rest: seq<byte>)
    requires Valid(g)
    ensures ParseInto(h, Serialize(g) + rest) == ParseInto(Merge(h, g), rest)
  {
    hide ParseInto, Serialize, Merge, Fields;
    SerializeIsEncode(g);
    FieldsValid(g);
    EncodedIsPut(h, Fields(g), rest);
    PutFieldsIsMerge(h, g);
  }

  lemma FieldsValid(h: Header)
    requires Valid(h)
    ensures forall i :: 0 <= i < |Fields(h)| ==> Fields(h)[i].Valid()
  {
  }

  lemma ParseSerialized(h: Header)
    requires Valid(h)
    ensures Parse(Serialize(h)) == Some(h)
  {
    hide Serialize;
    ParseIntoIsMerge(EMPTY, h, []);
    assert Serialize(h) + [] == Serialize(h);
    assert [] + h.unknown == h.unknown;
  }

  // A stream behind any stream that parses: the second one is parsed into what the first gave.
  lemma {:induction false} ParseAppend(h: Header, x: seq<byte>, y: seq<byte>)
    requires ParseInto(h, x).Some?
    ensures ParseInto(h, x + y) == ParseInto(ParseInto(h, x).value, y)
    decreases |x|
  {
    hide ReadField, Put;
    if x == [] {
      assert x + y == y;
    } else {
      FieldPrefix(x, y);
      var (f, n) := ReadField(x).value;
      ParseAppend(Put(h, f), x[n..], y);
    }
  }

  lemma ConcatenationMerges(a: Header, b: Header)
    requires Valid(a) && Valid(b)
    ensures Parse(Serialize(a) + Serialize(b)) == Some(Merge(a, b))
  {
    hide Serialize, ParseInto, Merge;
    ParseSerialized(a);
    ParseAppend(EMPTY, Serialize(a), Serialize(b));
    ParseIntoIsMerge(a, b, []);
    assert Serialize(b) + [] == Serialize(b);
    ParseNothing(Merge(a, b));
  }

  lemma ParseNothing(h: Header)
    ensures ParseInto(h, []) == Some(h)
  {
  }

  lemma ParseStep(h: Header, s: seq<byte>)
    requires s != []
    ensures ReadTag(s).None? ==> ParseInto(h, s) == None
    ensures ReadTag(s).Some? ==>
              var t := ReadTag(s).value; var p := ReadPayload(t.0, s[t.1..]);
              ParseInto(h, s) == if p.None? then None else ParseInto(Put(h, p.value.0), s[t.1 + p.value.1..])
  {
    hide ReadTag, ReadPayload, Put;
  }

  lemma {:induction false} FieldLength(f: Field)
    requires f.Valid()
    ensures |EncodeField(f)| == FieldSize(f)
    decreases f
  {
    hide Varint, VarintSize, Encode, FieldsSize;
    VarintLength(f.Tag());
    match f {
      case VarintField(_, v) => VarintLength(v);
      case BytesField(_, d) => VarintLength(|d|);
      case GroupField(number, fs) =>
        FieldsLength(fs);
        VarintLength(EndTag(number));
      case _ =>
    }
  }

  lemma {:induction false} FieldsLength(fs: seq<Field>)
    requires forall f :: f in fs ==> f.Valid()
    ensures |Encode(fs)| == FieldsSize(fs)
    decreases fs
  {
    hide FieldSize, Payload, Varint, Field.Valid;
    if fs != [] {
      FieldLength(fs[0]);
      FieldsLength(fs[1..]);
    }
  }

  lemma SerializedSize(h: Header)
    requires Valid(h)
    ensures |Serialize(h)| == ByteSize(h)
  {
    hide Varint, VarintSize, Encode, FieldsSize;
    VarintLength(|h.service|);
    VarintLength(|h.verb|);
    VarintLength(h.argsSize);
    FieldsLength(h.unknown);
  }

  // ----- The generated class -----

  const INT_MAX: nat := 0x7fff_ffff

  // What SerializeToString gives: nothing for a message over 2 GB.
  function Output(h: Header): Option<seq<byte>> {
    if ByteSize(h) > INT_MAX then None else Some(Serialize(h))
  }

  class RpcHeader {
    var serviceName: seq<byte>
    var methodName: seq<byte>
    var argsSize: nat
    var unknownFields: seq<Field>

    ghost function View(): Header
      reads this
    {
      Header(serviceName, methodName, argsSize, unknownFields)
    }

    constructor ()
      ensures View() == EMPTY
    {
      serviceName, methodName, argsSize, unknownFields := [], [], 0, [];
    }

    // The switch of the parse loop.
    method TakeField(tag: nat, field: Field)
      requires field.Tag() == tag
      modifies this
      ensures View() == Put(old(View()), field)
    {
      if tag / 8 == 1 && tag % 256 == 10 {
        serviceName := field.data;
      } else if tag / 8 == 2 && tag % 256 == 18 {
        methodName := field.data;
      } else if tag / 8 == 3 && tag % 256 == 24 {
        argsSize := field.value % TWO_32;
      } else {
        unknownFields := unknownFields + [field];
      }
    }

    // The parse loop: false for a stream that is cut short or malformed.  What has been set by
    // then stays.
    method InternalParse(s: seq<byte>) returns (ok: bool)
      modifies this
      ensures ok == ParseInto(old(View()), s).Some?
      ensures ok ==> View() == ParseInto(old(View()), s).value
    {
      hide ReadTag, ReadPayload, Put, ParseInto;
      var ptr := 0;
      assert s[ptr..] == s;
      while ptr < |s|
        invariant ptr <= |s|
        invariant ParseInto(View(), s[ptr..]) == ParseInto(old(View()), s)
      {
        ParseStep(View(), s[ptr..]);
        var read := ReadTag(s[ptr..]);
        if read.None? {
          return false;
        }
        var (tag, n) := read.value;
        var value := ReadPayload(tag, s[ptr..][n..]);
        if value.None? {
          return false;
        }
        var (field, m) := value.value;
        TakeField(tag, field);
        assert s[ptr..][n + m..] == s[ptr + n + m..];
        ptr := ptr + n + m;
      }
      assert s[ptr..] == [];
      ParseNothing(View());
      return true;
    }

    method ParseFromString(s: seq<byte>) returns (ok: bool)
      modifies this
      ensures ok == Parse(s).Some?
      ensures ok ==> View() == Parse(s).value
    {
      Clear();
      ok := InternalParse(s);
    }

    method Clear()
      modifies this
      ensures View() == EMPTY
    {
      serviceName, methodName, argsSize, unknownFields := [], [], 0, [];
    }

    method InternalSerialize() returns (target: seq<byte>)
      ensures target == Serialize(View())
    {
      hide Varint, Encode;
      target := [];
      if serviceName != [] {
        target := target + ([10] + Varint(|serviceName|) + serviceName);
      }
      if methodName != [] {
        target := target + ([18] + Varint(|methodName|) + methodName);
      }
      if argsSize != 0 {
        target := target + ([24] + Varint(argsSize));
      }
      target := target + Encode(unknownFields);
    }

    method ByteSizeLong() returns (totalSize: nat)
      ensures totalSize == ByteSize(View())
      ensures Valid(View()) ==> totalSize == |Serialize(View())|
    {
      totalSize := 0;
      if serviceName != [] {
        totalSize := totalSize + 1 + VarintSize(|serviceName|) + |serviceName|;
      }
      if methodName != [] {
        totalSize := totalSize + 1 + VarintSize(|methodName|) + |methodName|;
      }
      if argsSize != 0 {
        totalSize := totalSize + VarintSize(argsSize) + 1;
      }
      totalSize := totalSize + FieldsSize(unknownFields);
      if Valid(View()) {
        SerializedSize(View());
      }
    }

    method SerializeToString() returns (output: Option<seq<byte>>)
      ensures output == Output(View())
    {
      var size := ByteSizeLong();
      if size > INT_MAX {
        return None;
      }
      var target := InternalSerialize();
      return Some(target);
    }

    method MergeFrom(from: RpcHeader)
      requires from != this
      modifies this
      ensures View() == Merge(old(View()), from.View())
    {
      if from.serviceName != [] {
        serviceName := from.serviceName;
      }
      if from.methodName != [] {
        methodName := from.methodName;
      }
      if from.argsSize != 0 {
        argsSize := from.argsSize;
      }
      unknownFields := unknownFields + from.unknownFields;
    }
  }
}
