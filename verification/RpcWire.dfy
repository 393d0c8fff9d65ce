/**
 Records on the wire: sections "Base 128 Varints" and "Message Structure" of the Protocol
 Buffers Encoding document.
 */
module RpcWire {
  import opened Bytes

  const TWO_32: nat := 0x1_0000_0000
  const TWO_64: nat := 0x1_0000_0000_0000_0000
  const MAX_VARINT: nat := 10

  // A record: a field number and a value of one of four wire types, or a group of records
  // between a start tag and an end tag of the same number.
  datatype Field =
    | VarintField(number: nat, value: nat)
    | Fixed64Field(number: nat, data: seq<byte>)
    | BytesField(number: nat, data: seq<byte>)
    | GroupField(number: nat, fields: seq<Field>)
    | Fixed32Field(number: nat, data: seq<byte>)
  {
    predicate Valid() {
      && 0 < number && 8 * number + 8 <= TWO_32
      && match this
         case VarintField(_, v) => v < TWO_64
         case Fixed64Field(_, d) => |d| == 8
         case BytesField(_, d) => |d| < TWO_64
         case GroupField(_, fs) => forall f :: f in fs ==> f.Valid()
         case Fixed32Field(_, d) => |d| == 4
    }

    function Tag(): nat {
      8 * number + match this
                   case VarintField(_, _) => 0
                   case Fixed64Field(_, _) => 1
                   case BytesField(_, _) => 2
                   case GroupField(_, _) => 3
                   case Fixed32Field(_, _) => 5
    }
  }

  function EndTag(number: nat): nat { 8 * number + 4 }

  // ----- Varints -----

  function Varint(v: nat): (s: seq<byte>)
    ensures |s| > 0
  {
    if v < 128 then [v] else [v % 128 + 128] + Varint(v / 128)
  }

  // The value and the length of the varint at the start of `s`, of at most `limit` bytes.
  function ReadVarint(s: seq<byte>, limit: nat): (r: Option<(nat, nat)>)
    ensures r.Some? ==> 0 < r.value.1 <= |s|
  {
    if s == [] || limit == 0 then None
    else if s[0] < 128 then Some((s[0], 1))
    else
      match ReadVarint(s[1..], limit - 1)
      case None => None
      case Some((v, n)) => Some((s[0] - 128 + 128 * v, n + 1))
  }

  // How many groups of seven bits a value takes.
  function BitLength(v: nat): (n: nat) { if v == 0 then 0 else 1 + BitLength(v / 2) }

  function VarintSize(v: nat): nat { if v == 0 then 1 else (BitLength(v) + 6) / 7 }

  lemma BitLengthOver8(v: nat)
    ensures v >= 8 ==> BitLength(v) == 3 + BitLength(v / 8)
    ensures 0 < v < 8 ==> 1 <= BitLength(v) <= 3
  {
    var half := v / 2;
    assert v >= 2 ==> BitLength(v) == 1 + BitLength(half);
    assert v >= 4 ==> BitLength(half) == 2 + BitLength(v / 8);
  }

  lemma BitLengthOver128(v: nat)
    ensures v >= 128 ==> BitLength(v) == 7 + BitLength(v / 128)
    ensures 0 < v < 128 ==> 1 <= BitLength(v) <= 7
  {
    BitLengthOver8(v);
    BitLengthOver8(v / 8);
    assert v >= 128 ==> BitLength(v / 8 / 8) == 1 + BitLength(v / 128);
  }

  lemma {:induction false} VarintLength(v: nat)
    ensures |Varint(v)| == VarintSize(v)
  {
    BitLengthOver128(v);
    if v >= 128 {
      VarintLength(v / 128);
      assert BitLength(v / 128) > 0;
    }
  }

  function Power128(k: nat): nat { if k == 0 then 1 else 128 * Power128(k - 1) }

  lemma {:induction false} VarintShort(v: nat, k: nat)
    requires v < Power128(k) && k > 0
    ensures |Varint(v)| <= k
  {
    if v >= 128 {
      VarintShort(v / 128, k - 1);
    }
  }

  lemma VarintFits(v: nat)
    requires v < TWO_64
    ensures |Varint(v)| <= MAX_VARINT
  {
    assert TWO_64 <= Power128(10);
    VarintShort(v, 10);
  }

  // Reading gives back what was written, whatever follows.
  lemma {:induction false} VarintRead(v: nat, rest: seq<byte>, limit: nat)
    requires |Varint(v)| <= limit
    ensures ReadVarint(Varint(v) + rest, limit) == Some((v, |Varint(v)|))
  {
    var s := Varint(v) + rest;
    if v < 128 {
      assert s[0] == v;
    } else {
      assert s[0] == v % 128 + 128 && s[1..] == Varint(v / 128) + rest;
      VarintRead(v / 128, rest, limit - 1);
    }
  }

  // A varint that has been read does not depend on what follows it.
  lemma {:induction false} ReadVarintPrefix(s: seq<byte>, rest: seq<byte>, limit: nat)
    requires ReadVarint(s, limit).Some?
    ensures ReadVarint(s + rest, limit) == ReadVarint(s, limit)
  {
    assert (s + rest)[0] == s[0];
    if s[0] >= 128 {
      ReadVarintPrefix(s[1..], rest, limit - 1);
      assert (s + rest)[1..] == s[1..] + rest;
    }
  }

  // The number that groups of seven bits make, lowest first.
  function GroupsValue(s: seq<byte>): nat { if s == [] then 0 else s[0] % 128 + 128 * GroupsValue(s[1..]) }

  // A varint is such groups; all bytes but the last have their top bit set, and the last one is
  // zero only for zero.
  lemma {:induction false} VarintLayout(v: nat)
    ensures var s := Varint(v);
            && GroupsValue(s) == v && (v > 0 ==> s[|s| - 1] > 0)
            && forall i :: 0 <= i < |s| ==> (s[i] >= 128 <==> i + 1 < |s|)
  {
    if v >= 128 {
      VarintLayout(v / 128);
      assert Varint(v)[1..] == Varint(v / 128);
    } else {
      assert Varint(v)[1..] == [];
    }
  }

  // What parses as a varint, minimal or not: one to ten bytes, the top bit set in all but the
  // last; anything longer is refused.
  lemma {:induction false} ReadVarintIff(s: seq<byte>, limit: nat, n: nat)
    ensures ReadVarint(s, limit).Some? && ReadVarint(s, limit).value.1 == n
            <==> 1 <= n <= Min(limit, |s|) && s[n - 1] < 128 && forall i :: 0 <= i < n - 1 ==> s[i] >= 128
    decreases limit
  {
    if s != [] && limit > 0 && s[0] >= 128 && n > 0 {
      ReadVarintIff(s[1..], limit - 1, n - 1);
      assert forall i :: 0 <= i < |s[1..]| ==> s[1..][i] == s[i + 1];
    }
  }

  // The value read is made of the groups it consists of.
  lemma {:induction false} ReadVarintValue(s: seq<byte>, limit: nat)
    requires ReadVarint(s, limit).Some?
    ensures var (v, n) := ReadVarint(s, limit).value; v == GroupsValue(s[..n])
    decreases limit
  {
    if s[0] >= 128 {
      ReadVarintValue(s[1..], limit - 1);
      var n := ReadVarint(s, limit).value.1;
      assert s[..n][1..] == s[1..][..n - 1];
    } else {
      assert s[..1][1..] == [];
    }
  }

  // ----- Records -----

  function Payload(f: Field): seq<byte>
    decreases f, 0
  {
    match f
    case VarintField(_, v) => Varint(v)
    case Fixed64Field(_, d) => d
    case BytesField(_, d) => Varint(|d|) + d
    case GroupField(number, fs) => Encode(fs) + Varint(EndTag(number))
    case Fixed32Field(_, d) => d
  }

  function Encode(fs: seq<Field>): seq<byte>
    decreases fs
  {
    if fs == [] then [] else EncodeField(fs[0]) + Encode(fs[1..])
  }

  function EncodeField(f: Field): seq<byte>
    decreases f, 1
  {
    Varint(f.Tag()) + Payload(f)
  }

  // The tag at the start of `s`, and its length.  Field number 0 is not one.
  function ReadTag(s: seq<byte>): (r: Option<(nat, nat)>)
    ensures r.Some? ==> 0 < r.value.1 <= |s| && 8 <= r.value.0 < TWO_32
  {
    match ReadVarint(s, MAX_VARINT)
    case None => None
    case Some((tag, n)) => if 8 <= tag < TWO_32 then Some((tag, n)) else None
  }

  // The value behind a tag, and its length.  An end tag has none.
  function ReadPayload(tag: nat, s: seq<byte>): (r: Option<(Field, nat)>)
    ensures r.Some? ==> r.value.1 <= |s| && r.value.0.Tag() == tag
    decreases |s|, 1
  {
    match tag % 8
    case 0 =>
      (match ReadVarint(s, MAX_VARINT)
       case None => None
       case Some((v, n)) => Some((VarintField(tag / 8, v % TWO_64), n)))
    case 1 => if |s| < 8 then None else Some((Fixed64Field(tag / 8, s[..8]), 8))
    case 2 =>
      (match ReadVarint(s, MAX_VARINT)
       case None => None
       case Some((len, n)) =>
         if len >= TWO_64 || n + len > |s| then None else Some((BytesField(tag / 8, s[n..n + len]), n + len)))
    case 3 =>
      (match ReadGroup(tag / 8, s)
       case None => None
       case Some((fs, n)) => Some((GroupField(tag / 8, fs), n)))
    case 5 => if |s| < 4 then None else Some((Fixed32Field(tag / 8, s[..4]), 4))
    case _ => None
  }

  // The records of a group, up to its end tag; the end tag of another group is an error.
  function ReadGroup(number: nat, s: seq<byte>): (r: Option<(seq<Field>, nat)>)
    ensures r.Some? ==> 0 < r.value.1 <= |s|
    decreases |s|, 0
  {
    match ReadTag(s)
    case None => None
    case Some((tag, n)) =>
      if tag == EndTag(number) then Some(([], n))
      else
        match ReadPayload(tag, s[n..])
        case None => None
        case Some((f, m)) =>
          match ReadGroup(number, s[n + m..])
          case None => None
          case Some((fs, k)) => Some(([f] + fs, n + m + k))
  }

  function ReadField(s: seq<byte>): (r: Option<(Field, nat)>)
    ensures r.Some? ==> 0 < r.value.1 <= |s|
  {
    match ReadTag(s)
    case None => None
    case Some((tag, n)) =>
      match ReadPayload(tag, s[n..])
      case None => None
      case Some((f, m)) => Some((f, n + m))
  }

  // ----- What is read is a record -----

  lemma {:induction false} PayloadIsValid(tag: nat, s: seq<byte>)
    requires 8 <= tag < TWO_32 && ReadPayload(tag, s).Some? && |s| < TWO_64
    ensures ReadPayload(tag, s).value.0.Valid()
    decreases |s|, 1
  {
    hide ReadVarint, ReadGroup;
    if tag % 8 == 3 {
      GroupIsValid(tag / 8, s);
    }
  }

  lemma {:induction false} GroupIsValid(number: nat, s: seq<byte>)
    requires ReadGroup(number, s).Some? && |s| < TWO_64
    ensures forall f :: f in ReadGroup(number, s).value.0 ==> f.Valid()
    decreases |s|, 0
  {
    hide ReadTag, ReadPayload, Field.Valid;
    var (tag, n) := ReadTag(s).value;
    if tag != EndTag(number) {
      PayloadIsValid(tag, s[n..]);
      GroupIsValid(number, s[n + ReadPayload(tag, s[n..]).value.1..]);
    }
  }

  lemma FieldIsValid(s: seq<byte>)
    requires ReadField(s).Some? && |s| < TWO_64
    ensures ReadField(s).value.0.Valid()
  {
    hide ReadTag, ReadPayload, Field.Valid;
    var (tag, n) := ReadTag(s).value;
    PayloadIsValid(tag, s[n..]);
  }

  // ----- Reading gives back what was written, whatever follows -----

  lemma BytesRead(tag: nat, d: seq<byte>, rest: seq<byte>)
    requires tag % 8 == 2 && |d| < TWO_64
    ensures ReadPayload(tag, Varint(|d|) + d + rest) == Some((BytesField(tag / 8, d), |Varint(|d|)| + |d|))
  {
    hide Varint, ReadVarint;
    var len := Varint(|d|);
    VarintFits(|d|);
    VarintRead(|d|, d + rest, MAX_VARINT);
    assert len + d + rest == len + (d + rest);
    assert (len + d + rest)[|len|..|len| + |d|] == d;
  }

  lemma TagRead(tag: nat, rest: seq<byte>)
    requires 8 <= tag < TWO_32
    ensures ReadTag(Varint(tag) + rest) == Some((tag, |Varint(tag)|))
    ensures (Varint(tag) + rest)[|Varint(tag)|..] == rest
  {
    hide Varint, ReadVarint;
    VarintFits(tag);
    VarintRead(tag, rest, MAX_VARINT);
  }

  lemma {:induction false} PayloadRead(f: Field, rest: seq<byte>)
    requires f.Valid()
    ensures ReadPayload(f.Tag(), Payload(f) + rest) == Some((f, |Payload(f)|))
    decreases f
  {
    hide Varint, ReadVarint, ReadGroup, Encode;
    match f {
      case VarintField(_, v) =>
        VarintFits(v);
        VarintRead(v, rest, MAX_VARINT);
      case BytesField(_, d) =>
        hide ReadPayload;
        BytesRead(f.Tag(), d, rest);
      case GroupField(number, fs) => GroupRead(number, fs, rest);
      case Fixed64Field(_, d) => assert (d + rest)[..8] == d;
      case Fixed32Field(_, d) => assert (d + rest)[..4] == d;
    }
  }

  lemma TagRange(f: Field, number: nat)
    requires f.Valid()
    ensures 8 <= f.Tag() < TWO_32 && f.Tag() != EndTag(number)
  {
  }

  lemma GroupStep(number: nat, s: seq<byte>, tag: nat, n: nat, f: Field, m: nat, fs: seq<Field>, k: nat)
    requires ReadTag(s) == Some((tag, n)) && tag != EndTag(number)
    requires ReadPayload(tag, s[n..]) == Some((f, m)) && n + m <= |s|
    requires ReadGroup(number, s[n + m..]) == Some((fs, k))
    ensures ReadGroup(number, s) == Some(([f] + fs, n + m + k))
  {
    hide ReadTag, ReadPayload, EndTag, Field.Tag;
  }

  lemma {:induction false} GroupRead(number: nat, fs: seq<Field>, rest: seq<byte>)
    requires 0 < number && 8 * number + 8 <= TWO_32
    requires forall f :: f in fs ==> f.Valid()
    ensures ReadGroup(number, Encode(fs) + Varint(EndTag(number)) + rest)
            == Some((fs, |Encode(fs) + Varint(EndTag(number))|))
    decreases fs
  {
    hide Varint, ReadTag, ReadPayload, Payload, Field.Tag, Field.Valid;
    var end := Varint(EndTag(number));
    if fs == [] {
      assert Encode(fs) + end + rest == end + rest;
      TagRead(EndTag(number), rest);
    } else {
      hide ReadGroup, Encode;
      var f := fs[0];
      var tag, value, more := Varint(f.Tag()), Payload(f), Encode(fs[1..]) + end + rest;
      TagRange(f, number);
      TagRead(f.Tag(), value + more);
      PayloadRead(f, more);
      GroupRead(number, fs[1..], rest);
      EncodeStep(fs);
      Behind(tag, value, Encode(fs[1..]), end, rest);
      GroupStep(number, tag + (value + more), f.Tag(), |tag|, f, |value|, fs[1..], |Encode(fs[1..]) + end|);
    }
  }

  lemma EncodeStep(fs: seq<Field>)
    requires fs != []
    ensures Encode(fs) == Varint(fs[0].Tag()) + Payload(fs[0]) + Encode(fs[1..]) && fs == [fs[0]] + fs[1..]
  {
    hide Varint, Payload;
  }

  lemma Behind(a: seq<byte>, b: seq<byte>, c: seq<byte>, d: seq<byte>, e: seq<byte>)
    ensures a + b + c + d + e == a + (b + (c + d + e))
    ensures (a + (b + (c + d + e)))[|a|..] == b + (c + d + e)
    ensures (a + (b + (c + d + e)))[|a| + |b|..] == c + d + e
  {
  }

  lemma FieldRead(f: Field, rest: seq<byte>)
    requires f.Valid()
    ensures ReadField(EncodeField(f) + rest) == Some((f, |EncodeField(f)|))
    ensures (EncodeField(f) + rest)[|EncodeField(f)|..] == rest
  {
    hide Varint, ReadTag, Payload, ReadPayload;
    var tag := Varint(f.Tag());
    TagRange(f, 0);
    TagRead(f.Tag(), Payload(f) + rest);
    assert EncodeField(f) + rest == tag + (Payload(f) + rest);
    PayloadRead(f, rest);
  }

  // ----- A record that has been read does not depend on what follows it -----

  lemma TagPrefix(s: seq<byte>, rest: seq<byte>)
    requires ReadTag(s).Some?
    ensures ReadTag(s + rest) == ReadTag(s)
    ensures forall n :: 0 <= n <= |s| ==> (s + rest)[n..] == s[n..] + rest
  {
    hide ReadVarint;
    ReadVarintPrefix(s, rest, MAX_VARINT);
  }

  lemma {:induction false} PayloadPrefix(tag: nat, s: seq<byte>, rest: seq<byte>)
    requires ReadPayload(tag, s).Some?
    ensures ReadPayload(tag, s + rest) == ReadPayload(tag, s)
    decreases |s|, 1
  {
    hide ReadVarint, ReadGroup;
    if tag % 8 == 0 || tag % 8 == 2 {
      ReadVarintPrefix(s, rest, MAX_VARINT);
    } else if tag % 8 == 3 {
      GroupPrefix(tag / 8, s, rest);
    }
    var n := ReadPayload(tag, s).value.1;
    assert forall i, j :: 0 <= i <= j <= n ==> (s + rest)[i..j] == s[i..j];
    assert forall j :: 0 <= j <= n ==> (s + rest)[..j] == s[..j];
  }

  lemma {:induction false} GroupPrefix(number: nat, s: seq<byte>, rest: seq<byte>)
    requires ReadGroup(number, s).Some?
    ensures ReadGroup(number, s + rest) == ReadGroup(number, s)
    decreases |s|, 0
  {
    hide ReadTag, ReadPayload;
    TagPrefix(s, rest);
    var (tag, n) := ReadTag(s).value;
    if tag != EndTag(number) {
      PayloadPrefix(tag, s[n..], rest);
      GroupPrefix(number, s[n + ReadPayload(tag, s[n..]).value.1..], rest);
    }
  }

  lemma FieldPrefix(s: seq<byte>, rest: seq<byte>)
    requires ReadField(s).Some?
    ensures ReadField(s + rest) == ReadField(s)
    ensures (s + rest)[ReadField(s).value.1..] == s[ReadField(s).value.1..] + rest
  {
    hide ReadTag, ReadPayload;
    TagPrefix(s, rest);
    var (tag, n) := ReadTag(s).value;
    PayloadPrefix(tag, s[n..], rest);
  }

  // A record that is cut short is none.
  lemma FieldCut(f: Field, n: nat)
    requires f.Valid() && n < |EncodeField(f)|
    ensures ReadField(EncodeField(f)[..n]) == None
  {
    hide EncodeField, ReadField;
    var whole := EncodeField(f);
    FieldRead(f, []);
    assert whole + [] == whole && whole[..n] + whole[n..] == whole;
    if ReadField(whole[..n]).Some? {
      FieldPrefix(whole[..n], whole[n..]);
    }
  }

  // The examples of the Encoding document, and one of each other wire type: 150 in field 1,
  // "testing" in field 2, and fixed and group records of field 1.
  lemma WireExamples()
    ensures Varint(300) == [0xac, 0x02]
    ensures EncodeField(VarintField(1, 150)) == [0x08, 0x96, 0x01]
    ensures EncodeField(BytesField(2, [0x74, 0x65, 0x73, 0x74, 0x69, 0x6e, 0x67]))
            == [0x12, 0x07, 0x74, 0x65, 0x73, 0x74, 0x69, 0x6e, 0x67]
    ensures EncodeField(Fixed64Field(1, [1, 2, 3, 4, 5, 6, 7, 8])) == [0x09, 1, 2, 3, 4, 5, 6, 7, 8]
    ensures EncodeField(Fixed32Field(1, [1, 2, 3, 4])) == [0x0d, 1, 2, 3, 4]
    ensures EncodeField(GroupField(1, [])) == [0x0b, 0x0c]
  {
    assert Varint(2) == [2] && Varint(1) == [1];
    assert Varint(8) == [8] && Varint(18) == [18] && Varint(7) == [7] && Varint(9) == [9] && Varint(13) == [13];
    assert Varint(11) == [11] && Varint(12) == [12] && Encode([]) == [];
  }

  // A varint record keeps the low 64 bits of what was sent.
  lemma LongVarintWraps(tag: nat, s: seq<byte>)
    requires tag % 8 == 0 && ReadVarint(s, MAX_VARINT).Some?
    ensures var (v, n) := ReadVarint(s, MAX_VARINT).value;
            && ReadPayload(tag, s).Some? && ReadPayload(tag, s).value.1 == n
            && ReadPayload(tag, s).value.0.number == tag / 8
            && 0 <= ReadPayload(tag, s).value.0.value < 18446744073709551616
            && (v - ReadPayload(tag, s).value.0.value) % 18446744073709551616 == 0
  {
    hide ReadVarint;
    var v := ReadVarint(s, MAX_VARINT).value.0;
    assert v == v / TWO_64 * TWO_64 + v % TWO_64;
  }

  // What no record starts with: a tag of field 0 or beyond 32 bits, an end tag outside its
  // group, and the wire types that do not exist.
  lemma NoRecord(tag: nat, rest: seq<byte>)
    requires tag < TWO_64
    requires tag < 8 || tag >= 4294967296 || tag % 8 == 4 || tag % 8 == 6 || tag % 8 == 7
    ensures ReadField(Varint(tag) + rest) == None
  {
    hide Varint, ReadVarint;
    VarintFits(tag);
    VarintRead(tag, rest, MAX_VARINT);
  }

  // Ten bytes with the top bit set are the start of no varint, and so of no record.
  lemma TooLong(tag: nat, s: seq<byte>)
    requires |s| >= 10 && forall i :: 0 <= i < 10 ==> s[i] >= 128
    ensures ReadField(s) == None && (tag % 8 == 0 || tag % 8 == 2 ==> ReadPayload(tag, s) == None)
  {
    hide ReadVarint;
    if ReadVarint(s, MAX_VARINT).Some? {
      ReadVarintIff(s, MAX_VARINT, ReadVarint(s, MAX_VARINT).value.1);
    }
  }

  // A group does not end with the end tag of another, nor with the stream.
  lemma NoOtherEnd(number: nat, other: nat, rest: seq<byte>)
    requires number != other && 0 < other && 8 * other + 4 < TWO_32
    ensures ReadGroup(number, Varint(8 * other + 4) + rest) == None
  {
    hide Varint, ReadTag, ReadVarint;
    TagRead(8 * other + 4, rest);
    EndTagHasNone(8 * other + 4, rest);
    hide ReadPayload;
  }

  lemma EndTagHasNone(tag: nat, s: seq<byte>)
    requires tag % 8 == 4
    ensures ReadPayload(tag, s) == None
  {
    hide ReadVarint, ReadGroup;
  }

  lemma NoEnd(number: nat)
    ensures ReadGroup(number, []) == None
  {
  }
}
