/**
 A call on the wire: four bytes of header size, the header, and the arguments.  The client
 stub assembles it and the provider takes it apart.
 */
module RpcFrames {
  import opened Bytes
  import opened RpcWire
  import opened RpcHeaders

  // A uint32 as it lies in memory, lowest byte first.
  function LittleEndian(n: nat, width: nat): (s: seq<byte>)
    ensures |s| == width
  {
    if width == 0 then [] else [n % 256] + LittleEndian(n / 256, width - 1)
  }

  function FromLittleEndian(s: seq<byte>): nat {
    if s == [] then 0 else s[0] + 256 * FromLittleEndian(s[1..])
  }

  function Power256(k: nat): nat { if k == 0 then 1 else 256 * Power256(k - 1) }

  lemma {:induction false} LittleEndianRead(n: nat, width: nat)
    requires n < Power256(width)
    ensures FromLittleEndian(LittleEndian(n, width)) == n
  {
    if width > 0 {
      LittleEndianRead(n / 256, width - 1);
      assert LittleEndian(n, width)[1..] == LittleEndian(n / 256, width - 1);
    }
  }

  // Four bytes, the lowest first.
  lemma FourBytes(n: nat)
    requires n < TWO_32
    ensures LittleEndian(n, 4) == [n % 256, n / 256 % 256, n / 65536 % 256, n / 16777216]
  {
    Quotients(n);
    OneByte(n, 3);
    OneByte(n / 256, 2);
    OneByte(n / 65536, 1);
    OneByte(n / 16777216, 0);
  }

  lemma OneByte(n: nat, width: nat)
    ensures LittleEndian(n, width + 1) == [n % 256] + LittleEndian(n / 256, width)
    ensures LittleEndian(n, 0) == []
  {
  }

  lemma Quotients(n: nat)
    ensures n / 256 / 256 == n / 65536 && n / 65536 / 256 == n / 16777216
    ensures n < TWO_32 ==> n / 16777216 < 256
  {
  }

  lemma FourRead(s: seq<byte>)
    requires |s| == 4
    ensures FromLittleEndian(s)
            == (s[0] as int) + 256 * (s[1] as int) + 65536 * (s[2] as int) + 16777216 * (s[3] as int) < 4294967296
  {
    ByteRead(s);
    ByteRead(s[1..]);
    ByteRead(s[1..][1..]);
    ByteRead(s[1..][1..][1..]);
    assert s[1..][1..][1..][1..] == [];
  }

  lemma ByteRead(s: seq<byte>)
    requires s != []
    ensures FromLittleEndian(s) == s[0] + 256 * FromLittleEndian(s[1..]) && FromLittleEndian([]) == 0
  {
  }

  // ----- The client stub -----

  // What the request's SerializeToString leaves in args_str for a payload: nothing over 2 GB.
  function ArgsOf(payload: seq<byte>): seq<byte> {
    if |payload| > INT_MAX then [] else payload
  }

  function CallHeader(service: seq<byte>, verb: seq<byte>, args: seq<byte>): Header {
    Header(service, verb, |args|, [])
  }

  // A request that does not serialize is sent with empty arguments, a header that does not as
  // an empty header.
  function Assemble(service: seq<byte>, verb: seq<byte>, payload: seq<byte>): seq<byte> {
    var args := ArgsOf(payload);
    var header := match Output(CallHeader(service, verb, args))
                  case None => []
                  case Some(s) => s;
    LittleEndian(|header|, 4) + header + args
  }

  lemma SentParts(size: seq<byte>, header: seq<byte>, args: seq<byte>)
    requires |size| == 4
    ensures (size + header + args)[..4] == size && (size + header + args)[4 + |header|..] == args
  {
  }

  method CallMethod(service: seq<byte>, verb: seq<byte>, payload: seq<byte>) returns (sendRpcStr: seq<byte>)
    ensures sendRpcStr == Assemble(service, verb, payload)
    ensures var header := |sendRpcStr| - 4 - |ArgsOf(payload)|;
            && 0 <= header <= INT_MAX
            && sendRpcStr[..4] == [header % 256, header / 256 % 256, header / 65536 % 256, header / 16777216]
            && sendRpcStr[4 + header..] == (if |payload| > 2147483647 then [] else payload)
  {
    hide LittleEndian, FromLittleEndian, Serialize, ByteSize;
    var argsSize := 0;
    var argsStr := [];
    if |payload| <= INT_MAX {
      argsStr := payload;
      argsSize := |argsStr|;
    }
    var rpcHeader := new RpcHeader();
    rpcHeader.serviceName := service;
    rpcHeader.methodName := verb;
    rpcHeader.argsSize := argsSize;
    var headerSize := 0;
    var rpcHeaderStr := [];
    var output := rpcHeader.SerializeToString();
    if output.Some? {
      SizesBounded(rpcHeader.View());
      SerializedSize(rpcHeader.View());
      rpcHeaderStr := output.value;
      headerSize := |rpcHeaderStr|;
    }
    sendRpcStr := LittleEndian(headerSize, 4);
    sendRpcStr := sendRpcStr + rpcHeaderStr;
    sendRpcStr := sendRpcStr + argsStr;
    SentParts(LittleEndian(headerSize, 4), rpcHeaderStr, argsStr);
    FourBytes(headerSize);
  }

  // ----- The provider -----

  datatype Frame =
    | Call(service: seq<byte>, verb: seq<byte>, args: seq<byte>)
    | HeaderError           // the header does not parse: the frame is dropped
    | NotFound              // no such service, or no such method in it
    | OutOfRange            // std::out_of_range leaves OnMessage

  // std::string::substr
  function Substr(s: seq<byte>, pos: nat, len: nat): Option<seq<byte>> {
    if pos > |s| then None else Some(s[pos..Min(pos + len, |s|)])
  }

  type Services = map<seq<byte>, set<seq<byte>>>

  function OnMessage(recv: seq<byte>, services: Services): Frame {
    var headerSize := FromLittleEndian(recv[..Min(4, |recv|)]);
    match Substr(recv, 4, headerSize)
    case None => OutOfRange
    case Some(bytes) =>
      match Parse(bytes)
      case None => HeaderError
      case Some(h) =>
        if h.service !in services || h.verb !in services[h.service] then NotFound
        else
          match Substr(recv, (4 + headerSize) % TWO_32, h.argsSize)
          case None => OutOfRange
          case Some(args) => Call(h.service, h.verb, args)
  }

  // ----- The round trip -----

  // Whether request and header are what protobuf will serialize.
  ghost predicate Fits(service: seq<byte>, verb: seq<byte>, payload: seq<byte>) {
    |payload| <= 2147483647 && ByteSize(CallHeader(service, verb, payload)) <= 2147483647
  }

  predicate Published(h: Header, services: Services) {
    h.service in services && h.verb in services[h.service]
  }

  // A header, and what is behind it, as the provider reads them.
  lemma Taken(h: seq<byte>, args: seq<byte>, tail: seq<byte>, services: Services)
    requires |h| <= INT_MAX && Parse(h).Some?
    ensures var g := Parse(h).value;
            OnMessage(LittleEndian(|h|, 4) + h + args + tail, services)
            == if !Published(g, services) then NotFound
               else Call(g.service, g.verb, (args + tail)[..Min(g.argsSize, |args + tail|)])
  {
    hide Parse, LittleEndian, FromLittleEndian, Substr, OnMessage;
    var size := LittleEndian(|h|, 4);
    SizeRead(|h|);
    FrameParts(size, h, args, tail, Parse(h).value.argsSize);
    Dispatched(size + h + args + tail, services, size, h, |h|);
  }

  // A frame whose first four bytes say n, and n bytes of header, or what has come of them.
  lemma Dispatched(recv: seq<byte>, services: Services, size: seq<byte>, h: seq<byte>, n: nat)
    requires recv[..Min(4, |recv|)] == size && FromLittleEndian(size) == n <= INT_MAX
    requires Substr(recv, 4, n) == Some(h)
    ensures OnMessage(recv, services)
            == if Parse(h).None? then HeaderError
               else if !Published(Parse(h).value, services) then NotFound
               else if Substr(recv, 4 + n, Parse(h).value.argsSize).None? then OutOfRange
               else Call(Parse(h).value.service, Parse(h).value.verb,
                         Substr(recv, 4 + n, Parse(h).value.argsSize).value)
  {
    hide Parse, FromLittleEndian, Substr;
  }

  lemma FrameParts(size: seq<byte>, h: seq<byte>, args: seq<byte>, tail: seq<byte>, n: nat)
    requires |size| == 4
    ensures var recv := size + h + args + tail;
            && recv[..Min(4, |recv|)] == size && Substr(recv, 4, |h|) == Some(h)
            && Substr(recv, 4 + |h|, n) == Some((args + tail)[..Min(n, |args + tail|)])
  {
    var recv := size + h + args + tail;
    var behind := args + tail;
    assert recv == size + h + behind;
    assert recv[4..4 + |h|] == h;
    assert recv[4 + |h|..] == behind;
    var m := Min(n, |behind|);
    assert recv[4 + |h|..4 + |h| + m] == behind[..m];
  }

  lemma SizeRead(n: nat)
    requires n < TWO_32
    ensures FromLittleEndian(LittleEndian(n, 4)) == n
  {
    hide LittleEndian, FromLittleEndian;
    assert Power256(4) == TWO_32;
    LittleEndianRead(n, 4);
  }

  lemma SizesBounded(h: Header)
    requires ByteSize(h) <= INT_MAX
    ensures |h.service| <= INT_MAX && |h.verb| <= INT_MAX
  {
    hide VarintSize;
  }

  // A frame whose header serializes arrives with the arguments as they were serialized.
  lemma Arrives(service: seq<byte>, verb: seq<byte>, payload: seq<byte>, tail: seq<byte>, services: Services)
    requires service in services && verb in services[service]
    requires ByteSize(CallHeader(service, verb, ArgsOf(payload))) <= INT_MAX
    ensures OnMessage(Assemble(service, verb, payload) + tail, services) == Call(service, verb, ArgsOf(payload))
  {
    hide Parse, OnMessage, Serialize, LittleEndian, ByteSize;
    var args := ArgsOf(payload);
    var h := CallHeader(service, verb, args);
    SizesBounded(h);
    ParseSerialized(h);
    SerializedSize(h);
    Taken(Serialize(h), args, tail, services);
    assert (args + tail)[..|args|] == args;
  }

  // One whose header does not serialize arrives as a call of nothing with nothing.
  lemma ArrivesEmpty(service: seq<byte>, verb: seq<byte>, payload: seq<byte>, tail: seq<byte>, services: Services)
    requires ByteSize(CallHeader(service, verb, ArgsOf(payload))) > INT_MAX
    ensures OnMessage(Assemble(service, verb, payload) + tail, services)
            == if Published(EMPTY, services) then Call([], [], []) else NotFound
    ensures service != [] || verb != [] || ArgsOf(payload) != []
  {
    hide OnMessage, Serialize, LittleEndian;
    EmptyParsed();
    Taken([], ArgsOf(payload), tail, services);
    assert (ArgsOf(payload) + tail)[..0] == [];
  }

  lemma EmptyParsed()
    ensures Parse([]) == Some(EMPTY)
  {
  }

  // The call a published method receives is the call that was made, whatever bytes follow the
  // frame: exactly when request and header serialize.
  lemma FrameRoundTrip(service: seq<byte>, verb: seq<byte>, payload: seq<byte>, tail: seq<byte>, services: Services)
    requires service in services && verb in services[service]
    ensures OnMessage(Assemble(service, verb, payload) + tail, services) == Call(service, verb, payload)
            <==> Fits(service, verb, payload)
  {
    hide OnMessage, Assemble, ByteSize;
    if ByteSize(CallHeader(service, verb, ArgsOf(payload))) <= INT_MAX {
      Arrives(service, verb, payload, tail, services);
    } else {
      ArrivesEmpty(service, verb, payload, tail, services);
    }
  }

  // A request over 2 GB is not refused: the method is called with empty arguments.
  lemma OversizedArrivesEmpty(service: seq<byte>, verb: seq<byte>, payload: seq<byte>, tail: seq<byte>, services: Services)
    requires service in services && verb in services[service]
    requires |payload| > 2147483647 && ByteSize(CallHeader(service, verb, [])) <= 2147483647
    ensures OnMessage(Assemble(service, verb, payload) + tail, services) == Call(service, verb, [])
  {
    Arrives(service, verb, payload, tail, services);
  }

  // The position of the arguments is a uint32 and wraps: behind a header size of 2^32 - 4 or
  // more, which takes all that has arrived for the header, they are looked for from the front.
  lemma HeaderSizeWraps(recv: seq<byte>, services: Services)
    requires 4 <= |recv| < 4294967296 && FromLittleEndian(recv[..4]) >= 4294967292
    requires Parse(recv[4..]).Some? && Published(Parse(recv[4..]).value, services)
    ensures var h := Parse(recv[4..]).value; var pos := FromLittleEndian(recv[..4]) - 4294967292;
            && 0 <= pos <= 3
            && OnMessage(recv, services)
               == Call(h.service, h.verb, recv[pos..if pos + h.argsSize < |recv| then pos + h.argsSize else |recv|])
  {
    hide Parse, FromLittleEndian;
    var n := FromLittleEndian(recv[..4]);
    assert n < 4294967296 by { FourRead(recv[..4]); }
    assert recv[4..|recv|] == recv[4..];
    assert (4 + n) % TWO_32 == n - 4294967292;
  }

  // ----- A frame that arrives in part -----

  // What the first n bytes of a call's header parse to.
  function PartOf(h: Header, n: nat): Option<Header> {
    match WholeRecords(Fields(h), n)
    case None => None
    case Some(k) => Some(PutAll(EMPTY, Fields(h)[..k]))
  }

  // The provider does not wait for the rest of a frame.  Cut in its first four bytes, or in the
  // header at the end of a record, it raises out_of_range (unless the header so far names
  // nothing published); cut inside a record it is dropped; cut in the arguments, it calls the
  // method with what has come of them.
  lemma TornFrame(service: seq<byte>, verb: seq<byte>, payload: seq<byte>, services: Services, n: nat)
    requires service in services && verb in services[service] && Fits(service, verb, payload)
    requires n <= |Assemble(service, verb, payload)|
    ensures var h := CallHeader(service, verb, payload);
            var header := |Serialize(h)|;
            OnMessage(Assemble(service, verb, payload)[..n], services)
            == if n < 4 then OutOfRange
               else if n < 4 + header then
                 match PartOf(h, n - 4)
                 case None => HeaderError
                 case Some(g) => if Published(g, services) then OutOfRange else NotFound
               else Call(service, verb, payload[..n - 4 - header])
  {
    hide OnMessage, Serialize, LittleEndian, ByteSize, PartOf;
    var h := CallHeader(service, verb, payload);
    SizesBounded(h);
    SerializedSize(h);
    var bytes := Serialize(h);
    var frame := Assemble(service, verb, payload);
    if n < 4 {
      CutInSize(frame[..n], services);
    } else if n < 4 + |bytes| {
      CutInHeader(h, payload, n, services);
    } else {
      ParseSerialized(h);
      var cut := payload[..n - 4 - |bytes|];
      Taken(bytes, cut, [], services);
      assert frame[..n] == LittleEndian(|bytes|, 4) + bytes + cut + [];
      assert (cut + [])[..|cut|] == cut;
    }
  }

  lemma CutInSize(recv: seq<byte>, services: Services)
    requires |recv| < 4
    ensures OnMessage(recv, services) == OutOfRange
  {
    hide FromLittleEndian, Parse;
  }

  lemma CutInHeader(h: Header, args: seq<byte>, n: nat, services: Services)
    requires Valid(h) && 4 <= n < 4 + |Serialize(h)| <= 4 + INT_MAX
    ensures OnMessage((LittleEndian(|Serialize(h)|, 4) + Serialize(h) + args)[..n], services)
            == match PartOf(h, n - 4)
               case None => HeaderError
               case Some(g) => if Published(g, services) then OutOfRange else NotFound
  {
    hide OnMessage, Serialize, LittleEndian, FromLittleEndian, Encode, Fields;
    var bytes := Serialize(h);
    var size := LittleEndian(|bytes|, 4);
    var recv := (size + bytes + args)[..n];
    assert recv == size + bytes[..n - 4];
    assert recv[..4] == size && recv[4..|recv|] == bytes[..n - 4];
    SizeRead(|bytes|);
    Dispatched(recv, services, size, bytes[..n - 4], |bytes|);
    SerializeIsEncode(h);
    FieldsValid(h);
    CutIsPut(EMPTY, Fields(h), n - 4);
  }
}
