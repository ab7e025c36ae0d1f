/** The mDNS responder of cmd/docker-net-connect/mdns/conn.go: construction
    over the enumerated interfaces, the per-packet worker step, answer
    synthesis, the transmission policy, and the Close lifecycle.

    Sockets, the operating system's interface table and the DNS wire codec
    are not modelled as behaviour: their outcomes arrive as values
    (Interface.joinOk, Interface.setMulticastOk, the `system` map that
    InterfaceByIndex consults, the `Codec` predicates, the read events). */
module MdnsConn {
  import opened Wrappers
  import opened NetIP
  import opened MdnsConfig

  const DestinationAddress: string := "224.0.0.251:5353"
  const MaxMessageRecords: nat := 3
  const ResponseTTL: nat := 2
  /** RFC 6762 section 17: the IPv4 header and the UDP header are subtracted from the MTU. */
  const IPv4HeaderLen: nat := 20
  const UDPHeaderLen: nat := 8
  /** RFC 1035 sections 3.2.2 and 3.2.4. */
  const TypeA: nat := 1
  const ClassINET: nat := 1

  /** One enumerated network interface, with the outcomes of the socket calls made on it. */
  datatype Interface = Interface(index: int, mtu: int, isLoopback: bool, joinOk: bool, setMulticastOk: bool)

  datatype ServerError = NilConfig | InterfacesFailed | NoPositiveMTUFound | JoiningMulticastGroup | ResolveFailed

  // ---------------------------------------------------------------------
  // Construction
  // ---------------------------------------------------------------------

  /** The interfaces whose JoinGroup succeeded, in enumeration order. */
  function Joined(ifaces: seq<Interface>): (r: seq<Interface>)
    ensures |r| <= |ifaces|
  {
    if ifaces == [] then []
    else
      var last := ifaces[|ifaces| - 1];
      Joined(ifaces[..|ifaces| - 1]) + (if last.joinOk then [last] else [])
  }

  /** How many JoinGroup calls failed. */
  function JoinFailures(ifaces: seq<Interface>): nat {
    if ifaces == [] then 0
    else JoinFailures(ifaces[..|ifaces| - 1]) + (if ifaces[|ifaces| - 1].joinOk then 0 else 1)
  }

  /** The running maximum of the MTUs, starting from 0. */
  function MaxMtu(ifaces: seq<Interface>): int {
    if ifaces == [] then 0
    else
      var m := MaxMtu(ifaces[..|ifaces| - 1]);
      if ifaces[|ifaces| - 1].mtu > m then ifaces[|ifaces| - 1].mtu else m
  }

  lemma {:induction false} JoinedExactly(ifaces: seq<Interface>)
    ensures forall x :: x in Joined(ifaces) <==> x in ifaces && x.joinOk
    ensures |Joined(ifaces)| + JoinFailures(ifaces) == |ifaces|
  {
    if ifaces != [] {
      var init := ifaces[..|ifaces| - 1];
      JoinedExactly(init);
      assert ifaces == init + [ifaces[|ifaces| - 1]];
    }
  }

  /** Joined keeps enumeration order: it distributes over concatenation. */
  lemma {:induction false} JoinedAppend(a: seq<Interface>, b: seq<Interface>)
    ensures Joined(a + b) == Joined(a) + Joined(b)
  {
    if b != [] {
      var init := b[..|b| - 1];
      JoinedAppend(a, init);
      assert (a + b)[..|a + b| - 1] == a + init;
    } else {
      assert a + b == a;
    }
  }

  lemma {:induction false} MaxMtuIsMaximum(ifaces: seq<Interface>)
    ensures MaxMtu(ifaces) >= 0
    ensures forall i :: 0 <= i < |ifaces| ==> ifaces[i].mtu <= MaxMtu(ifaces)
    ensures MaxMtu(ifaces) > 0 ==> exists i :: 0 <= i < |ifaces| && ifaces[i].mtu == MaxMtu(ifaces)
  {
    if ifaces != [] {
      var init := ifaces[..|ifaces| - 1];
      MaxMtuIsMaximum(init);
      assert forall i :: 0 <= i < |init| ==> init[i] == ifaces[i];
      if MaxMtu(init) > 0 && ifaces[|ifaces| - 1].mtu <= MaxMtu(init) {
        var i :| 0 <= i < |init| && init[i].mtu == MaxMtu(init);
        assert ifaces[i].mtu == MaxMtu(ifaces);
      }
    }
  }

  /** MaxMtu is zero exactly when no interface has a positive MTU. */
  lemma NoPositiveMtu(ifaces: seq<Interface>)
    ensures MaxMtu(ifaces) == 0 <==> forall x :: x in ifaces ==> x.mtu <= 0
  {
    MaxMtuIsMaximum(ifaces);
  }

  /** What a successful Server call sets up. */
  datatype Setup = Setup(ifaces: seq<Interface>, bufferSize: int, table: map<string, IP>)

  /** The outcome of Server (conn.go:39-96), in the order the code checks:
      nil config, interface enumeration, positive MTU, join failures,
      destination address resolution. */
  function ServerSpec(config: Option<Config>, enumerated: Option<seq<Interface>>, resolveOk: bool): (r: Result<Setup, ServerError>)
    ensures config.None? ==> r == Failure(NilConfig)
    ensures config.Some? && enumerated.None? ==> r == Failure(InterfacesFailed)
    ensures config.Some? && enumerated.Some? ==>
      (r == Failure(NoPositiveMTUFound) <==> forall x :: x in enumerated.value && x.joinOk ==> x.mtu <= 0)
    ensures r != Failure(JoiningMulticastGroup)
    ensures config.Some? && enumerated.Some? && (exists x :: x in enumerated.value && x.joinOk && x.mtu > 0) ==>
      (r.Success? <==> resolveOk)
    ensures r == Failure(ResolveFailed) ==> !resolveOk
    ensures r.Success? ==>
      && config.Some? && enumerated.Some? && resolveOk
      && r.value.ifaces == Joined(enumerated.value)
      && r.value.ifaces != []
      && r.value.bufferSize == MaxMtu(Joined(enumerated.value)) - IPv4HeaderLen - UDPHeaderLen
      && r.value.table == config.value.localNamesToIps
  {
    if config.None? then Failure(NilConfig)
    else if enumerated.None? then Failure(InterfacesFailed)
    else
      var all := enumerated.value;
      var use := Joined(all);
      var inboundBufferSize := MaxMtu(use);
      var joinErrCount := JoinFailures(all);
      JoinedExactly(all);
      NoPositiveMtu(use);
      if inboundBufferSize == 0 then Failure(NoPositiveMTUFound)
      else if joinErrCount >= |all| then Failure(JoiningMulticastGroup)
      else if !resolveOk then Failure(ResolveFailed)
      else Success(Setup(use, inboundBufferSize - IPv4HeaderLen - UDPHeaderLen, config.value.localNamesToIps))
  }

  /** With no interfaces, or with every join failing, Server reports
      NoPositiveMTUFound, not JoiningMulticastGroup: the MTU check comes first. */
  lemma AllJoinsFailedReportsNoPositiveMtu(config: Config, all: seq<Interface>, resolveOk: bool)
    requires forall x :: x in all ==> !x.joinOk
    ensures ServerSpec(Some(config), Some(all), resolveOk) == Failure(NoPositiveMTUFound)
  {
    NothingJoined(all);
  }

  lemma {:induction false} NothingJoined(all: seq<Interface>)
    requires forall x :: x in all ==> !x.joinOk
    ensures Joined(all) == []
  {
    if all != [] {
      assert all[|all| - 1] in all;
      NothingJoined(all[..|all| - 1]);
    }
  }

  /** The loop of Server (conn.go:49-63): join each interface, count the
      failures and keep the running maximum MTU of those that joined. */
  method JoinAll(all: seq<Interface>) returns (ifacesToUse: seq<Interface>, joinErrCount: nat, inboundBufferSize: int)
    ensures ifacesToUse == Joined(all)
    ensures joinErrCount == JoinFailures(all)
    ensures inboundBufferSize == MaxMtu(ifacesToUse)
  {
    ifacesToUse, joinErrCount, inboundBufferSize := [], 0, 0;
    var i := 0;
    while i < |all|
      invariant 0 <= i <= |all|
      invariant ifacesToUse == Joined(all[..i])
      invariant joinErrCount == JoinFailures(all[..i])
      invariant inboundBufferSize == MaxMtu(ifacesToUse)
    {
      assert all[..i + 1][..i] == all[..i];
      var ifc := all[i];
      if !ifc.joinOk {
        joinErrCount := joinErrCount + 1;
      } else {
        ifacesToUse := ifacesToUse + [ifc];
        assert ifacesToUse[..|ifacesToUse| - 1] == Joined(all[..i]);
        if ifc.mtu > inboundBufferSize {
          inboundBufferSize := ifc.mtu;
        }
      }
      i := i + 1;
    }
    assert all[..i] == all;
  }

  /** Server (conn.go:39-96). On success the responder is running with the
      joined interfaces, the configured table, an empty send trace and a
      read buffer of the maximum MTU less 28 bytes. */
  method Server(config: Option<Config>, enumerated: Option<seq<Interface>>, resolveOk: bool)
    returns (r: Result<Conn, ServerError>)
    ensures r.Failure? ==> ServerSpec(config, enumerated, resolveOk) == Failure(r.error)
    ensures r.Success? ==>
      && ServerSpec(config, enumerated, resolveOk).Success?
      && fresh(r.value) && r.value.Valid() && r.value.State() == Running && r.value.sent == []
      && r.value.Snapshot() == ServerSpec(config, enumerated, resolveOk).value
  {
    if config.None? {
      return Failure(NilConfig);
    }
    if enumerated.None? {
      return Failure(InterfacesFailed);
    }
    var all := enumerated.value;
    var ifacesToUse, joinErrCount, inboundBufferSize := JoinAll(all);
    if inboundBufferSize == 0 {
      return Failure(NoPositiveMTUFound);
    }
    if joinErrCount >= |all| {
      return Failure(JoiningMulticastGroup);
    }
    if !resolveOk {
      return Failure(ResolveFailed);
    }
    var c := new Conn(ifacesToUse, config.value.localNamesToIps, inboundBufferSize - IPv4HeaderLen - UDPHeaderLen);
    return Success(c);
  }

  // ---------------------------------------------------------------------
  // Answer synthesis
  // ---------------------------------------------------------------------

  /** Minimal big-endian form of an unsigned number, as big.Int.Bytes() gives it. */
  function TrimLeadingZeros(s: seq<Byte>): (r: seq<Byte>)
    ensures |r| <= |s|
  {
    if s == [] then []
    else if s[0] == 0 then TrimLeadingZeros(s[1..])
    else s
  }

  /** The unsigned number a big-endian byte string denotes. */
  function BigEndian(s: seq<Byte>): nat {
    if s == [] then 0 else BigEndian(s[..|s| - 1]) * 256 + s[|s| - 1]
  }

  lemma {:induction false} BigEndianLeadingZero(s: seq<Byte>)
    requires s != [] && s[0] == 0
    ensures BigEndian(s) == BigEndian(s[1..])
  {
    if |s| > 1 {
      assert s[..|s| - 1][1..] == s[1..][..|s[1..]| - 1];
      BigEndianLeadingZero(s[..|s| - 1]);
    } else {
      assert s[..|s| - 1] == [];
    }
  }

  /** big.Int round trip: the same number, with no leading zero byte. */
  lemma {:induction false} TrimLeadingZerosMinimal(s: seq<Byte>)
    ensures BigEndian(TrimLeadingZeros(s)) == BigEndian(s)
    ensures TrimLeadingZeros(s) == [] || TrimLeadingZeros(s)[0] != 0
    ensures TrimLeadingZeros(s) == s[|s| - |TrimLeadingZeros(s)|..]
  {
    if s != [] && s[0] == 0 {
      TrimLeadingZerosMinimal(s[1..]);
      BigEndianLeadingZero(s);
    }
  }

  function Zeros(n: nat): (r: seq<Byte>)
    ensures |r| == n && forall i :: 0 <= i < n ==> r[i] == 0
  {
    if n == 0 then [] else Zeros(n - 1) + [0]
  }

  /** ipToBytes (conn.go:114-124): To4, then a big.Int round trip whose
      minimal bytes are copied to the front of a zeroed 4-byte array. */
  function IpToBytes(ip: IP): (out: seq<Byte>)
    ensures |out| == 4
  {
    match To4(ip)
    case None => Zeros(4)
    case Some(raw) =>
      var m := TrimLeadingZeros(raw);
      m + Zeros(4 - |m|)
  }

  lemma IpToBytesNonIPv4(ip: IP)
    requires To4(ip).None?
    ensures IpToBytes(ip) == [0, 0, 0, 0]
  {
  }

  lemma IpToBytesNonZeroFirstOctet(ip: IP)
    requires To4(ip).Some? && To4(ip).value[0] != 0
    ensures IpToBytes(ip) == To4(ip).value
  {
  }

  /** With k leading zero octets, the remaining octets move to the front
      and k zero octets follow. */
  lemma IpToBytesShiftsLeadingZeros(ip: IP, k: nat)
    requires To4(ip).Some? && k < 4
    requires forall j :: 0 <= j < k ==> To4(ip).value[j] == 0
    requires To4(ip).value[k] != 0
    ensures IpToBytes(ip) == To4(ip).value[k..] + Zeros(k)
  {
    var raw := To4(ip).value;
    var j := 0;
    while j < k
      invariant 0 <= j <= k
      invariant TrimLeadingZeros(raw) == TrimLeadingZeros(raw[j..])
    {
      assert raw[j..][1..] == raw[j + 1..];
      j := j + 1;
    }
  }

  lemma IpToBytesExample()
    ensures IpToBytes(IPv4(0, 0, 0, 5)) == [5, 0, 0, 0]
    ensures IpToBytes(IPv4(10, 0, 0, 5)) == [10, 0, 0, 5]
  {
    var raw := To4(IPv4(0, 0, 0, 5)).value;
    assert raw == [0, 0, 0, 5];
    assert raw[1..][1..][1..] == [5];
  }

  datatype Header = Header(response: bool, authoritative: bool)
  datatype Resource = Resource(name: string, rrtype: nat, rrclass: nat, ttl: nat, a: seq<Byte>)
  datatype Message = Message(header: Header, questions: seq<string>, answers: seq<Resource>)

  /** The message sendAnswer builds (conn.go:169-187). */
  function AnswerMessage(name: string, ip: IP): (m: Message)
    ensures m.header.response && m.header.authoritative
    ensures m.questions == []
    ensures |m.answers| == 1
    ensures m.answers[0].name == name && m.answers[0].rrtype == TypeA && m.answers[0].rrclass == ClassINET
    ensures m.answers[0].ttl == ResponseTTL && m.answers[0].a == IpToBytes(ip)
  {
    Message(Header(true, true), [], [Resource(name, TypeA, ClassINET, ResponseTTL, IpToBytes(ip))])
  }

  /** The outcomes of the DNS codec: whether dnsmessage.NewName accepts a
      name, and whether Message.Pack succeeds. */
  datatype Codec = Codec(newNameOk: string -> bool, packOk: Message -> bool)

  // ---------------------------------------------------------------------
  // Transmission policy
  // ---------------------------------------------------------------------

  /** One WriteTo of an answer, on the interface with the given index. */
  datatype Send = Send(ifIndex: int, packet: Message)

  /** Whether the loop over joined interfaces writes on this one (conn.go:148-157). */
  predicate WritesOn(ifc: Interface, onlyLoopback: bool) {
    !(onlyLoopback && !ifc.isLoopback) && ifc.setMulticastOk
  }

  /** The writes of the all-interface branch of writeToSocket. */
  function BroadcastWrites(ifaces: seq<Interface>, packet: Message, onlyLoopback: bool): (r: seq<Send>)
    ensures |r| <= |ifaces|
  {
    if ifaces == [] then []
    else
      var last := ifaces[|ifaces| - 1];
      BroadcastWrites(ifaces[..|ifaces| - 1], packet, onlyLoopback)
      + (if WritesOn(last, onlyLoopback) then [Send(last.index, packet)] else [])
  }

  /** The writes of writeToSocket (conn.go:126-160). `system` is the
      operating system's interface table that InterfaceByIndex consults. */
  function Writes(ifaces: seq<Interface>, system: map<int, Interface>, ifIndex: int, packet: Message, onlyLoopback: bool): seq<Send> {
    if ifIndex != 0 then
      if ifIndex !in system then []
      else if onlyLoopback && !system[ifIndex].isLoopback then []
      else if !system[ifIndex].setMulticastOk then []
      else [Send(ifIndex, packet)]
    else BroadcastWrites(ifaces, packet, onlyLoopback)
  }

  /** Targeted sending: at most one write, on the requested index, exactly
      when the lookup succeeds, the loopback guard passes and the interface
      can be selected; the joined interfaces play no part. */
  lemma TargetedWrite(ifaces: seq<Interface>, other: seq<Interface>, system: map<int, Interface>, ifIndex: int, packet: Message, onlyLoopback: bool)
    requires ifIndex != 0
    ensures |Writes(ifaces, system, ifIndex, packet, onlyLoopback)| <= 1
    ensures |Writes(ifaces, system, ifIndex, packet, onlyLoopback)| == 1 <==>
      ifIndex in system && WritesOn(system[ifIndex], onlyLoopback)
    ensures forall s :: s in Writes(ifaces, system, ifIndex, packet, onlyLoopback) ==> s == Send(ifIndex, packet)
    ensures Writes(ifaces, system, ifIndex, packet, onlyLoopback) == Writes(other, system, ifIndex, packet, onlyLoopback)
  {
  }

  /** Broadcast order: the writes for a + b are those for a, then those for b
      (a failing interface does not stop the loop). */
  lemma {:induction false} BroadcastAppend(a: seq<Interface>, b: seq<Interface>, packet: Message, onlyLoopback: bool)
    ensures BroadcastWrites(a + b, packet, onlyLoopback) == BroadcastWrites(a, packet, onlyLoopback) + BroadcastWrites(b, packet, onlyLoopback)
  {
    if b != [] {
      BroadcastAppend(a, b[..|b| - 1], packet, onlyLoopback);
      assert (a + b)[..|a + b| - 1] == a + b[..|b| - 1];
    } else {
      assert a + b == a;
    }
  }

  /** Every broadcast write carries the packet and goes out on a joined
      interface that passes the loopback guard and can be selected; every
      such interface gets one. */
  lemma {:induction false} BroadcastWritesExactly(ifaces: seq<Interface>, packet: Message, onlyLoopback: bool)
    ensures forall s :: s in BroadcastWrites(ifaces, packet, onlyLoopback) ==>
      s.packet == packet && exists x :: x in ifaces && x.index == s.ifIndex && WritesOn(x, onlyLoopback)
    ensures forall x :: x in ifaces && WritesOn(x, onlyLoopback) ==> Send(x.index, packet) in BroadcastWrites(ifaces, packet, onlyLoopback)
  {
    if ifaces != [] {
      var init := ifaces[..|ifaces| - 1];
      BroadcastWritesExactly(init, packet, onlyLoopback);
      assert ifaces == init + [ifaces[|ifaces| - 1]];
    }
  }

  /** The loopback guard: a loopback answer is never broadcast on a
      non-loopback interface. */
  lemma BroadcastLoopbackGuard(ifaces: seq<Interface>, packet: Message, s: Send)
    requires s in BroadcastWrites(ifaces, packet, true)
    ensures exists x :: x in ifaces && x.index == s.ifIndex && x.isLoopback
  {
    BroadcastWritesExactly(ifaces, packet, true);
  }

  /** The writes of sendAnswer (conn.go:162-196): nothing when NewName or
      Pack fails. */
  function AnswerWrites(ifaces: seq<Interface>, system: map<int, Interface>, codec: Codec, name: string, ifIndex: int, ip: IP): seq<Send> {
    if !codec.newNameOk(name) then []
    else
      var m := AnswerMessage(name, ip);
      if !codec.packOk(m) then [] else Writes(ifaces, system, ifIndex, m, IsLoopback(ip))
  }

  function Max(a: int, b: int): int { if a < b then b else a }

  /** One answer is at most one write per joined interface, and at most one
      write when targeted. */
  lemma AnswerWritesBound(ifaces: seq<Interface>, system: map<int, Interface>, codec: Codec, name: string, ifIndex: int, ip: IP)
    ensures |AnswerWrites(ifaces, system, codec, name, ifIndex, ip)| <= Max(1, |ifaces|)
  {
  }

  // ---------------------------------------------------------------------
  // The per-packet worker step
  // ---------------------------------------------------------------------

  /** How the question section ends after the names that parsed. */
  datatype QuestionEnd = SectionDone | QuestionError
  datatype Questions = Questions(names: seq<string>, end: QuestionEnd)
  /** The outcome of Parser.Start on one packet. */
  datatype ParseResult = ParseFailed | Parsed(questions: Questions)
  /** One ReadFrom while the socket is open: a non-closed read error, or a
      packet with the control message's interface index when one arrived. */
  datatype ReadEvent = ReadFailed | Received(controlIfIndex: Option<int>, packet: ParseResult)

  /** The question names the loop at conn.go:231 looks at: i runs from 0 to
      MaxMessageRecords inclusive. */
  function Examined(names: seq<string>): (r: seq<string>)
    ensures |r| <= MaxMessageRecords + 1 && |r| <= |names| && r == names[..|r|]
    ensures |names| <= MaxMessageRecords + 1 ==> r == names
  {
    if |names| <= MaxMessageRecords + 1 then names else names[..MaxMessageRecords + 1]
  }

  /** The writes of a run of items, each item contributing its own in order. */
  function Flatten<T>(each: T -> seq<Send>, xs: seq<T>): seq<Send> {
    if xs == [] then [] else Flatten(each, xs[..|xs| - 1]) + each(xs[|xs| - 1])
  }

  lemma FlattenStep<T>(each: T -> seq<Send>, xs: seq<T>, k: int)
    requires 0 <= k < |xs|
    ensures Flatten(each, xs[..k + 1]) == Flatten(each, xs[..k]) + each(xs[k])
  {
    assert xs[..k + 1][..k] == xs[..k];
  }

  lemma {:induction false} FlattenAppend<T>(each: T -> seq<Send>, a: seq<T>, b: seq<T>)
    ensures Flatten(each, a + b) == Flatten(each, a) + Flatten(each, b)
    decreases |b|
  {
    if b != [] {
      var init, last := b[..|b| - 1], b[|b| - 1];
      FlattenAppend(each, a, init);
      assert (a + b)[..|a + b| - 1] == a + init && (a + b)[|a + b| - 1] == last;
    } else {
      assert a + b == a;
    }
  }

  /** The writes for one question name: the answer when the name is in the
      table. Table keys are unique, so the source's loop over the map finds
      at most one key equal to the name whatever its iteration order. */
  function NameWrites(ifaces: seq<Interface>, system: map<int, Interface>, codec: Codec, table: map<string, IP>, ifIndex: int, name: string): seq<Send> {
    if name in table then AnswerWrites(ifaces, system, codec, name, ifIndex, table[name]) else []
  }

  function NameWritesOf(ifaces: seq<Interface>, system: map<int, Interface>, codec: Codec, table: map<string, IP>, ifIndex: int): string -> seq<Send> {
    name => NameWrites(ifaces, system, codec, table, ifIndex, name)
  }

  /** The writes for a run of questions, in order. */
  function QuestionWrites(ifaces: seq<Interface>, system: map<int, Interface>, codec: Codec, table: map<string, IP>, ifIndex: int, names: seq<string>): seq<Send> {
    Flatten(NameWritesOf(ifaces, system, codec, table, ifIndex), names)
  }

  /** The writes caused by one read (conn.go:209-245). */
  function EventWrites(ifaces: seq<Interface>, system: map<int, Interface>, codec: Codec, table: map<string, IP>, ev: ReadEvent): seq<Send> {
    match ev
    case ReadFailed => []
    case Received(cm, ParseFailed) => []
    case Received(cm, Parsed(qs)) => QuestionWrites(ifaces, system, codec, table, cm.GetOr(0), Examined(qs.names))
  }

  function EventWritesOf(ifaces: seq<Interface>, system: map<int, Interface>, codec: Codec, table: map<string, IP>): ReadEvent -> seq<Send> {
    ev => EventWrites(ifaces, system, codec, table, ev)
  }

  /** The writes of the worker over a sequence of reads, in order. */
  function ServeWrites(ifaces: seq<Interface>, system: map<int, Interface>, codec: Codec, table: map<string, IP>, events: seq<ReadEvent>): seq<Send> {
    Flatten(EventWritesOf(ifaces, system, codec, table), events)
  }

  /** Questions are answered in order. */
  lemma {:induction false} QuestionWritesAppend(ifaces: seq<Interface>, system: map<int, Interface>, codec: Codec, table: map<string, IP>, ifIndex: int, a: seq<string>, b: seq<string>)
    ensures QuestionWrites(ifaces, system, codec, table, ifIndex, a + b)
      == QuestionWrites(ifaces, system, codec, table, ifIndex, a) + QuestionWrites(ifaces, system, codec, table, ifIndex, b)
  {
    FlattenAppend(NameWritesOf(ifaces, system, codec, table, ifIndex), a, b);
  }

  /** One more question: its answer comes after the earlier ones. */
  lemma QuestionWritesStep(ifaces: seq<Interface>, system: map<int, Interface>, codec: Codec, table: map<string, IP>, ifIndex: int, names: seq<string>, i: int)
    requires 0 <= i < |names|
    ensures QuestionWrites(ifaces, system, codec, table, ifIndex, names[..i + 1])
      == QuestionWrites(ifaces, system, codec, table, ifIndex, names[..i]) + NameWrites(ifaces, system, codec, table, ifIndex, names[i])
  {
    FlattenStep(NameWritesOf(ifaces, system, codec, table, ifIndex), names, i);
  }

  /** One more read: its writes come after the earlier ones. */
  lemma ServeWritesStep(ifaces: seq<Interface>, system: map<int, Interface>, codec: Codec, table: map<string, IP>, events: seq<ReadEvent>, k: int)
    requires 0 <= k < |events|
    ensures ServeWrites(ifaces, system, codec, table, events[..k + 1])
      == ServeWrites(ifaces, system, codec, table, events[..k]) + EventWrites(ifaces, system, codec, table, events[k])
  {
    FlattenStep(EventWritesOf(ifaces, system, codec, table), events, k);
  }

  /** Packets are handled in the order they are read; a failed read adds nothing. */
  lemma {:induction false} ServeWritesAppend(ifaces: seq<Interface>, system: map<int, Interface>, codec: Codec, table: map<string, IP>, a: seq<ReadEvent>, b: seq<ReadEvent>)
    ensures ServeWrites(ifaces, system, codec, table, a + b)
      == ServeWrites(ifaces, system, codec, table, a) + ServeWrites(ifaces, system, codec, table, b)
  {
    FlattenAppend(EventWritesOf(ifaces, system, codec, table), a, b);
  }

  /** Names that are not table keys produce no writes. */
  lemma {:induction false} UnknownNamesNoWrites(ifaces: seq<Interface>, system: map<int, Interface>, codec: Codec, table: map<string, IP>, ifIndex: int, names: seq<string>)
    requires forall n :: n in names ==> n !in table
    ensures QuestionWrites(ifaces, system, codec, table, ifIndex, names) == []
  {
    if names != [] {
      UnknownNamesNoWrites(ifaces, system, codec, table, ifIndex, names[..|names| - 1]);
      assert names[|names| - 1] in names;
    }
  }

  /** Under the ".local." naming convention, a query for any other name is never answered. */
  lemma NonLocalNameNoWrites(ifaces: seq<Interface>, system: map<int, Interface>, codec: Codec, config: Config, ifIndex: int, name: string)
    requires KeysEndInLocal(config)
    requires !(|name| >= |LocalSuffix| && name[|name| - |LocalSuffix|..] == LocalSuffix)
    ensures QuestionWrites(ifaces, system, codec, config.localNamesToIps, ifIndex, [name]) == []
  {
    UnknownNamesNoWrites(ifaces, system, codec, config.localNamesToIps, ifIndex, [name]);
  }

  /** A packet's writes are bounded: at most MaxMessageRecords + 1 answers,
      each at most one write per joined interface (one when targeted). */
  lemma {:induction false} QuestionWritesBound(ifaces: seq<Interface>, system: map<int, Interface>, codec: Codec, table: map<string, IP>, ifIndex: int, names: seq<string>)
    ensures |QuestionWrites(ifaces, system, codec, table, ifIndex, names)| <= |names| * Max(1, |ifaces|)
  {
    if names != [] {
      var name := names[|names| - 1];
      var init := names[..|names| - 1];
      var m := Max(1, |ifaces|);
      QuestionWritesBound(ifaces, system, codec, table, ifIndex, init);
      if name in table {
        AnswerWritesBound(ifaces, system, codec, name, ifIndex, table[name]);
      }
      assert |init| * m + m == |names| * m by {
        assert |names| == |init| + 1;
      }
    }
  }

  lemma PacketWritesBound(ifaces: seq<Interface>, system: map<int, Interface>, codec: Codec, table: map<string, IP>, ev: ReadEvent)
    ensures |EventWrites(ifaces, system, codec, table, ev)| <= (MaxMessageRecords + 1) * Max(1, |ifaces|)
  {
    if ev.Received? && ev.packet.Parsed? {
      var ex := Examined(ev.packet.questions.names);
      QuestionWritesBound(ifaces, system, codec, table, ev.controlIfIndex.GetOr(0), ex);
      assert |ex| * Max(1, |ifaces|) <= (MaxMessageRecords + 1) * Max(1, |ifaces|);
    }
  }

  /** Questions after the fourth are never looked at. */
  lemma QuestionsPastTheBoundIgnored(ifaces: seq<Interface>, system: map<int, Interface>, codec: Codec, table: map<string, IP>,
                                     cm: Option<int>, names: seq<string>, more: seq<string>, e1: QuestionEnd, e2: QuestionEnd)
    requires |names| == MaxMessageRecords + 1
    ensures EventWrites(ifaces, system, codec, table, Received(cm, Parsed(Questions(names + more, e1))))
         == EventWrites(ifaces, system, codec, table, Received(cm, Parsed(Questions(names, e2))))
  {
    assert (names + more)[..MaxMessageRecords + 1] == names;
  }

  /** A packet with one question for a configured name, arriving with a
      control message for an interface that can carry the answer, produces
      exactly one write: the answer for that name, on that interface. */
  lemma SingleQuestionAnswered(ifaces: seq<Interface>, system: map<int, Interface>, codec: Codec, table: map<string, IP>, name: string, ifIndex: int)
    requires name in table && ifIndex != 0
    requires ifIndex in system && WritesOn(system[ifIndex], IsLoopback(table[name]))
    requires codec.newNameOk(name) && codec.packOk(AnswerMessage(name, table[name]))
    ensures EventWrites(ifaces, system, codec, table, Received(Some(ifIndex), Parsed(Questions([name], SectionDone))))
         == [Send(ifIndex, AnswerMessage(name, table[name]))]
  {
    assert Examined([name]) == [name];
    assert [name][..0] == [];
    var m := AnswerMessage(name, table[name]);
    assert AnswerWrites(ifaces, system, codec, name, ifIndex, table[name]) == Writes(ifaces, system, ifIndex, m, IsLoopback(table[name]));
    assert QuestionWrites(ifaces, system, codec, table, ifIndex, [name])
        == QuestionWrites(ifaces, system, codec, table, ifIndex, []) + AnswerWrites(ifaces, system, codec, name, ifIndex, table[name]);
  }

  /** The concrete scenario: "myhost.local." maps to 10.0.0.5; a query for it
      on interface 3 is answered on interface 3 only, with one A record for
      10.0.0.5 and TTL 2; a query for "other.local." gets nothing. */
  lemma ScenarioMyHost(ifaces: seq<Interface>, system: map<int, Interface>)
    requires 3 in system && !system[3].isLoopback && system[3].setMulticastOk
    ensures var table := map["myhost.local." := IPv4(10, 0, 0, 5)];
            var codec := Codec(_ => true, _ => true);
            && EventWrites(ifaces, system, codec, table, Received(Some(3), Parsed(Questions(["myhost.local."], SectionDone))))
               == [Send(3, Message(Header(true, true), [], [Resource("myhost.local.", TypeA, ClassINET, 2, [10, 0, 0, 5])]))]
            && EventWrites(ifaces, system, codec, table, Received(Some(3), Parsed(Questions(["other.local."], SectionDone)))) == []
  {
    var table := map["myhost.local." := IPv4(10, 0, 0, 5)];
    var codec: Codec := Codec(_ => true, _ => true);
    IpToBytesExample();
    assert !IsLoopback(IPv4(10, 0, 0, 5)) by {
      assert To4(IPv4(10, 0, 0, 5)) == Some([10, 0, 0, 5]);
    }
    SingleQuestionAnswered(ifaces, system, codec, table, "myhost.local.", 3);
    assert "other.local." != "myhost.local." by {
      assert "other.local."[0] != "myhost.local."[0];
    }
    UnknownNamesNoWrites(ifaces, system, codec, table, 3, ["other.local."]);
  }

  // ---------------------------------------------------------------------
  // The responder instance and its lifecycle
  // ---------------------------------------------------------------------

  /** Running: socket open, worker reading. Closing: socket closed, worker
      not yet out (only inside Close). Closed: the closed channel has fired. */
  datatype Lifecycle = Running | Closing | Closed

  datatype CloseError = SocketCloseFailed

  class Conn {
    const ifaces: seq<Interface>
    const table: map<string, IP>
    const bufferSize: int
    var socketOpen: bool
    var closedFired: bool
    /** Every WriteTo the worker has issued, in order. */
    var sent: seq<Send>
    /** How many times the closed channel has been closed. */
    ghost var closeSignals: nat

    ghost predicate Valid()
      reads this
    {
      && (closedFired ==> !socketOpen)
      && closeSignals == (if closedFired then 1 else 0)
    }

    function State(): Lifecycle
      reads this
    {
      if socketOpen then Running else if !closedFired then Closing else Closed
    }

    function Snapshot(): Setup
      reads this
    {
      Setup(ifaces, bufferSize, table)
    }

    constructor (ifaces: seq<Interface>, table: map<string, IP>, bufferSize: int)
      ensures this.ifaces == ifaces && this.table == table && this.bufferSize == bufferSize
      ensures Valid() && State() == Running && sent == []
    {
      this.ifaces := ifaces;
      this.table := table;
      this.bufferSize := bufferSize;
      socketOpen := true;
      closedFired := false;
      sent := [];
      closeSignals := 0;
    }

    /** writeToSocket (conn.go:126-160). */
    method WriteToSocket(system: map<int, Interface>, ifIndex: int, packet: Message, onlyLoopback: bool)
      modifies this`sent
      ensures sent == old(sent) + Writes(ifaces, system, ifIndex, packet, onlyLoopback)
    {
      if ifIndex != 0 {
        if ifIndex !in system {
          return;
        }
        var ifc := system[ifIndex];
        if onlyLoopback && !ifc.isLoopback {
          return;
        }
        if ifc.setMulticastOk {
          sent := sent + [Send(ifIndex, packet)];
        }
        return;
      }
      var k := 0;
      while k < |ifaces|
        invariant 0 <= k <= |ifaces|
        invariant sent == old(sent) + BroadcastWrites(ifaces[..k], packet, onlyLoopback)
      {
        assert ifaces[..k + 1][..k] == ifaces[..k];
        var ifc := ifaces[k];
        if onlyLoopback && !ifc.isLoopback {
          k := k + 1;
          continue;
        }
        if ifc.setMulticastOk {
          sent := sent + [Send(ifc.index, packet)];
        }
        k := k + 1;
      }
      assert ifaces[..k] == ifaces;
    }

    /** sendAnswer (conn.go:162-196). */
    method SendAnswer(system: map<int, Interface>, codec: Codec, name: string, ifIndex: int, ip: IP)
      modifies this`sent
      ensures sent == old(sent) + AnswerWrites(ifaces, system, codec, name, ifIndex, ip)
    {
      if !codec.newNameOk(name) {
        return;
      }
      var msg := Message(Header(true, true), [], [Resource(name, TypeA, ClassINET, ResponseTTL, IpToBytes(ip))]);
      if !codec.packOk(msg) {
        return;
      }
      WriteToSocket(system, ifIndex, msg, IsLoopback(ip));
    }

    /** The body of one worker iteration after a successful read (conn.go:217-245). */
    method HandlePacket(system: map<int, Interface>, codec: Codec, controlIfIndex: Option<int>, packet: ParseResult)
      modifies this`sent
      ensures sent == old(sent) + EventWrites(ifaces, system, codec, table, Received(controlIfIndex, packet))
    {
      var ifIndex := 0;
      if controlIfIndex.Some? {
        ifIndex := controlIfIndex.value;
      }
      if packet.ParseFailed? {
        return;
      }
      AnswerQuestions(system, codec, ifIndex, packet.questions);
    }

    /** The question loop of conn.go:231-245: at most MaxMessageRecords + 1
        questions, stopping early at the end of the section or an error. */
    method AnswerQuestions(system: map<int, Interface>, codec: Codec, ifIndex: int, qs: Questions)
      modifies this`sent
      ensures sent == old(sent) + QuestionWrites(ifaces, system, codec, table, ifIndex, Examined(qs.names))
    {
      var i := 0;
      while i <= MaxMessageRecords
        invariant 0 <= i <= MaxMessageRecords + 1 && i <= |qs.names|
        invariant sent == old(sent) + QuestionWrites(ifaces, system, codec, table, ifIndex, qs.names[..i])
      {
        if i >= |qs.names| {
          // Parser.Question reports the end of the question section
          match qs.end
          case SectionDone => break;
          case QuestionError => return;
        }
        QuestionWritesStep(ifaces, system, codec, table, ifIndex, qs.names, i);
        AnswerName(system, codec, ifIndex, qs.names[i]);
        i := i + 1;
      }
      assert qs.names[..i] == Examined(qs.names);
    }

    /** One question: answered when its name is a key of the table (conn.go:240-244). */
    method AnswerName(system: map<int, Interface>, codec: Codec, ifIndex: int, name: string)
      modifies this`sent
      ensures sent == old(sent) + NameWrites(ifaces, system, codec, table, ifIndex, name)
    {
      if name in table {
        SendAnswer(system, codec, name, ifIndex, table[name]);
      }
    }

    /** The worker loop (conn.go:198-248) over reads made while the socket is
        open: a failed read is skipped, every packet is handled in order. */
    method Serve(system: map<int, Interface>, codec: Codec, events: seq<ReadEvent>)
      requires Valid() && State() == Running
      modifies this`sent
      ensures sent == old(sent) + (if bufferSize < 0 then [] else ServeWrites(ifaces, system, codec, table, events))
    {
      if bufferSize < 0 {
        // make([]byte, inboundBufferSize) panics before the first read
        // (conn.go:205): the worker never answers.
        return;
      }
      var k := 0;
      while k < |events|
        invariant 0 <= k <= |events|
        invariant sent == old(sent) + ServeWrites(ifaces, system, codec, table, events[..k])
      {
        ServeWritesStep(ifaces, system, codec, table, events, k);
        var ev := events[k];
        if ev.Received? {
          HandlePacket(system, codec, ev.controlIfIndex, ev.packet);
        }
        k := k + 1;
      }
      assert events[..k] == events;
    }

    /** The worker's exit: its read failed with ErrClosed and the deferred
        close(c.closed) fires (conn.go:199-203, 211-213). */
    method WorkerExit()
      requires Valid() && State() == Closing
      modifies this`closedFired, this`closeSignals
      ensures Valid() && State() == Closed
    {
      closedFired := true;
      closeSignals := closeSignals + 1;
    }

    /** Close (conn.go:99-112). `closeFails` is the outcome of socket.Close. */
    method Close(closeFails: bool) returns (err: Option<CloseError>)
      requires Valid() && State() != Closing
      modifies this`socketOpen, this`closedFired, this`closeSignals
      ensures Valid() && State() != Closing
      ensures old(State()) == Closed ==> err == None && State() == Closed && closeSignals == old(closeSignals)
      ensures old(State()) == Running && closeFails ==> err == Some(SocketCloseFailed) && State() == Running
      ensures old(State()) == Running && !closeFails ==> err == None && State() == Closed
    {
      if closedFired {
        return None;
      }
      if closeFails {
        return Some(SocketCloseFailed);
      }
      socketOpen := false;
      // the worker's pending read now fails with ErrClosed
      WorkerExit();
      return None;
    }
  }

  /** Close twice: both succeed and the closed channel fires once. */
  method CloseTwice(c: Conn) returns (e1: Option<CloseError>, e2: Option<CloseError>)
    requires c.Valid() && c.State() == Running
    modifies c`socketOpen, c`closedFired, c`closeSignals
    ensures e1 == None && e2 == None
    ensures c.State() == Closed && c.closeSignals == 1
  {
    e1 := c.Close(false);
    e2 := c.Close(false);
  }
}
