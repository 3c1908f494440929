/** The restricted BGP EVPN codec: Type-2 and Type-3 routes of RFC 7432, Type-5 routes of RFC 9136 and
    SRv6 service SIDs of RFC 9252, in UPDATE messages of RFC 4271. */
module Evpn {
  import opened Basics

  type byte = x: int | 0 <= x < 256
  type Bytes = seq<byte>

  // ---- numbers and framing -------------------------------------------------------------------

  function U16(n: nat): (r: Bytes)
    requires n < 65536
    ensures |r| == 2 && Be16(r) == n
  {
    [n / 256, n % 256]
  }

  function Be16(b: Bytes): nat
    requires |b| == 2
  {
    b[0] as int * 256 + b[1] as int
  }

  function U32(n: nat): (r: Bytes)
    requires n < 0x1_0000_0000
    ensures |r| == 4 && Be32(r) == n
  {
    assert U16(n / 65536) + U16(n % 65536) == [n / 65536 / 256, n / 65536 % 256, n % 65536 / 256, n % 65536 % 256];
    U16(n / 65536) + U16(n % 65536)
  }

  function Be32(b: Bytes): nat
    requires |b| == 4
  {
    Be16(b[..2]) * 65536 + Be16(b[2..])
  }

  function Zeros(n: nat): (r: Bytes)
    ensures |r| == n && forall i :: 0 <= i < n ==> r[i] == 0
  {
    if n == 0 then [] else [0] + Zeros(n - 1)
  }

  const AF: Bytes := [0, 25, 70]        // L2VPN, EVPN
  const DX4: nat := 0x11
  const DX2: nat := 0x15

  function Tlv(kind: byte, value: Bytes): Bytes
    requires |value| < 65536
  {
    [kind] + U16(|value|) + value
  }

  /** A path attribute with the extended-length flag set. */
  function Attr(kind: byte, value: Bytes, flags: byte): Bytes
    requires |value| < 65536
  {
    [if flags / 16 % 2 == 1 then flags else flags + 16, kind] + U16(|value|) + value
  }

  /** A message with its 19-byte header; longer payloads are refused. */
  function Message(kind: byte, data: Bytes): Option<Bytes> {
    if |data| > 4077 then None else Some(seq(16, i => 255 as byte) + U16(19 + |data|) + [kind] + data)
  }

  datatype Attribute = Attribute(kind: byte, value: Bytes, flags: byte)

  ghost predicate Encodable(attributes: seq<Attribute>) {
    forall i :: 0 <= i < |attributes| ==> |attributes[i].value| < 65536
  }

  function EncodeAttributes(attributes: seq<Attribute>): Bytes
    requires Encodable(attributes)
  {
    if attributes == [] then [] else
      Attr(attributes[0].kind, attributes[0].value, attributes[0].flags) + EncodeAttributes(attributes[1..])
  }

  /** The body of an UPDATE: no withdrawn IPv4 routes, the attributes, no IPv4 routes. */
  function Body(attributes: seq<Attribute>): Bytes
    requires Encodable(attributes) && |EncodeAttributes(attributes)| < 65536
  {
    [0, 0] + U16(|EncodeAttributes(attributes)|) + EncodeAttributes(attributes)
  }

  // ---- routes --------------------------------------------------------------------------------

  /** A route and, since every field takes part in it, also its key. */
  datatype Record =
    | Prefix(address: Bytes)
    | Mac(evi: nat, mac: Bytes)
    | Imet(evi: nat, originator: Bytes)
  {
    function Evi(): nat {
      if Prefix? then 100 else evi
    }

    function Type(): byte {
      match this
      case Prefix(_) => 5
      case Mac(_, _) => 2
      case Imet(_, _) => 3
    }

    predicate Valid() {
      match this
      case Prefix(address) => |address| == 4
      case Mac(evi, mac) => evi < 65536 && |mac| == 6
      case Imet(evi, originator) => evi < 65536 && |originator| == 16
    }
  }

  /** Network layer reachability information: type, length, route distinguisher and fields. */
  function Nlri(router: Bytes, r: Record): (b: Bytes)
    requires |router| == 4 && r.Valid()
    ensures |b| == 2 + (if r.Prefix? then 34 else if r.Mac? then 33 else 29)
  {
    var rd := U16(1) + router + U16(r.Evi());
    match r
    case Prefix(address) => [5, 34] + (rd + Zeros(14) + [32] + address + Zeros(4) + [0, 0, 0x30])
    case Mac(_, mac) => [2, 33] + (rd + Zeros(14) + [0x30] + mac + [0, 0, 0, 0x30])
    case Imet(_, originator) => [3, 29] + (rd + Zeros(4) + [0x80] + originator)
  }

  datatype Parsed = Bad | Skip | Good(record: Record)

  /** The value part `v` of one piece of reachability information of type `kind`. */
  function ParseOne(kind: byte, v: Bytes): Parsed {
    if kind == 5 then
      if |v| != 34 || v[8..22] != Zeros(14) || v[22] != 32 || v[27..31] != Zeros(4) || v[31..] != [0, 0, 0x30] then Bad
      else Good(Prefix(v[23..27]))
    else if kind == 2 || kind == 3 then
      if |v| < 8 || v[..2] != [0, 1] then Bad
      else if kind == 2 then
        if |v| != 33 || v[8..22] != Zeros(14) || v[22] != 48 || v[29..] != [0, 0, 0, 0x30] then Bad
        else Good(Mac(Be16(v[6..8]), v[23..29]))
      else
        if |v| != 29 || v[8..13] != Zeros(4) + [0x80] then Bad
        else Good(Imet(Be16(v[6..8]), v[13..29]))
    else Skip
  }

  function Records(data: Bytes): Option<seq<Record>>
    decreases |data|
  {
    if data == [] then Some([])
    else if |data| < 2 || |data| < 2 + data[1] as int then None
    else
      var one, rest := ParseOne(data[0], data[2..2 + data[1] as int]), Records(data[2 + data[1] as int..]);
      if one.Bad? || rest.None? then None
      else Some((if one.Good? then [one.record] else []) + rest.value)
  }

  function Tlvs(data: Bytes): Option<seq<(byte, Bytes)>>
    decreases |data|
  {
    if data == [] then Some([])
    else if |data| < 3 || |data| < 3 + Be16(data[1..3]) then None
    else
      var size := Be16(data[1..3]);
      var rest := Tlvs(data[3 + size..]);
      if rest.None? then None else Some([(data[0], data[3..3 + size])] + rest.value)
  }

  function FirstTlv(tlvs: seq<(byte, Bytes)>, kind: byte): Option<Bytes> {
    if tlvs == [] then None else if tlvs[0].0 == kind then Some(tlvs[0].1) else FirstTlv(tlvs[1..], kind)
  }

  /** Path attributes by type; a repeated type or a short attribute is an error. */
  function Attributes(data: Bytes, found: map<byte, Bytes>): Option<map<byte, Bytes>>
    decreases |data|
  {
    if data == [] then Some(found)
    else if |data| < 3 then None
    else
      var n := if data[0] / 16 % 2 == 1 then 4 else 3;
      if |data| < n then None else
        var length := if n == 4 then Be16(data[2..4]) else data[2];
        if |data| < n + length || data[1] in found then None
        else Attributes(data[n + length..], found[data[1] := data[n..n + length]])
  }

  function Get(attributes: map<byte, Bytes>, kind: byte): Bytes {
    if kind in attributes then attributes[kind] else []
  }

  function Communities(data: Bytes): seq<Bytes>
    requires |data| % 8 == 0
    decreases |data|
  {
    if data == [] then [] else [data[..8]] + Communities(data[8..])
  }

  function RouteTarget(evi: nat): (r: Bytes)
    requires evi < 0x1_0000_0000
    ensures |r| == 8
  {
    [0, 2] + U16(65000) + U32(evi)
  }

  function Mobility(sequence: nat): (r: Bytes)
    requires sequence < 0x1_0000_0000
    ensures |r| == 8
  {
    [6, 0, 0, 0] + U32(sequence)
  }

  /** The largest mobility sequence number among the communities, or zero. */
  function Sequence(communities: seq<Bytes>): nat {
    if communities == [] then 0 else
      var c, rest := communities[0], Sequence(communities[1..]);
      if |c| == 8 && c[..4] == [6, 0, 0, 0] && Be32(c[4..]) > rest then Be32(c[4..]) else rest
  }

  predicate ValidSid(sid: Bytes) {
    |sid| == 16 && sid[0] != 255 && sid != Zeros(16)
  }

  datatype Announced = Announced(record: Record, sid: Bytes, nexthop: Bytes, behavior: nat, target: nat, sequence: nat)
  datatype Update = Update(announced: seq<Announced>, withdrawn: seq<Record>)

  /** The service SID of an announcement whose attributes are complete and consistent. */
  function ServiceSid(attributes: map<byte, Bytes>, announced: seq<Record>): Option<Bytes>
    requires announced != []
  {
    var first := announced[0];
    var communities := Get(attributes, 16);
    if !(1 in attributes && attributes[1] == [0] && 2 in attributes && attributes[2] == [] && 5 in attributes
         && attributes[5] == U32(100)) then None
    else if |communities| % 8 != 0 then None
    else if exists r | r in announced :: r.Evi() != first.Evi() || r.Type() != first.Type() then None
    else if first.Evi() >= 65536 || RouteTarget(first.Evi()) !in Communities(communities) then None
    else
      var l2 := !first.Prefix?;
      var services := Tlvs(Get(attributes, 40));
      var service := if services.None? then None else FirstTlv(services.value, if l2 then 6 else 5);
      if service.None? || service.value == [] then None else
        var information := Tlvs(service.value[1..]);
        var info := if information.None? then None else FirstTlv(information.value, 1);
        if info.None? || |info.value| != 21 || Be16(info.value[18..20]) != (if l2 then DX2 else DX4) then None
        else if !ValidSid(info.value[1..17]) then None
        else Some(info.value[1..17])
  }

  /** Type-3 routes name their next hop as tunnel endpoint and originator. */
  predicate TunnelConsistent(attributes: map<byte, Bytes>, announced: seq<Record>, nexthop: Bytes)
    requires announced != []
  {
    announced[0].Imet? ==>
      && 22 in attributes && attributes[22] == [0, 6, 0, 0, 0x30] + nexthop
      && forall r | r in announced :: r.Imet? && r.originator == nexthop
  }

  /** Decoding the body of an UPDATE. Incomplete service attributes withdraw what they announce. */
  function Decoded(data: Bytes): Option<Update> {
    if |data| < 4 || data[..2] != [0, 0] || |data| != Be16(data[2..4]) + 4 then None else
      var parsed := Attributes(data[4..], map[]);
      if parsed.None? then None else Interpreted(parsed.value)
  }

  function Interpreted(attributes: map<byte, Bytes>): Option<Update> {
    var withdrawn :=
      if 15 !in attributes then Some([])
      else if |attributes[15]| < 3 || attributes[15][..3] != AF then None
      else Records(attributes[15][3..]);
    if withdrawn.None? then None
    else if 14 !in attributes then Some(Update([], withdrawn.value))
    else
      var reach := attributes[14];
      if |reach| < 21 || reach[..4] != AF + [16] then None else
        var announced := Records(reach[21..]);
        if announced.None? then None
        else if announced.value == [] then Some(Update([], withdrawn.value))
        else
          var sid := ServiceSid(attributes, announced.value);
          if sid.None? || !TunnelConsistent(attributes, announced.value,
                                            reach[4..20]) then Some(Update([], withdrawn.value + announced.value))
          else
            var behavior := if announced.value[0].Prefix? then DX4 else DX2;
            var evi := announced.value[0].Evi();
            var communities := Get(attributes, 16);
            var sequence := if |communities| % 8 == 0 then Sequence(Communities(communities)) else 0;
            Some(Update(seq(|announced.value|, i requires 0 <= i < |announced.value| =>
                              Announced(announced.value[i], sid.value, reach[4..20], behavior, evi, sequence)),
                                withdrawn.value))
  }

  // ---- encoders ------------------------------------------------------------------------------

  function Info(sid: Bytes, behavior: nat): (r: Bytes)
    requires |sid| == 16 && behavior < 65536
    ensures |r| == 21
  {
    [0] + sid + [0] + U16(behavior) + [0]
  }

  function Service(kind: byte, sid: Bytes, behavior: nat): (r: Bytes)
    requires |sid| == 16 && behavior < 65536
    ensures |r| == 28
  {
    Tlv(kind, [0] + Tlv(1, Info(sid, behavior)))
  }

  function Reach(nexthop: Bytes, route: Bytes): Bytes {
    AF + [16] + nexthop + [0] + route
  }

  /** The attributes that announce a route. Only Type-2 routes carry a mobility sequence. */
  function Announcement(router: Bytes, r: Record, nexthop: Bytes, sid: Bytes, sequence: nat): (a: seq<Attribute>)
    requires |router| == 4 && r.Valid() && |nexthop| == 16 && |sid| == 16 && sequence < 0x1_0000_0000
    ensures Encodable(a)
  {
    [Attribute(1, [0], 0x40), Attribute(2, [], 0x40), Attribute(5, U32(100), 0x40),
     Attribute(16, RouteTarget(r.Evi()) + (if r.Mac? then Mobility(sequence) else []), 0xc0),
     Attribute(40, Service(if r.Prefix? then 5 else 6, sid, if r.Prefix? then DX4 else DX2), 0xc0),
     Attribute(14, Reach(nexthop, Nlri(router, r)), 0x80)]
    + if r.Imet? then [Attribute(22, [0, 6, 0, 0, 0x30] + nexthop, 0xc0)] else []
  }

  function Withdrawal(router: Bytes, r: Record): (a: seq<Attribute>)
    requires |router| == 4 && r.Valid()
    ensures Encodable(a)
  {
    [Attribute(15, AF + Nlri(router, r), 0x80)]
  }

  // ---- round trip ----------------------------------------------------------------------------

  ghost function Collect(attributes: seq<Attribute>, found: map<byte, Bytes>): map<byte, Bytes> {
    if attributes == [] then found else Collect(attributes[1..], found[attributes[0].kind := attributes[0].value])
  }

  lemma AttributeRoundTrip(a: Attribute, rest: Bytes, found: map<byte, Bytes>)
    requires |a.value| < 65536 && a.kind !in found
    ensures Attributes(Attr(a.kind, a.value, a.flags) + rest, found) == Attributes(rest, found[a.kind := a.value])
  {
    var head, data := Attr(a.kind, a.value, a.flags), Attr(a.kind, a.value, a.flags) + rest;
    assert data[2..4] == U16(|a.value|);
    assert data[4..4 + |a.value|] == a.value && data[4 + |a.value|..] == rest;
  }

  ghost predicate KindsDistinct(attributes: seq<Attribute>, found: map<byte, Bytes>) {
    && (forall i, j :: 0 <= i < j < |attributes| ==> attributes[i].kind != attributes[j].kind)
    && (forall i :: 0 <= i < |attributes| ==> attributes[i].kind !in found)
  }

  /** Attributes of distinct types are found again, each with its value. */
  lemma {:induction false} AttributesRoundTrip(attributes: seq<Attribute>, found: map<byte, Bytes>)
    requires Encodable(attributes) && KindsDistinct(attributes, found)
    ensures Attributes(EncodeAttributes(attributes), found) == Some(Collect(attributes, found))
    decreases |attributes|
  {
    if attributes != [] {
      AttributeRoundTrip(attributes[0], EncodeAttributes(attributes[1..]), found);
      AttributesRoundTrip(attributes[1..], found[attributes[0].kind := attributes[0].value]);
    }
  }

  lemma {:induction false} CollectGet(attributes: seq<Attribute>, found: map<byte, Bytes>, i: nat)
    requires KindsDistinct(attributes, found) && i < |attributes|
    ensures attributes[i].kind in Collect(attributes, found)
            && Collect(attributes, found)[attributes[i].kind] == attributes[i].value
    decreases |attributes|
  {
    var next := found[attributes[0].kind := attributes[0].value];
    if i > 0 {
      CollectGet(attributes[1..], next, i - 1);
    } else {
      CollectKeeps(attributes[1..], next, attributes[0].kind);
    }
  }

  lemma {:induction false} CollectKeeps(attributes: seq<Attribute>, found: map<byte, Bytes>, kind: byte)
    requires forall i :: 0 <= i < |attributes| ==> attributes[i].kind != kind
    ensures kind in Collect(attributes, found) <==> kind in found
    ensures kind in found ==> Collect(attributes, found)[kind] == found[kind]
    decreases |attributes|
  {
    if attributes != [] {
      CollectKeeps(attributes[1..], found[attributes[0].kind := attributes[0].value], kind);
    }
  }

  lemma PrefixFields(rd: Bytes, address: Bytes)
    requires |rd| == 8 && |address| == 4
    ensures var v := rd + Zeros(14) + [32] + address + Zeros(4) + [0, 0, 0x30];
            |v| == 34 && v[8..22] == Zeros(14) && v[22] == 32 && v[23..27] == address && v[27..31] == Zeros(4)
              && v[31..] == [0, 0, 0x30]
  {
  }

  lemma MacFields(rd: Bytes, mac: Bytes)
    requires |rd| == 8 && |mac| == 6
    ensures var v := rd + Zeros(14) + [0x30] + mac + [0, 0, 0, 0x30];
            |v| == 33 && v[..2] == rd[..2] && v[6..8] == rd[6..8] && v[8..22] == Zeros(14) && v[22] == 48
              && v[23..29] == mac && v[29..] == [0, 0, 0, 0x30]
  {
  }

  lemma ImetFields(rd: Bytes, originator: Bytes)
    requires |rd| == 8 && |originator| == 16
    ensures var v := rd + Zeros(4) + [0x80] + originator;
            |v| == 29 && v[..2] == rd[..2] && v[6..8] == rd[6..8] && v[8..13] == Zeros(4) + [0x80]
              && v[13..29] == originator
  {
  }

  lemma Distinguisher(router: Bytes, evi: nat)
    requires |router| == 4 && evi < 65536
    ensures var rd := U16(1) + router + U16(evi); |rd| == 8 && rd[..2] == [0, 1] && rd[6..8] == U16(evi)
  {
  }

  /** One encoded route is read back as itself. */
  lemma NlriRoundTrip(router: Bytes, r: Record)
    requires |router| == 4 && r.Valid()
    ensures Records(Nlri(router, r)) == Some([r])
  {
    hide Zeros, U16;
    var rd := U16(1) + router + U16(r.Evi());
    var data := Nlri(router, r);
    var v := data[2..];
    Distinguisher(router, r.Evi());
    assert data[2..2 + data[1] as int] == v && data[2 + data[1] as int..] == [];
    match r {
      case Prefix(address) =>
        assert v == rd + Zeros(14) + [32] + address + Zeros(4) + [0, 0, 0x30];
        PrefixFields(rd, address);
      case Mac(_, mac) =>
        assert v == rd + Zeros(14) + [0x30] + mac + [0, 0, 0, 0x30];
        MacFields(rd, mac);
      case Imet(_, originator) =>
        assert v == rd + Zeros(4) + [0x80] + originator;
        ImetFields(rd, originator);
    }
    assert ParseOne(data[0], v) == Good(r);
    assert Records([]) == Some([]) && [r] + [] == [r];
  }

  lemma TlvRoundTrip(kind: byte, value: Bytes)
    requires |value| < 65536
    ensures Tlvs(Tlv(kind, value)) == Some([(kind, value)])
  {
    var data := Tlv(kind, value);
    assert data[1..3] == U16(|value|) && data[3..3 + |value|] == value && data[3 + |value|..] == [];
    assert Tlvs([]) == Some([]) && [(kind, value)] + [] == [(kind, value)];
  }

  lemma InfoFields(sid: Bytes, behavior: nat)
    requires |sid| == 16 && behavior < 65536
    ensures Info(sid, behavior)[1..17] == sid && Info(sid, behavior)[18..20] == U16(behavior)
  {
  }

  /** The SID can be read out of the service attribute. */
  lemma ServiceRoundTrip(kind: byte, sid: Bytes, behavior: nat)
    requires |sid| == 16 && behavior < 65536
    ensures var services := Tlvs(Service(kind, sid, behavior));
            && services.Some? && FirstTlv(services.value, kind) == Some([0] + Tlv(1, Info(sid, behavior)))
            && var inner := Tlvs(([0] + Tlv(1, Info(sid, behavior)))[1..]);
               inner.Some? && FirstTlv(inner.value, 1) == Some(Info(sid, behavior))
  {
    hide Info, Tlvs;
    var inner := Tlv(1, Info(sid, behavior));
    TlvRoundTrip(kind, [0] + inner);
    TlvRoundTrip(1, Info(sid, behavior));
    assert ([0] + inner)[1..] == inner;
  }

  lemma CommunitiesRoundTrip(r: Record, sequence: nat)
    requires r.Valid() && sequence < 0x1_0000_0000
    ensures var data := RouteTarget(r.Evi()) + (if r.Mac? then Mobility(sequence) else []);
            && |data| % 8 == 0 && RouteTarget(r.Evi()) in Communities(data)
            && Sequence(Communities(data)) == if r.Mac? then sequence else 0
  {
    var target, tail := RouteTarget(r.Evi()), if r.Mac? then Mobility(sequence) else [];
    var data := target + tail;
    assert data[..8] == target && data[8..] == tail;
    assert Communities(data) == [target] + Communities(tail);
    if r.Mac? {
      assert tail[..8] == tail && tail[8..] == [];
      assert Communities(tail) == [tail] + Communities([]);
      assert tail[..4] == [6, 0, 0, 0] && tail[4..] == U32(sequence);
    }
    assert target[0] == 0 && target[..4] != [6, 0, 0, 0] by {
      assert target[..4][0] == 0;
    }
    assert Sequence([]) == 0;
    assert Communities(data)[1..] == Communities(tail);
    if r.Mac? {
      assert Communities(tail) == [tail] && Communities(tail)[1..] == [];
    } else {
      assert Communities(tail) == [];
    }
  }

  lemma AnnouncementKinds(router: Bytes, r: Record, nexthop: Bytes, sid: Bytes, sequence: nat)
    requires |router| == 4 && r.Valid() && |nexthop| == 16 && |sid| == 16 && sequence < 0x1_0000_0000
    ensures KindsDistinct(Announcement(router, r, nexthop, sid, sequence), map[])
  {
    hide Service, Nlri, Reach, RouteTarget, Mobility, U32, Encodable;
    var a, kinds := Announcement(router, r, nexthop, sid, sequence), [1, 2, 5, 16, 40, 14, 22];
    assert |a| <= 7 && forall i :: 0 <= i < |a| ==> a[i].kind == kinds[i];
  }

  /** What the decoder finds in the attributes of an announcement. */
  lemma AnnouncementAttributes(router: Bytes, r: Record, nexthop: Bytes, sid: Bytes, sequence: nat, m: map<byte, Bytes>)
    requires |router| == 4 && r.Valid() && |nexthop| == 16 && |sid| == 16 && sequence < 0x1_0000_0000
    requires m == Collect(Announcement(router, r, nexthop, sid, sequence), map[])
    ensures 1 in m && m[1] == [0] && 2 in m && m[2] == [] && 5 in m && m[5] == U32(100)
    ensures 16 in m && m[16] == RouteTarget(r.Evi()) + (if r.Mac? then Mobility(sequence) else [])
    ensures 40 in m && m[40] == Service(if r.Prefix? then 5 else 6, sid, if r.Prefix? then DX4 else DX2)
    ensures 14 in m && m[14] == Reach(nexthop, Nlri(router, r)) && 15 !in m
    ensures r.Imet? ==> 22 in m && m[22] == [0, 6, 0, 0, 0x30] + nexthop
  {
    hide Service, Nlri, Reach, RouteTarget, Mobility, U32, Collect;
    var a := Announcement(router, r, nexthop, sid, sequence);
    AnnouncementKinds(router, r, nexthop, sid, sequence);
    CollectGet(a, map[], 0);
    CollectGet(a, map[], 1);
    CollectGet(a, map[], 2);
    CollectGet(a, map[], 3);
    CollectGet(a, map[], 4);
    CollectGet(a, map[], 5);
    CollectKeeps(a, map[], 15);
    if r.Imet? {
      CollectGet(a, map[], 6);
    }
  }

  lemma AnnouncementSid(r: Record, sid: Bytes, sequence: nat, m: map<byte, Bytes>)
    requires r.Valid() && ValidSid(sid) && sequence < 0x1_0000_0000
    requires 1 in m && m[1] == [0] && 2 in m && m[2] == [] && 5 in m && m[5] == U32(100)
    requires 16 in m && m[16] == RouteTarget(r.Evi()) + (if r.Mac? then Mobility(sequence) else [])
    requires 40 in m && m[40] == Service(if r.Prefix? then 5 else 6, sid, if r.Prefix? then DX4 else DX2)
    ensures ServiceSid(m, [r]) == Some(sid)
  {
    hide Service, RouteTarget, Mobility, U32, Communities, Tlvs, Info, Sequence, Zeros, FirstTlv;
    CommunitiesRoundTrip(r, sequence);
    ServiceRoundTrip(if r.Prefix? then 5 else 6, sid, if r.Prefix? then DX4 else DX2);
    InfoFields(sid, if r.Prefix? then DX4 else DX2);
  }

  lemma ReachFields(nexthop: Bytes, route: Bytes)
    requires |nexthop| == 16
    ensures var reach := Reach(nexthop, route);
            |reach| == 21 + |route| && reach[..4] == AF + [16] && reach[4..20] == nexthop && reach[21..] == route
  {
  }

  /** The route an announcement stands for. Only Type-2 routes carry a sequence number, and a Type-3
      route names its next hop as originator. */
  function Meaning(r: Record, nexthop: Bytes, sid: Bytes, sequence: nat): Announced {
    Announced(r, sid, nexthop, if r.Prefix? then DX4 else DX2, r.Evi(), if r.Mac? then sequence else 0)
  }

  lemma AnnouncementInterpreted(router: Bytes, r: Record, nexthop: Bytes, sid: Bytes, sequence: nat)
    requires |router| == 4 && r.Valid() && |nexthop| == 16 && ValidSid(sid) && sequence < 0x1_0000_0000
    requires r.Imet? ==> r.originator == nexthop
    ensures Interpreted(Collect(Announcement(router, r, nexthop, sid, sequence), map[])) ==
            Some(Update([Meaning(r, nexthop, sid, sequence)], []))
  {
    hide Collect, Announcement, Service, Nlri, Reach, RouteTarget, Mobility, U32, Communities, Sequence, ServiceSid,
         Records, ValidSid;
    SidLength(sid);
    var m := Collect(Announcement(router, r, nexthop, sid, sequence), map[]);
    AnnouncementAttributes(router, r, nexthop, sid, sequence, m);
    AnnouncementSid(r, sid, sequence, m);
    ReachFields(nexthop, Nlri(router, r));
    NlriRoundTrip(router, r);
    CommunitiesRoundTrip(r, sequence);
    assert Interpreted(m).Some? && Interpreted(m).value.withdrawn == [];
    var announced := Interpreted(m).value.announced;
    assert |announced| == 1 && announced[0] == Meaning(r, nexthop, sid, sequence);
    assert announced == [Meaning(r, nexthop, sid, sequence)];
  }

  lemma SidLength(sid: Bytes)
    requires ValidSid(sid)
    ensures |sid| == 16
  {
  }

  lemma {:induction false} EncodedSize(attributes: seq<Attribute>, bound: nat)
    requires Encodable(attributes) && forall i :: 0 <= i < |attributes| ==> |attributes[i].value| <= bound
    ensures |EncodeAttributes(attributes)| <= |attributes| * (bound + 4)
    decreases |attributes|
  {
    if attributes != [] {
      EncodedSize(attributes[1..], bound);
      assert |attributes| * (bound + 4) == (|attributes| - 1) * (bound + 4) + (bound + 4);
    }
  }

  lemma AnnouncementFits(router: Bytes, r: Record, nexthop: Bytes, sid: Bytes, sequence: nat)
    requires |router| == 4 && r.Valid() && |nexthop| == 16 && |sid| == 16 && sequence < 0x1_0000_0000
    ensures |EncodeAttributes(Announcement(router, r, nexthop, sid, sequence))| <= 7 * 61
  {
    var a := Announcement(router, r, nexthop, sid, sequence);
    EncodedSize(a, 57);
    assert |a| <= 7;
  }

  lemma BodyParsed(attributes: seq<Attribute>)
    requires Encodable(attributes) && |EncodeAttributes(attributes)| < 65536 && KindsDistinct(attributes, map[])
    ensures Decoded(Body(attributes)) == Interpreted(Collect(attributes, map[]))
  {
    hide Interpreted, Collect, Attributes;
    var encoded, data := EncodeAttributes(attributes), Body(attributes);
    assert data[..2] == [0, 0] && data[2..4] == U16(|encoded|) && data[4..] == encoded;
    AttributesRoundTrip(attributes, map[]);
  }

  /** Decoding an encoded Type-2, Type-3 or Type-5 announcement returns exactly that route. */
  lemma AnnouncementRoundTrip(router: Bytes, r: Record, nexthop: Bytes, sid: Bytes, sequence: nat)
    requires |router| == 4 && r.Valid() && |nexthop| == 16 && ValidSid(sid) && sequence < 0x1_0000_0000
    requires r.Imet? ==> r.originator == nexthop
    ensures |EncodeAttributes(Announcement(router, r, nexthop, sid, sequence))| < 65536
    ensures var body := Body(Announcement(router, r, nexthop, sid, sequence));
            && Decoded(body) == Some(Update([Meaning(r, nexthop, sid, sequence)], []))
            && Message(2, body).Some? && Message(2, body).value[19..] == body
  {
    hide Interpreted, Collect, Announcement, Decoded, EncodeAttributes, ValidSid;
    SidLength(sid);
    var a := Announcement(router, r, nexthop, sid, sequence);
    AnnouncementFits(router, r, nexthop, sid, sequence);
    AnnouncementKinds(router, r, nexthop, sid, sequence);
    BodyParsed(a);
    AnnouncementInterpreted(router, r, nexthop, sid, sequence);
    assert Message(2, Body(a)).value[19..] == Body(a);
  }

  /** Decoding an encoded withdrawal returns exactly its key. */
  lemma WithdrawalRoundTrip(router: Bytes, r: Record)
    requires |router| == 4 && r.Valid()
    ensures |EncodeAttributes(Withdrawal(router, r))| < 65536
    ensures Decoded(Body(Withdrawal(router, r))) == Some(Update([], [r]))
  {
    hide Records, Nlri;
    var a := Withdrawal(router, r);
    EncodedSize(a, 39);
    BodyParsed(a);
    NlriRoundTrip(router, r);
    var m := Collect(a, map[]);
    CollectGet(a, map[], 0);
    CollectKeeps(a, map[], 14);
    assert m[15][..3] == AF && m[15][3..] == Nlri(router, r);
  }

  /** Whatever bytes arrive, a route is announced only with a usable SID, a full next hop, the behaviour
      of its own type and the route target of its own instance. */
  lemma AnnouncedAreComplete(data: Bytes, i: nat)
    requires Decoded(data).Some? && i < |Decoded(data).value.announced|
    ensures var a := Decoded(data).value.announced[i];
            && ValidSid(a.sid) && |a.nexthop| == 16 && a.target == a.record.Evi()
            && a.behavior == (if a.record.Prefix? then DX4 else DX2)
            && (a.record.Imet? ==> a.record.originator == a.nexthop)
  {
    hide Attributes, Communities, Sequence, ValidSid, RouteTarget, Tlvs, FirstTlv, ParseOne;
    var attributes := Attributes(data[4..], map[]).value;
    var reach := attributes[14];
    var announced := Records(reach[21..]).value;
    assert announced[i] in announced && announced[i].Evi() == announced[0].Evi()
           && announced[i].Type() == announced[0].Type();
  }

  // ---- the decoder's loops -------------------------------------------------------------------

  method ReadRecords(input: Bytes) returns (r: Option<seq<Record>>)
    ensures r == Records(input)
  {
    hide ParseOne;
    var data, result := input, [];
    while data != []
      invariant Records(data).None? ==> Records(input).None?
      invariant Records(data).Some? ==> Records(input).Some? && Records(input).value == result + Records(data).value
      decreases |data|
    {
      if |data| < 2 || |data| < 2 + data[1] as int {
        return None;
      }
      var one := ParseOne(data[0], data[2..2 + data[1] as int]);
      if one.Bad? {
        return None;
      }
      if one.Good? {
        result := result + [one.record];
      }
      data := data[2 + data[1] as int..];
    }
    assert result + [] == result;
    r := Some(result);
  }

  method ReadTlvs(input: Bytes) returns (r: Option<seq<(byte, Bytes)>>)
    ensures r == Tlvs(input)
  {
    var data, result := input, [];
    while data != []
      invariant Tlvs(data).None? ==> Tlvs(input).None?
      invariant Tlvs(data).Some? ==> Tlvs(input).Some? && Tlvs(input).value == result + Tlvs(data).value
      decreases |data|
    {
      if |data| < 3 {
        return None;
      }
      var size := Be16(data[1..3]);
      if |data| < 3 + size {
        return None;
      }
      result := result + [(data[0], data[3..3 + size])];
      data := data[3 + size..];
    }
    assert result + [] == result;
    r := Some(result);
  }

  method ReadAttributes(input: Bytes) returns (r: Option<map<byte, Bytes>>)
    ensures r == Attributes(input, map[])
  {
    var data: Bytes, found: map<byte, Bytes> := input, map[];
    while data != []
      invariant Attributes(input, map[]) == Attributes(data, found)
      decreases |data|
    {
      if |data| < 3 {
        return None;
      }
      var n := if data[0] / 16 % 2 == 1 then 4 else 3;
      if |data| < n {
        return None;
      }
      var length := if n == 4 then Be16(data[2..4]) else data[2];
      if |data| < n + length || data[1] in found {
        return None;
      }
      found, data := found[data[1] := data[n..n + length]], data[n + length..];
    }
    r := Some(found);
  }

  /** The first value of type `kind`. */
  method FindTlv(tlvs: seq<(byte, Bytes)>, kind: byte) returns (r: Option<Bytes>)
    ensures r == FirstTlv(tlvs, kind)
  {
    for i := 0 to |tlvs|
      invariant FirstTlv(tlvs, kind) == FirstTlv(tlvs[i..], kind)
    {
      if tlvs[i].0 == kind {
        return Some(tlvs[i].1);
      }
      assert tlvs[i..][1..] == tlvs[i + 1..];
    }
    r := None;
  }

  method ReadCommunities(data: Bytes) returns (r: seq<Bytes>)
    requires |data| % 8 == 0
    ensures r == Communities(data)
  {
    r := [];
    var i := 0;
    while i < |data|
      invariant 0 <= i <= |data| && i % 8 == 0
      invariant Communities(data) == r + Communities(data[i..])
    {
      assert data[i..][..8] == data[i..i + 8] && data[i..][8..] == data[i + 8..];
      r, i := r + [data[i..i + 8]], i + 8;
    }
  }

  method LargestSequence(communities: seq<Bytes>) returns (largest: nat)
    ensures largest == Sequence(communities)
  {
    largest := 0;
    for i := 0 to |communities|
      invariant Sequence(communities)
                  == (if largest > Sequence(communities[i..]) then largest else Sequence(communities[i..]))
    {
      var c := communities[i];
      assert communities[i..][1..] == communities[i + 1..];
      if |c| == 8 && c[..4] == [6, 0, 0, 0] && Be32(c[4..]) > largest {
        largest := Be32(c[4..]);
      }
    }
  }

  /** Whether all routes belong to the instance and have the type of the first. */
  method Uniform(announced: seq<Record>) returns (same: bool)
    requires announced != []
    ensures same <==> forall r :: r in announced ==> r.Evi() == announced[0].Evi() && r.Type() == announced[0].Type()
  {
    for i := 0 to |announced|
      invariant forall r :: r in announced[..i] ==> r.Evi() == announced[0].Evi() && r.Type() == announced[0].Type()
    {
      if announced[i].Evi() != announced[0].Evi() || announced[i].Type() != announced[0].Type() {
        return false;
      }
      assert announced[..i + 1] == announced[..i] + [announced[i]];
    }
    assert announced[..|announced|] == announced;
    same := true;
  }

  /** The first sub-value of type 1 in the service value, past its reserved byte. */
  method ReadInfo(service: Bytes) returns (info: Option<Bytes>)
    requires service != []
    ensures info == (var information := Tlvs(service[1..]); if information.None? then None
                       else FirstTlv(information.value, 1))
  {
    var information := ReadTlvs(service[1..]);
    if information.None? {
      return None;
    }
    info := FindTlv(information.value, 1);
  }

  method ReadServiceSid(attributes: map<byte, Bytes>, announced: seq<Record>) returns (sid: Option<Bytes>)
    requires announced != []
    ensures sid == ServiceSid(attributes, announced)
  {
    hide Tlvs, FirstTlv, Communities, RouteTarget, ValidSid;
    var first, communities := announced[0], Get(attributes, 16);
    if !(1 in attributes && attributes[1] == [0] && 2 in attributes && attributes[2] == [] && 5 in attributes
         && attributes[5] == U32(100)) {
      return None;
    }
    var same := Uniform(announced);
    if |communities| % 8 != 0 || !same || first.Evi() >= 65536 {
      return None;
    }
    var targets := ReadCommunities(communities);
    if RouteTarget(first.Evi()) !in targets {
      return None;
    }
    var services := ReadTlvs(Get(attributes, 40));
    if services.None? {
      return None;
    }
    var service := FindTlv(services.value, if first.Prefix? then 5 else 6);
    if service.None? || service.value == [] {
      return None;
    }
    var info := ReadInfo(service.value);
    if info.None? || |info.value| != 21 || Be16(info.value[18..20]) != (if first.Prefix? then DX4 else DX2)
      || !ValidSid(info.value[1..17]) {
      return None;
    }
    sid := Some(info.value[1..17]);
  }

  method ReadTunnel(attributes: map<byte, Bytes>, announced: seq<Record>, nexthop: Bytes) returns (ok: bool)
    requires announced != []
    ensures ok == TunnelConsistent(attributes, announced, nexthop)
  {
    if !announced[0].Imet? {
      return true;
    }
    if 22 !in attributes || attributes[22] != [0, 6, 0, 0, 0x30] + nexthop {
      return false;
    }
    for i := 0 to |announced|
      invariant forall r :: r in announced[..i] ==> r.Imet? && r.originator == nexthop
    {
      if !announced[i].Imet? || announced[i].originator != nexthop {
        return false;
      }
      assert announced[..i + 1] == announced[..i] + [announced[i]];
    }
    assert announced[..|announced|] == announced;
    ok := true;
  }

  lemma SidNeedsCommunities(attributes: map<byte, Bytes>, announced: seq<Record>)
    requires announced != [] && ServiceSid(attributes, announced).Some?
    ensures |Get(attributes, 16)| % 8 == 0
  {
  }

  /** Decode the body of an UPDATE. */
  method ReadUpdate(data: Bytes) returns (r: Option<Update>)
    ensures r == Decoded(data)
  {
    hide Records, Attributes, ServiceSid, TunnelConsistent, Communities, Sequence;
    if |data| < 4 || data[..2] != [0, 0] || |data| != Be16(data[2..4]) + 4 {
      return None;
    }
    var parsed := ReadAttributes(data[4..]);
    if parsed.None? {
      return None;
    }
    var attributes := parsed.value;
    var withdrawn := [];
    if 15 in attributes {
      if |attributes[15]| < 3 || attributes[15][..3] != AF {
        return None;
      }
      var records := ReadRecords(attributes[15][3..]);
      if records.None? {
        return None;
      }
      withdrawn := records.value;
    }
    if 14 !in attributes {
      return Some(Update([], withdrawn));
    }
    var reach := attributes[14];
    if |reach| < 21 || reach[..4] != AF + [16] {
      return None;
    }
    var announced := ReadRecords(reach[21..]);
    if announced.None? {
      return None;
    }
    if announced.value == [] {
      return Some(Update([], withdrawn));
    }
    var sid := ReadServiceSid(attributes, announced.value);
    var tunnel := ReadTunnel(attributes, announced.value, reach[4..20]);
    if sid.None? || !tunnel {
      return Some(Update([], withdrawn + announced.value));
    }
    SidNeedsCommunities(attributes, announced.value);
    var communities := ReadCommunities(Get(attributes, 16));
    var sequence := LargestSequence(communities);
    var behavior := if announced.value[0].Prefix? then DX4 else DX2;
    var routes := [];
    for i := 0 to |announced.value|
      invariant |routes| == i
      invariant forall j :: 0 <= j < i ==>
        routes[j] == Announced(announced.value[j], sid.value, reach[4..20], behavior, announced.value[0].Evi(),
                               sequence)
    {
      routes := routes + [Announced(announced.value[i], sid.value, reach[4..20], behavior, announced.value[0].Evi(),
                                    sequence)];
    }
    r := Some(Update(routes, withdrawn));
    assert r.value.announced == Decoded(data).value.announced;
  }
}
