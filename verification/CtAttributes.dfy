/** The attributes of connectivity-template primitives and their wire form. */
module CtAttributes {
  import opened Common

  datatype PolicyType =
    | NoType
    | Batch
    | Pipeline
    | AttachSingleVlan
    | AttachMultipleVlan
    | AttachLogicalLink
    | AttachStaticRoute
    | AttachCustomStaticRoute
    | AttachIpEndpointWithBgpNsxt
    | AttachBgpOverSubinterfacesOrSvi
    | AttachBgpWithPrefixPeering
    | AttachExistingRoutingPolicy
    | AttachRoutingZoneConstraint
    | Unknown(name: string)

  datatype Ipv4AddressingType = Ipv4None | Ipv4Numbered
  datatype Ipv6AddressingType = Ipv6LinkLocal | Ipv6None | Ipv6Numbered
  datatype BgpPeerTo = PeerLoopback | PeerInterfaceOrIpEndpoint | PeerInterfaceOrSharedIpEndpoint
  datatype Ipv4SessionAddressing = SessionIpv4None | SessionIpv4Addressed
  datatype Ipv6SessionAddressing = SessionIpv6None | SessionIpv6Addressed | SessionIpv6LinkLocal

  /** A net.IPNet: an address, which may have bits past the prefix, and the length of the prefix. */
  datatype Network = Network(v6: bool, address: nat, length: nat)

  function Bits(v6: bool): nat {
    if v6 then 128 else 32
  }

  type Net = n: Network | n.length <= Bits(n.v6) witness Network(false, 0, 0)

  /** A text where a network is expected: it spells one, or not. */
  datatype NetworkText = Spells(network: Net) | Garbage(text: string)

  function HostLength(n: Net): nat {
    Bits(n.v6) - n.length
  }

  /** The address with so many of its lowest bits cleared. */
  function Cleared(address: nat, bits: nat): nat {
    if bits == 0 then address else 2 * Cleared(address / 2, bits - 1)
  }

  predicate LowBitsClear(address: nat, bits: nat) {
    bits == 0 || (address % 2 == 0 && LowBitsClear(address / 2, bits - 1))
  }

  /** net.ParseCIDR clears the bits past the prefix. */
  function Masked(n: Net): Net {
    Network(n.v6, Cleared(n.address, HostLength(n)), n.length)
  }

  function PrintNetwork(n: Option<Net>): Option<NetworkText> {
    if n.Some? then Some(Spells(n.value)) else None
  }

  function ParseNetwork(text: Option<NetworkText>): Result<Option<Net>, CtError> {
    if text.None? then Ok(None)
    else if text.value.Spells? then Ok(Some(Masked(text.value.network)))
    else Err(BadAttributes)
  }

  function MaskedIfAny(n: Option<Net>): Option<Net> {
    if n.Some? then Some(Masked(n.value)) else None
  }

  /** The fields that every kind of BGP primitive carries and copies unchanged. */
  datatype BgpSession = BgpSession(
    bfd: bool, holdtime: Option<nat>, ipv4Safi: bool, ipv6Safi: bool, keepalive: Option<nat>,
    localAsn: Option<nat>, password: Option<string>, ttl: nat)

  datatype Attributes =
    | SingleVlan(labelText: string, tagged: bool, vnNodeId: Option<ObjectId>)
    | MultipleVlan(labelText: string, untaggedVnNodeId: Option<ObjectId>, taggedVnNodeIds: Option<seq<ObjectId>>)
    | LogicalLink(labelText: string, securityZone: Option<ObjectId>, tagged: bool, vlan: Option<nat>,
                  ipv4Addressing: Ipv4AddressingType, ipv6Addressing: Ipv6AddressingType, l3Mtu: Option<nat>)
    | StaticRoute(labelText: string, shareIpEndpoint: bool, network: Option<Net>)
    | CustomStaticRoute(labelText: string, network: Option<Net>, nextHop: Option<string>,
                        securityZone: Option<ObjectId>)
    | IpEndpointWithBgpNsxt(labelText: string, asn: Option<nat>, session: BgpSession, ipv4Addr: Option<string>,
                            ipv6Addr: Option<string>, neighborAsnDynamic: bool)
    | BgpOverSubinterfacesOrSvi(labelText: string, session: BgpSession, neighborAsnDynamic: bool,
                                peerFromLoopback: bool, peerTo: BgpPeerTo,
                                sessionIpv4: Ipv4SessionAddressing, sessionIpv6: Ipv6SessionAddressing)
    | BgpWithPrefixPeering(labelText: string, session: BgpSession, prefixIpv4: Option<Net>, prefixIpv6: Option<Net>,
                           addressedIpv4: bool, addressedIpv6: bool)
    | ExistingRoutingPolicy(labelText: string, rpToAttach: Option<ObjectId>)
    | RoutingZoneConstraint(labelText: string, constraint: Option<ObjectId>)

  /** The JSON object in a policy's "attributes" element, one shape per policy type. */
  datatype RawAttributes =
    | RawBatch(subpolicies: seq<ObjectId>)
    | RawPipeline(firstSubpolicy: ObjectId, secondSubpolicy: Option<ObjectId>)
    | RawSingleVlan(vnNodeId: Option<ObjectId>, tagType: string)
    | RawMultipleVlan(untaggedVnNodeId: Option<ObjectId>, taggedVnNodeIds: Option<seq<ObjectId>>)
    | RawLogicalLink(interfaceType: string, vlan: Option<nat>, ipv4Addressing: Ipv4AddressingType,
                     ipv6Addressing: Ipv6AddressingType, securityZone: Option<ObjectId>, l3Mtu: Option<nat>)
    | RawStaticRoute(shareIpEndpoint: bool, network: Option<NetworkText>)
    | RawCustomStaticRoute(network: Option<NetworkText>, nextHop: Option<string>, securityZone: Option<ObjectId>)
    | RawIpEndpointWithBgpNsxt(asn: Option<nat>, session: BgpSession, ipv4Addr: Option<string>,
                               ipv6Addr: Option<string>, neighborAsnType: string)
    | RawBgpOverSubinterfacesOrSvi(session: BgpSession, neighborAsnType: string, peerFrom: string, peerTo: BgpPeerTo,
                                   sessionIpv4: Ipv4SessionAddressing, sessionIpv6: Ipv6SessionAddressing)
    | RawBgpWithPrefixPeering(session: BgpSession, prefixIpv4: Option<NetworkText>, prefixIpv6: Option<NetworkText>,
                              addressedIpv4: bool, addressedIpv6: bool)
    | RawExistingRoutingPolicy(rpToAttach: Option<ObjectId>)
    | RawRoutingZoneConstraint(constraint: Option<ObjectId>)

  datatype CtError =
    | NilAttributes
    | VlanOutOfRange(vlan: nat)
    | NoUuid
    | NoPolicies
    | NoSuchRoot(id: ObjectId)
    | NoUserData
    | BadUserData
    | NoSuchPolicy(id: ObjectId)
    | WrongType(id: ObjectId)
    | UnknownType(name: string)
    | UnhandledType
    | BadAttributes
    | OutOfFuel

  const VLAN_MIN := 1
  const VLAN_MAX := 4094

  function TypeOf(a: Attributes): PolicyType {
    match a
    case SingleVlan(_, _, _) => AttachSingleVlan
    case MultipleVlan(_, _, _) => AttachMultipleVlan
    case LogicalLink(_, _, _, _, _, _, _) => AttachLogicalLink
    case StaticRoute(_, _, _) => AttachStaticRoute
    case CustomStaticRoute(_, _, _, _) => AttachCustomStaticRoute
    case IpEndpointWithBgpNsxt(_, _, _, _, _, _) => AttachIpEndpointWithBgpNsxt
    case BgpOverSubinterfacesOrSvi(_, _, _, _, _, _, _) => AttachBgpOverSubinterfacesOrSvi
    case BgpWithPrefixPeering(_, _, _, _, _, _) => AttachBgpWithPrefixPeering
    case ExistingRoutingPolicy(_, _) => AttachExistingRoutingPolicy
    case RoutingZoneConstraint(_, _) => AttachRoutingZoneConstraint
  }

  function AsnType(isDynamic: bool): string {
    if isDynamic then "dynamic" else "static"
  }

  function ParseAsnType(text: string): Result<bool, CtError> {
    if text == "dynamic" then Ok(true) else if text == "static" then Ok(false) else Err(BadAttributes)
  }

  /** Each primitive's raw(): the label stays behind, and a nil list of tagged networks
      is sent as an empty one. */
  function Encode(a: Attributes): Result<RawAttributes, CtError> {
    match a
    case SingleVlan(_, tagged, vn) =>
      Ok(RawSingleVlan(vn, if tagged then "vlan_tagged" else "untagged"))
    case MultipleVlan(_, untagged, tagged) =>
      Ok(RawMultipleVlan(untagged, if tagged.None? then Some([]) else tagged))
    case LogicalLink(_, zone, tagged, vlan, ipv4, ipv6, mtu) =>
      if vlan.Some? && !(VLAN_MIN <= vlan.value <= VLAN_MAX) then
        Err(VlanOutOfRange(vlan.value))
      else
        Ok(RawLogicalLink(if tagged then "tagged" else "untagged", vlan, ipv4, ipv6, zone, mtu))
    case StaticRoute(_, share, network) =>
      Ok(RawStaticRoute(share, PrintNetwork(network)))
    case CustomStaticRoute(_, network, nextHop, zone) =>
      Ok(RawCustomStaticRoute(PrintNetwork(network), nextHop, zone))
    case IpEndpointWithBgpNsxt(_, asn, session, ipv4, ipv6, asnDynamic) =>
      Ok(RawIpEndpointWithBgpNsxt(asn, session, ipv4, ipv6, AsnType(asnDynamic)))
    case BgpOverSubinterfacesOrSvi(_, session, asnDynamic, loopback, peerTo, s4, s6) =>
      Ok(RawBgpOverSubinterfacesOrSvi(
        session, AsnType(asnDynamic), if loopback then "loopback" else "interface", peerTo, s4, s6))
    case BgpWithPrefixPeering(_, session, p4, p6, a4, a6) =>
      Ok(RawBgpWithPrefixPeering(session, PrintNetwork(p4), PrintNetwork(p6), a4, a6))
    case ExistingRoutingPolicy(_, rp) =>
      Ok(RawExistingRoutingPolicy(rp))
    case RoutingZoneConstraint(_, constraint) =>
      Ok(RawRoutingZoneConstraint(constraint))
  }

  /** rawConnectivityTemplatePolicy.attributes(): the policy type selects the primitive,
      and the unmarshalled record is polished into it. */
  function Decode(policyType: PolicyType, raw: RawAttributes): Result<Attributes, CtError> {
    match (policyType, raw)
    case (AttachSingleVlan, RawSingleVlan(vn, tagType)) =>
      if tagType == "vlan_tagged" then Ok(SingleVlan("", true, vn))
      else if tagType == "untagged" then Ok(SingleVlan("", false, vn))
      else Err(BadAttributes)
    case (AttachMultipleVlan, RawMultipleVlan(untagged, tagged)) =>
      Ok(MultipleVlan("", untagged, tagged))
    case (AttachLogicalLink, RawLogicalLink(interfaceType, vlan, ipv4, ipv6, zone, mtu)) =>
      if interfaceType == "tagged" then Ok(LogicalLink("", zone, true, vlan, ipv4, ipv6, mtu))
      else if interfaceType == "untagged" || interfaceType == "" then
        Ok(LogicalLink("", zone, false, vlan, ipv4, ipv6, mtu))
      else Err(BadAttributes)
    case (AttachStaticRoute, RawStaticRoute(share, text)) =>
      var network :- ParseNetwork(text);
      Ok(StaticRoute("", share, network))
    case (AttachCustomStaticRoute, RawCustomStaticRoute(text, nextHop, zone)) =>
      var network :- ParseNetwork(text);
      Ok(CustomStaticRoute("", network, nextHop, zone))
    case (AttachIpEndpointWithBgpNsxt, RawIpEndpointWithBgpNsxt(asn, session, ipv4, ipv6, asnType)) =>
      var asnDynamic :- ParseAsnType(asnType);
      Ok(IpEndpointWithBgpNsxt("", asn, session, ipv4, ipv6, asnDynamic))
    case (AttachBgpOverSubinterfacesOrSvi, RawBgpOverSubinterfacesOrSvi(session, asnType, peerFrom, peerTo, s4, s6)) =>
      var asnDynamic :- ParseAsnType(asnType);
      if peerFrom == "loopback" then Ok(BgpOverSubinterfacesOrSvi("", session, asnDynamic, true, peerTo, s4, s6))
      else if peerFrom == "interface" then Ok(BgpOverSubinterfacesOrSvi("", session, asnDynamic, false, peerTo, s4, s6))
      else Err(BadAttributes)
    case (AttachBgpWithPrefixPeering, RawBgpWithPrefixPeering(session, text4, text6, a4, a6)) =>
      var p4 :- ParseNetwork(text4);
      var p6 :- ParseNetwork(text6);
      Ok(BgpWithPrefixPeering("", session, p4, p6, a4, a6))
    case (AttachExistingRoutingPolicy, RawExistingRoutingPolicy(rp)) =>
      Ok(ExistingRoutingPolicy("", rp))
    case (AttachRoutingZoneConstraint, RawRoutingZoneConstraint(constraint)) =>
      Ok(RoutingZoneConstraint("", constraint))
    case (NoType, _) => Err(UnhandledType)
    case (Batch, _) => Err(UnhandledType)
    case (Pipeline, _) => Err(UnhandledType)
    case (Unknown(_), _) => Err(UnhandledType)
    case _ => Err(BadAttributes)
  }

  /** What survives a trip through the wire form: the label is gone, a nil list of tagged networks is
      empty, and networks have no bits past their prefix. */
  function Canonical(a: Attributes): Attributes {
    match a
    case MultipleVlan(_, untagged, tagged) => MultipleVlan("", untagged, if tagged.None? then Some([]) else tagged)
    case StaticRoute(_, share, network) => StaticRoute("", share, MaskedIfAny(network))
    case CustomStaticRoute(_, network, nextHop, zone) => CustomStaticRoute("", MaskedIfAny(network), nextHop, zone)
    case BgpWithPrefixPeering(_, session, p4, p6, a4, a6) =>
      BgpWithPrefixPeering("", session, MaskedIfAny(p4), MaskedIfAny(p6), a4, a6)
    case SingleVlan(_, tagged, vn) => SingleVlan("", tagged, vn)
    case LogicalLink(_, zone, tagged, vlan, ipv4, ipv6, mtu) => LogicalLink("", zone, tagged, vlan, ipv4, ipv6, mtu)
    case IpEndpointWithBgpNsxt(_, asn, session, ipv4, ipv6, asnDynamic) =>
      IpEndpointWithBgpNsxt("", asn, session, ipv4, ipv6, asnDynamic)
    case BgpOverSubinterfacesOrSvi(_, session, asnDynamic, loopback, peerTo, s4, s6) =>
      BgpOverSubinterfacesOrSvi("", session, asnDynamic, loopback, peerTo, s4, s6)
    case ExistingRoutingPolicy(_, rp) => ExistingRoutingPolicy("", rp)
    case RoutingZoneConstraint(_, constraint) => RoutingZoneConstraint("", constraint)
  }

  /** Only an out-of-range VLAN stops a primitive from being sent, and every primitive that is sent is
      read back in its canonical form. */
  lemma AttributesRoundTrip(a: Attributes)
    ensures Encode(a).Err? <==>
      a.LogicalLink? && a.vlan.Some? && (a.vlan.value < 1 || a.vlan.value > 4094)
    ensures Encode(a).Ok? ==> Decode(TypeOf(a), Encode(a).value) == Ok(Canonical(a))
  {
    match a
    case SingleVlan(_, _, _) => assert "vlan_tagged"[0] != "untagged"[0];
    case LogicalLink(_, _, _, _, _, _, _) => assert "tagged"[0] != "untagged"[0];
    case IpEndpointWithBgpNsxt(_, _, _, _, _, _) => assert AsnType(true)[0] != AsnType(false)[0];
    case BgpOverSubinterfacesOrSvi(_, _, _, _, _, _, _) =>
      assert AsnType(true)[0] != AsnType(false)[0] && "loopback"[0] != "interface"[0];
    case _ =>
  }

  /** The words that yes-or-no fields are sent as. */
  lemma WordsSent(labelText: string, o: Option<ObjectId>, ns: Option<nat>, s: Option<string>, session: BgpSession,
                  f4: Ipv4AddressingType, f6: Ipv6AddressingType, to: BgpPeerTo, s4: Ipv4SessionAddressing,
                  s6: Ipv6SessionAddressing)
    ensures Encode(SingleVlan(labelText, true, o)) == Ok(RawSingleVlan(o, "vlan_tagged"))
    ensures Encode(SingleVlan(labelText, false, o)) == Ok(RawSingleVlan(o, "untagged"))
    ensures Encode(LogicalLink(labelText, o, true, None, f4, f6, ns))
         == Ok(RawLogicalLink("tagged", None, f4, f6, o, ns))
    ensures Encode(LogicalLink(labelText, o, false, None, f4, f6, ns))
         == Ok(RawLogicalLink("untagged", None, f4, f6, o, ns))
    ensures Encode(IpEndpointWithBgpNsxt(labelText, ns, session, s, s, true))
         == Ok(RawIpEndpointWithBgpNsxt(ns, session, s, s, "dynamic"))
    ensures Encode(IpEndpointWithBgpNsxt(labelText, ns, session, s, s, false))
         == Ok(RawIpEndpointWithBgpNsxt(ns, session, s, s, "static"))
    ensures Encode(BgpOverSubinterfacesOrSvi(labelText, session, true, false, to, s4, s6))
         == Ok(RawBgpOverSubinterfacesOrSvi(session, "dynamic", "interface", to, s4, s6))
    ensures Encode(BgpOverSubinterfacesOrSvi(labelText, session, false, true, to, s4, s6))
         == Ok(RawBgpOverSubinterfacesOrSvi(session, "static", "loopback", to, s4, s6))
  {
  }

  /** Which words are read, and as what: the same ones, and for a logical link also no word at all. */
  lemma WordsRead(raw: RawAttributes)
    ensures raw.RawSingleVlan? ==>
              var a := Decode(AttachSingleVlan, raw);
              (a.Ok? <==> raw.tagType == "vlan_tagged" || raw.tagType == "untagged")
              && (a.Ok? ==> (a.value.tagged <==> raw.tagType == "vlan_tagged"))
    ensures raw.RawLogicalLink? ==>
              var a := Decode(AttachLogicalLink, raw);
              (a.Ok? <==> raw.interfaceType == "tagged" || raw.interfaceType == "untagged" || raw.interfaceType == "")
              && (a.Ok? ==> (a.value.tagged <==> raw.interfaceType == "tagged"))
    ensures raw.RawIpEndpointWithBgpNsxt? ==>
              var a := Decode(AttachIpEndpointWithBgpNsxt, raw);
              (a.Ok? <==> raw.neighborAsnType == "dynamic" || raw.neighborAsnType == "static")
              && (a.Ok? ==> (a.value.neighborAsnDynamic <==> raw.neighborAsnType == "dynamic"))
    ensures raw.RawBgpOverSubinterfacesOrSvi? ==>
              var a := Decode(AttachBgpOverSubinterfacesOrSvi, raw);
              (a.Ok? <==> (raw.neighborAsnType == "dynamic" || raw.neighborAsnType == "static")
                          && (raw.peerFrom == "loopback" || raw.peerFrom == "interface"))
              && (a.Ok? ==> (a.value.neighborAsnDynamic <==> raw.neighborAsnType == "dynamic")
                            && (a.value.peerFromLoopback <==> raw.peerFrom == "loopback"))
  {
    assert "vlan_tagged"[0] != "untagged"[0] && "tagged"[0] != "untagged"[0];
    assert AsnType(true)[0] != AsnType(false)[0] && "loopback"[0] != "interface"[0];
  }

  /** A binary digit of an address; digit 0 is the last one. */
  predicate Bit(address: nat, k: nat)
    decreases k
  {
    if k == 0 then address % 2 == 1 else Bit(address / 2, k - 1)
  }

  /** Clearing keeps every digit above the cleared ones. */
  lemma {:induction false} ClearedBits(address: nat, bits: nat, k: nat)
    ensures Bit(Cleared(address, bits), k) <==> k >= bits && Bit(address, k)
  {
    if bits > 0 && k > 0 {
      ClearedBits(address / 2, bits - 1, k - 1);
    }
  }

  function PowerOfTwo(n: nat): nat {
    if n == 0 then 1 else 2 * PowerOfTwo(n - 1)
  }

  /** It rounds the address down to a multiple of a power of two. */
  lemma {:induction false} ClearedRoundsDown(address: nat, bits: nat) returns (q: nat)
    ensures Cleared(address, bits) == PowerOfTwo(bits) * q
    ensures PowerOfTwo(bits) * q <= address < PowerOfTwo(bits) * (q + 1)
  {
    q := address;
    if bits > 0 {
      q := ClearedRoundsDown(address / 2, bits - 1);
      var half := PowerOfTwo(bits - 1);
      Doubled(half, q);
      Doubled(half, q + 1);
    }
  }

  lemma Doubled(half: nat, q: nat)
    ensures 2 * half * q == 2 * (half * q)
  {
  }

  /** A network's text is read as its prefix: of the 32 or 128 binary digits of the address the first
      ones, as many as the prefix is long, are kept and the others are cleared. */
  lemma ReadAsPrefix(n: Net, k: nat)
    requires k < if n.v6 then 128 else 32
    ensures var read := ParseNetwork(Some(Spells(n)));
            && read.Ok? && read.value.Some? && read.value.value.v6 == n.v6 && read.value.value.length == n.length
            && var last := (if n.v6 then 128 else 32) - 1;
               Bit(read.value.value.address, last - k) <==> k < n.length && Bit(n.address, last - k)
  {
    ClearedBits(n.address, HostLength(n), (if n.v6 then 127 else 31) - k);
  }

  /** 10.1.2.3/24 is read as 10.1.2.0/24. */
  lemma HostBitsAreCleared(n: Net)
    requires n == Network(false, ((10 * 256 + 1) * 256 + 2) * 256 + 3, 24)
    ensures ParseNetwork(Some(Spells(n))) == Ok(Some(Network(false, ((10 * 256 + 1) * 256 + 2) * 256, 24)))
  {
    var q := ClearedRoundsDown(n.address, 8);
    assert PowerOfTwo(4) == 16 && PowerOfTwo(8) == 16 * PowerOfTwo(4);
  }

  lemma {:induction false} ClearingIff(address: nat, bits: nat)
    ensures Cleared(address, bits) == address <==> LowBitsClear(address, bits)
    ensures LowBitsClear(Cleared(address, bits), bits)
  {
    if bits > 0 {
      ClearingIff(address / 2, bits - 1);
    }
  }

  /** A network is read back as itself exactly when it has no bits past its prefix, and so it is from the
      second time on. */
  lemma MaskedIff(n: Net)
    ensures Masked(n) == n <==> LowBitsClear(n.address, HostLength(n))
    ensures Masked(Masked(n)) == Masked(n)
  {
    ClearingIff(n.address, HostLength(n));
    ClearingIff(Masked(n).address, HostLength(n));
  }

  /** Attributes are read back as they were, but for the label, exactly when the list of tagged networks
      is not nil and no network has bits past its prefix. */
  lemma ReadBackSameIff(a: Attributes)
    ensures Canonical(a).(labelText := a.labelText) == a
       <==> match a
            case MultipleVlan(_, _, tagged) => tagged.Some?
            case StaticRoute(_, _, network) => NoHostBits(network)
            case CustomStaticRoute(_, network, _, _) => NoHostBits(network)
            case BgpWithPrefixPeering(_, _, p4, p6, _, _) => NoHostBits(p4) && NoHostBits(p6)
            case _ => true
  {
    match a
    case StaticRoute(_, _, network) => NoHostBitsIff(network);
    case CustomStaticRoute(_, network, _, _) => NoHostBitsIff(network);
    case BgpWithPrefixPeering(_, _, p4, p6, _, _) => NoHostBitsIff(p4); NoHostBitsIff(p6);
    case _ =>
  }

  predicate NoHostBits(n: Option<Net>) {
    n.Some? ==> forall k: nat :: k < HostLength(n.value) ==> !Bit(n.value.address, k)
  }

  lemma {:induction false} LowBitsAreClear(address: nat, bits: nat, k: nat)
    requires LowBitsClear(address, bits) && k < bits
    ensures !Bit(address, k)
  {
    if k > 0 {
      LowBitsAreClear(address / 2, bits - 1, k - 1);
    }
  }

  lemma {:induction false} LowBitSet(address: nat, bits: nat) returns (k: nat)
    requires !LowBitsClear(address, bits)
    ensures k < bits && Bit(address, k)
  {
    k := 0;
    if address % 2 == 0 {
      k := LowBitSet(address / 2, bits - 1);
      k := k + 1;
    }
  }

  lemma NoHostBitsIff(n: Option<Net>)
    ensures MaskedIfAny(n) == n <==> NoHostBits(n)
  {
    if n.Some? {
      var address, bits := n.value.address, HostLength(n.value);
      MaskedIff(n.value);
      if LowBitsClear(address, bits) {
        forall k: nat | k < bits ensures !Bit(address, k) {
          LowBitsAreClear(address, bits, k);
        }
      } else {
        var k := LowBitSet(address, bits);
      }
    }
  }

  lemma CanonicalIsFixed(a: Attributes)
    ensures Canonical(Canonical(a)) == Canonical(a)
  {
    match a
    case StaticRoute(_, _, network) => MaskedTwice(network);
    case CustomStaticRoute(_, network, _, _) => MaskedTwice(network);
    case BgpWithPrefixPeering(_, _, p4, p6, _, _) => MaskedTwice(p4); MaskedTwice(p6);
    case _ =>
  }

  lemma MaskedTwice(n: Option<Net>)
    ensures MaskedIfAny(MaskedIfAny(n)) == MaskedIfAny(n)
  {
    if n.Some? {
      MaskedIff(n.value);
    }
  }
}
