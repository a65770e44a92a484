/** What the lighthouse request handler does with one discovery message, as a
    function from the handler's collaborators and the decoded message to the
    ordered list of effects it causes. The address book, the protobuf codec and
    the sockets are parameters: `LightHouse` carries the node's configuration
    and the address-book lookups, `marshal` the encoder. */
module LighthouseSpec {
  import opened Wrappers
  import opened UdpGeneric

  /** `NebulaMeta_MessageType`. `OtherType` is any value the handler's switch
      does not list, among them the enum's zero value, which `Reset` leaves. */
  datatype MetaType =
    | HostQuery
    | HostQueryReply
    | HostUpdateNotification
    | HostMovedNotification
    | HostPunchNotification
    | OtherType(code: int)

  const ResetType: MetaType := OtherType(0)

  /** The protobuf `IpAndPort`: the port travels as a `uint32`. */
  datatype IpAndPort = IpAndPort(ip: uint32, port: uint32)

  /** The protobuf `NebulaMetaDetails`. */
  datatype Details = Details(vpnIp: uint32, ipAndPorts: seq<IpAndPort>)

  const ResetDetails: Details := Details(0, [])

  /** A `NebulaMeta` as it is encoded for sending. */
  datatype Meta = Meta(mtype: MetaType, details: Details)

  /** The outcome of decoding the packet: the buffer does not decode, or it
      decodes to a type and possibly a `Details` field. */
  datatype Packet =
    | Undecodable
    | Decoded(mtype: MetaType, details: Option<Details>)

  /** The handler's collaborators, as far as they shape its decisions. */
  datatype LightHouse = LightHouse(
    amLighthouse: bool,
    punchBack: bool,
    punchDelay: nat,
    /** `IsLighthouseIP`. */
    isLighthouseIP: uint32 -> bool,
    /** `Query`: the known addresses of a VPN IP, or `None` for its error. */
    query: uint32 -> Option<seq<UdpAddr>>,
    /** The handshake-trigger channel has room, so the non-blocking send
        goes through. */
    triggerHasRoom: bool)

  /** The effects the handler has on the world, in the order it causes them. */
  datatype Effect =
    | MetricRx(rxType: MetaType)
    | MetricTx(txType: MetaType)
    /** `SendMessageToVpnIp(lightHouse, 0, dst, payload, ...)`; `msg` is what
        `payload` encodes. */
    | SendToVpnIp(dst: uint32, msg: Meta, payload: seq<byte>)
    | AddRemote(vpnIp: uint32, addr: UdpAddr, verified: bool)
    | HandshakeTrigger(vpnIp: uint32)
    /** A goroutine that, after `delay`, counts a hole punch and writes
        `payload` to `addr` on the punch socket. */
    | SchedulePunch(addr: UdpAddr, payload: seq<byte>, delay: nat)
    /** A goroutine that, after five seconds, sends a test packet to `vpnIp`. */
    | ScheduleTestPacket(vpnIp: uint32)

  /** The probe a hole punch writes: `[]byte{0}`, a single zero byte. */
  const ProbePayload: seq<byte> := [0]

  /** `NewIpAndPortFromUDPAddr`. */
  function ToIpAndPort(a: UdpAddr): IpAndPort {
    IpAndPort(a.ip, a.port)
  }

  function ToIpAndPorts(ips: seq<UdpAddr>): (r: seq<IpAndPort>)
    ensures |r| == |ips|
  {
    seq(|ips|, i requires 0 <= i < |ips| => ToIpAndPort(ips[i]))
  }

  /** `NewUDPAddr(a.Ip, uint16(a.Port))`. */
  function AddrOf(a: IpAndPort): (r: UdpAddr)
    ensures r.ip == a.ip && (r.port - a.port) % 0x1_0000 == 0
  {
    NewUDPAddr(a.ip, ToUint16(a.port)).value
  }

  /** Converting an address for the wire and back gives it back. */
  lemma AddrOfToIpAndPort(a: UdpAddr)
    ensures AddrOf(ToIpAndPort(a)) == a
  {
  }

  function AddRemotes(vpnIp: uint32, list: seq<IpAndPort>): (r: seq<Effect>)
    ensures |r| == |list|
  {
    seq(|list|, i requires 0 <= i < |list| => AddRemote(vpnIp, AddrOf(list[i]), false))
  }

  function Punches(lh: LightHouse, list: seq<IpAndPort>): (r: seq<Effect>)
    ensures |r| == |list|
  {
    seq(|list|, i requires 0 <= i < |list| => SchedulePunch(AddrOf(list[i]), ProbePayload, lh.punchDelay))
  }

  /** A `HostQuery` for `req` from `vpnIp`. A lighthouse that knows `req`
      answers the querier with `req`'s addresses and, when it also knows the
      querier, tells `req` to punch toward the querier. An encoding failure of
      the answer abandons both; an encoding failure of the punch notification
      is ignored and the notification goes out with an empty payload. */
  function AnswerQuery(lh: LightHouse, marshal: Meta -> Option<seq<byte>>, vpnIp: uint32, req: uint32): (r: seq<Effect>)
    ensures |r| == 0 || |r| == 2 || |r| == 4
    ensures r != [] ==> lh.amLighthouse && lh.query(req).Some? && r[0] == MetricTx(HostQueryReply)
  {
    if !lh.amLighthouse then []
    else match lh.query(req)
      case None => []
      case Some(ips) =>
        var reply := Meta(HostQueryReply, Details(req, ToIpAndPorts(ips)));
        match marshal(reply)
        case None => []
        case Some(bytes) =>
          [MetricTx(HostQueryReply), SendToVpnIp(vpnIp, reply, bytes)]
          + match lh.query(vpnIp)
            case None => []
            case Some(mine) =>
              var punch := Meta(HostPunchNotification, Details(vpnIp, ToIpAndPorts(mine)));
              [MetricTx(HostPunchNotification), SendToVpnIp(req, punch, marshal(punch).GetOr([]))]
  }

  /** The switch on the message type, for a message from `vpnIp`. */
  function React(lh: LightHouse, marshal: Meta -> Option<seq<byte>>, vpnIp: uint32, mtype: MetaType, d: Details): (r: seq<Effect>)
    ensures forall i :: 0 <= i < |r| ==> !r[i].MetricRx?
    ensures (mtype.HostMovedNotification? || mtype.OtherType?) ==> r == []
  {
    match mtype
    case HostQuery => AnswerQuery(lh, marshal, vpnIp, d.vpnIp)
    case HostQueryReply =>
      if !lh.isLighthouseIP(vpnIp) then []
      else AddRemotes(d.vpnIp, d.ipAndPorts) + (if lh.triggerHasRoom then [HandshakeTrigger(d.vpnIp)] else [])
    case HostUpdateNotification =>
      if d.vpnIp != vpnIp then [] else AddRemotes(d.vpnIp, d.ipAndPorts)
    case HostMovedNotification => []
    case HostPunchNotification =>
      if !lh.isLighthouseIP(vpnIp) then []
      else Punches(lh, d.ipAndPorts) + (if lh.punchBack then [ScheduleTestPacket(d.vpnIp)] else [])
    case OtherType(_) => []
  }

  /** The `Details` the handler sees after decoding into its reused message:
      decoding merges into the `Details` that `resetMeta` kept, so a packet
      without that field leaves it zeroed rather than nil. */
  function DecodedDetails(d: Option<Details>): (r: Details)
    ensures d.Some? ==> r == d.value
    ensures d.None? ==> r.vpnIp == 0 && r.ipAndPorts == []
  {
    d.GetOr(ResetDetails)
  }

  /** `HandleRequest` for one packet from `vpnIp`. */
  function Dispatch(lh: LightHouse, marshal: Meta -> Option<seq<byte>>, vpnIp: uint32, p: Packet): (r: seq<Effect>)
    ensures (r == []) == p.Undecodable?
    ensures p.Decoded? ==> r[0] == MetricRx(p.mtype)
  {
    match p
    case Undecodable => []
    case Decoded(mtype, d) => [MetricRx(mtype)] + React(lh, marshal, vpnIp, mtype, DecodedDetails(d))
  }

  // ---------------------------------------------------------------------
  // Properties of the dispatcher

  /** An undecodable packet is dropped: no metric, send or address. */
  lemma UndecodableDropped(lh: LightHouse, marshal: Meta -> Option<seq<byte>>, vpnIp: uint32)
    ensures Dispatch(lh, marshal, vpnIp, Undecodable) == []
  {
  }

  /** A decoded packet is counted once, by its type, before anything else. */
  lemma ReceiveCountedOnceFirst(lh: LightHouse, marshal: Meta -> Option<seq<byte>>, vpnIp: uint32, p: Packet)
    requires p.Decoded?
    ensures var t := Dispatch(lh, marshal, vpnIp, p);
            |t| >= 1 && t[0] == MetricRx(p.mtype)
            && forall i :: 1 <= i < |t| ==> !t[i].MetricRx?
  {
    var t := React(lh, marshal, vpnIp, p.mtype, DecodedDetails(p.details));
    assert forall e :: e in t ==> !e.MetricRx?;
  }

  /** `HostMovedNotification`, and any type the switch does not list, has no
      effect beyond its receive count. */
  lemma MovedOnlyCounted(lh: LightHouse, marshal: Meta -> Option<seq<byte>>, vpnIp: uint32, p: Packet)
    requires p.Decoded? && (p.mtype == HostMovedNotification || p.mtype.OtherType?)
    ensures Dispatch(lh, marshal, vpnIp, p) == [MetricRx(p.mtype)]
  {
  }

  /** A `HostQuery` is answered only by a lighthouse that can look up the
      requested VPN IP and encode the answer; otherwise only the receive
      count happens. */
  lemma QueryNotAnswered(lh: LightHouse, marshal: Meta -> Option<seq<byte>>, vpnIp: uint32, d: Details)
    requires !lh.amLighthouse || lh.query(d.vpnIp).None?
             || marshal(Meta(HostQueryReply, Details(d.vpnIp, ToIpAndPorts(lh.query(d.vpnIp).value)))).None?
    ensures Dispatch(lh, marshal, vpnIp, Decoded(HostQuery, Some(d))) == [MetricRx(HostQuery)]
  {
  }

  /** A lighthouse that finds the requested host answers the querier first
      with the requested VPN IP and its addresses, then, only when it also
      finds the querier, notifies the requested host to punch toward the
      querier's addresses. */
  lemma QueryAnswered(lh: LightHouse, marshal: Meta -> Option<seq<byte>>, vpnIp: uint32, d: Details, ips: seq<UdpAddr>, bytes: seq<byte>)
    requires lh.amLighthouse && lh.query(d.vpnIp) == Some(ips)
    requires marshal(Meta(HostQueryReply, Details(d.vpnIp, ToIpAndPorts(ips)))) == Some(bytes)
    ensures var t := Dispatch(lh, marshal, vpnIp, Decoded(HostQuery, Some(d)));
            var reply := Meta(HostQueryReply, Details(d.vpnIp, ToIpAndPorts(ips)));
            t[..3] == [MetricRx(HostQuery), MetricTx(HostQueryReply), SendToVpnIp(vpnIp, reply, bytes)]
            && (lh.query(vpnIp).None? ==> |t| == 3)
            && (lh.query(vpnIp).Some? ==>
                  var punch := Meta(HostPunchNotification, Details(vpnIp, ToIpAndPorts(lh.query(vpnIp).value)));
                  |t| == 5 && t[3] == MetricTx(HostPunchNotification)
                  && t[4] == SendToVpnIp(d.vpnIp, punch, marshal(punch).GetOr([])))
  {
  }

  /** A `HostQueryReply` from a lighthouse adds each listed address, in order,
      as an unverified address of the reply's VPN IP, then makes at most one
      handshake trigger; from anyone else it has no effect. */
  lemma QueryReplyHandled(lh: LightHouse, marshal: Meta -> Option<seq<byte>>, vpnIp: uint32, d: Details)
    ensures var t := Dispatch(lh, marshal, vpnIp, Decoded(HostQueryReply, Some(d)));
            var n := |d.ipAndPorts|;
            (!lh.isLighthouseIP(vpnIp) ==> t == [MetricRx(HostQueryReply)])
            && (lh.isLighthouseIP(vpnIp) ==>
                  |t| == 1 + n + (if lh.triggerHasRoom then 1 else 0)
                  && (forall i :: 0 <= i < n ==>
                        t[1 + i] == AddRemote(d.vpnIp, UdpAddr(d.ipAndPorts[i].ip, d.ipAndPorts[i].port % 0x1_0000), false))
                  && (lh.triggerHasRoom ==> t[1 + n] == HandshakeTrigger(d.vpnIp)))
  {
  }

  /** A `HostUpdateNotification` whose VPN IP is not the sender's is dropped;
      otherwise each listed address is added, unverified, for the sender. */
  lemma UpdateHandled(lh: LightHouse, marshal: Meta -> Option<seq<byte>>, vpnIp: uint32, d: Details)
    ensures var t := Dispatch(lh, marshal, vpnIp, Decoded(HostUpdateNotification, Some(d)));
            (d.vpnIp != vpnIp ==> t == [MetricRx(HostUpdateNotification)])
            && (d.vpnIp == vpnIp ==>
                  |t| == 1 + |d.ipAndPorts|
                  && forall i :: 0 <= i < |d.ipAndPorts| ==>
                       t[1 + i] == AddRemote(vpnIp, UdpAddr(d.ipAndPorts[i].ip, d.ipAndPorts[i].port % 0x1_0000), false))
  {
  }

  /** A `HostPunchNotification` from a lighthouse schedules exactly one
      one-byte probe per listed address, and a test packet to the notified VPN
      IP exactly when punch-back is on; from anyone else it has no effect. */
  lemma PunchHandled(lh: LightHouse, marshal: Meta -> Option<seq<byte>>, vpnIp: uint32, d: Details)
    ensures var t := Dispatch(lh, marshal, vpnIp, Decoded(HostPunchNotification, Some(d)));
            var n := |d.ipAndPorts|;
            (!lh.isLighthouseIP(vpnIp) ==> t == [MetricRx(HostPunchNotification)])
            && (lh.isLighthouseIP(vpnIp) ==>
                  |t| == 1 + n + (if lh.punchBack then 1 else 0)
                  && (forall i :: 0 <= i < n ==>
                        t[1 + i] == SchedulePunch(UdpAddr(d.ipAndPorts[i].ip, d.ipAndPorts[i].port % 0x1_0000), [0], lh.punchDelay))
                  && (lh.punchBack <==> ScheduleTestPacket(d.vpnIp) in t))
  {
    var t := Dispatch(lh, marshal, vpnIp, Decoded(HostPunchNotification, Some(d)));
    if lh.isLighthouseIP(vpnIp) && !lh.punchBack {
      assert forall e :: e in t ==> !e.ScheduleTestPacket?;
    }
  }

  /** The handler's authorization rules, over every packet: only a lighthouse
      sends anything, and only in answer to a query; addresses are always
      added unverified, and only from a lighthouse's reply or from a host's
      update about itself; triggers, probes and test packets happen only on
      a lighthouse's word. */
  lemma {:induction false} Authorization(lh: LightHouse, marshal: Meta -> Option<seq<byte>>, vpnIp: uint32, p: Packet, e: Effect)
    requires e in Dispatch(lh, marshal, vpnIp, p)
    ensures e.SendToVpnIp? || e.MetricTx? ==> lh.amLighthouse && p.mtype == HostQuery
    ensures e.AddRemote? ==>
              !e.verified
              && ((p.mtype == HostQueryReply && lh.isLighthouseIP(vpnIp))
                  || (p.mtype == HostUpdateNotification && e.vpnIp == vpnIp))
    ensures e.HandshakeTrigger? ==> p.mtype == HostQueryReply && lh.isLighthouseIP(vpnIp)
    ensures e.SchedulePunch? || e.ScheduleTestPacket? ==> p.mtype == HostPunchNotification && lh.isLighthouseIP(vpnIp)
  {
    var d := DecodedDetails(p.details);
    if e != MetricRx(p.mtype) {
      var t := React(lh, marshal, vpnIp, p.mtype, d);
      assert e in t;
      match p.mtype
      case HostQueryReply =>
        if e in AddRemotes(d.vpnIp, d.ipAndPorts) {
          var i :| 0 <= i < |d.ipAndPorts| && AddRemotes(d.vpnIp, d.ipAndPorts)[i] == e;
        }
      case HostUpdateNotification =>
        var i :| 0 <= i < |d.ipAndPorts| && AddRemotes(d.vpnIp, d.ipAndPorts)[i] == e;
      case HostPunchNotification =>
        if e in Punches(lh, d.ipAndPorts) {
          var i :| 0 <= i < |d.ipAndPorts| && Punches(lh, d.ipAndPorts)[i] == e;
        }
      case _ =>
    }
  }

  /** The rendezvous example: lighthouse L gets a query from A (10.0.0.2) for
      B (10.0.0.3); the address book holds 1.2.3.4:4242 for B and
      5.6.7.8:5555 for A. L answers A with B's address tagged 10.0.0.3, then
      tells B to punch toward A's address tagged 10.0.0.2. */
  lemma RendezvousExample(lh: LightHouse, marshal: Meta -> Option<seq<byte>>, bytes: seq<byte>)
    requires lh.amLighthouse
    requires lh.query(0x0A00_0003) == Some([UdpAddr(0x0102_0304, 4242)])
    requires lh.query(0x0A00_0002) == Some([UdpAddr(0x0506_0708, 5555)])
    requires marshal(Meta(HostQueryReply, Details(0x0A00_0003, [IpAndPort(0x0102_0304, 4242)]))) == Some(bytes)
    ensures var t := Dispatch(lh, marshal, 0x0A00_0002, Decoded(HostQuery, Some(Details(0x0A00_0003, []))));
            |t| == 5
            && t[2].SendToVpnIp? && t[2].dst == 0x0A00_0002
            && t[2].msg == Meta(HostQueryReply, Details(0x0A00_0003, [IpAndPort(0x0102_0304, 4242)]))
            && t[4].SendToVpnIp? && t[4].dst == 0x0A00_0003
            && t[4].msg == Meta(HostPunchNotification, Details(0x0A00_0002, [IpAndPort(0x0506_0708, 5555)]))
  {
    assert ToIpAndPorts([UdpAddr(0x0102_0304, 4242)]) == [IpAndPort(0x0102_0304, 4242)];
    assert ToIpAndPorts([UdpAddr(0x0506_0708, 5555)]) == [IpAndPort(0x0506_0708, 5555)];
    QueryAnswered(lh, marshal, 0x0A00_0002, Details(0x0A00_0003, []), [UdpAddr(0x0102_0304, 4242)], bytes);
  }

  /** A packet without a `Details` field is not dropped: it is handled as if
      it carried VPN IP 0 and no addresses. From a lighthouse, a reply of that
      kind triggers a handshake toward VPN IP 0. */
  lemma MissingDetailsHandledAsEmpty(lh: LightHouse, marshal: Meta -> Option<seq<byte>>, vpnIp: uint32)
    requires lh.isLighthouseIP(vpnIp) && lh.triggerHasRoom
    ensures Dispatch(lh, marshal, vpnIp, Decoded(HostQueryReply, None))
         == [MetricRx(HostQueryReply), HandshakeTrigger(0)]
  {
  }
}
