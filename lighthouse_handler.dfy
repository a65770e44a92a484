/** The lighthouse request handler as the source builds it: one object per
    receive loop that reuses a `NebulaMeta` and two parallel scratch slices
    for every packet, `iap` (address values) and `iapp` (pointers to the
    elements of `iap`). `HandleRequest` is proved to cause exactly the effects
    that `LighthouseSpec.Dispatch` describes. */
module LighthouseHandler {
  import opened Wrappers
  import opened UdpGeneric
  import opened LighthouseSpec

  /** A Go `*IpAndPort` that points at an element of a slice's backing array. */
  datatype Ptr = Ptr(arr: array<IpAndPort>, index: nat)

  /** The values the pointers point at. */
  function Load(ptrs: seq<Ptr>): (r: seq<IpAndPort>)
    requires forall p :: p in ptrs ==> p.index < p.arr.Length
    reads set p | p in ptrs :: p.arr
    ensures |r| == |ptrs|
    ensures forall i :: 0 <= i < |ptrs| ==> r[i] == ptrs[i].arr[ptrs[i].index]
  {
    if ptrs == [] then [] else [ptrs[0].arr[ptrs[0].index]] + Load(ptrs[1..])
  }

  /** The reused `NebulaMetaDetails`. */
  class NebulaMetaDetails {
    var vpnIp: uint32
    var ipAndPorts: seq<IpAndPort>

    constructor ()
      ensures vpnIp == 0 && ipAndPorts == []
    {
      vpnIp := 0;
      ipAndPorts := [];
    }
  }

  /** The reused `NebulaMeta`; its `Details` pointer may be nil. */
  class NebulaMeta {
    var mtype: MetaType
    var details: NebulaMetaDetails?

    constructor (details: NebulaMetaDetails)
      ensures mtype == ResetType && this.details == details
    {
      mtype := ResetType;
      this.details := details;
    }
  }

  class LightHouseHandler {
    var meta: NebulaMeta
    /** The backing array of `iap`; its length is the slices' capacity. */
    var iap: array<IpAndPort>
    /** The backing array of `iapp`. */
    var iapp: array<Ptr>
    /** `len(iap)`. */
    var iapLen: nat
    /** `len(iapp)`. */
    var iappLen: nat

    /** The buffers stay in step: both slices have the same capacity, each
        length is within it, and every pointer slot points at the `iap`
        element of the same index. The reused message always keeps its
        `Details`. */
    ghost predicate Valid()
      reads this, meta, iapp
    {
      meta.details != null
      && iapp.Length == iap.Length && iapLen <= iap.Length && iappLen <= iapp.Length
      && forall i :: 0 <= i < iapp.Length ==> iapp[i] == Ptr(iap, i)
    }

    /** The message held in the reused `NebulaMeta`. */
    function Current(): Meta
      reads this, meta, meta.details
      requires meta.details != null
    {
      Meta(meta.mtype, Details(meta.details.vpnIp, meta.details.ipAndPorts))
    }

    /** `NewRequestHandler`: a fresh message with `Details`, and buffers sized
        for ten addresses. */
    constructor ()
      ensures Valid() && fresh(meta) && fresh(meta.details) && fresh(iap) && fresh(iapp)
      ensures iapLen == 10 && iappLen == 10 && iap.Length == 10
    {
      var details := new NebulaMetaDetails();
      meta := new NebulaMeta(details);
      iap := new IpAndPort[0];
      iapp := new Ptr[0];
      iapLen, iappLen := 0, 0;
      new;
      ResizeIpAndPorts(10);
    }

    /** `resetMeta`: zero both messages but keep the same `Details` object. */
    method ResetMeta() returns (n: NebulaMeta)
      requires Valid()
      modifies meta, meta.details
      ensures Valid() && n == meta && meta.details == old(meta.details)
      ensures Current() == Meta(ResetType, ResetDetails)
    {
      var details := meta.details;
      details.vpnIp, details.ipAndPorts := 0, [];
      meta.mtype, meta.details := ResetType, null;
      meta.details := details;
      n := meta;
    }

    /** `resizeIpAndPorts(n)`: both slices get length `n`. New arrays, zeroed
        and with every pointer aimed at its own element, are made only when
        the capacity is below `n`; otherwise the old ones are resliced. */
    method ResizeIpAndPorts(n: nat)
      requires Valid()
      modifies this
      ensures Valid() && iapLen == n && iappLen == n && meta == old(meta)
      ensures iap == old(iap) || fresh(iap)
      ensures old(iap.Length) >= n ==> iap == old(iap) && iapp == old(iapp)
      ensures old(iap.Length) < n ==>
                fresh(iap) && fresh(iapp) && iap.Length == n
                && forall i :: 0 <= i < n ==> iap[i] == IpAndPort(0, 0)
    {
      if iap.Length < n {
        var values := new IpAndPort[n](_ => IpAndPort(0, 0));
        var pointers := new Ptr[n](_ => Ptr(values, 0));
        for i := 0 to n
          invariant meta == old(meta) && iap == old(iap) && iapp == old(iapp)
          invariant forall j :: 0 <= j < n ==> values[j] == IpAndPort(0, 0)
          invariant forall j :: 0 <= j < i ==> pointers[j] == Ptr(values, j)
        {
          pointers[i] := Ptr(values, i);
        }
        iap, iapp := values, pointers;
      }
      iapLen := n;
      iappLen := n;
    }

    /** `setIpAndPortsFromNetIps`: fill the first `len(ips)` elements of `iap`
        with the converted addresses and return the matching pointers. */
    method SetIpAndPortsFromNetIps(ips: seq<UdpAddr>) returns (ptrs: seq<Ptr>)
      requires Valid()
      modifies this, iap
      ensures Valid() && meta == old(meta) && iapLen == |ips| && iappLen == |ips|
      ensures iap == old(iap) || fresh(iap)
      ensures iap == old(iap) ==> iap[|ips|..] == old(iap[|ips|..])
      ensures ptrs == iapp[..iappLen]
      ensures forall p :: p in ptrs ==> p.arr == iap && p.index < iap.Length
      ensures Load(ptrs) == ToIpAndPorts(ips)
    {
      ResizeIpAndPorts(|ips|);
      for i := 0 to |ips|
        invariant Valid() && iapLen == |ips| && iappLen == |ips| && meta == old(meta)
        invariant iap == old(iap) || fresh(iap)
        invariant iap == old(iap) ==> iap[|ips|..] == old(iap[|ips|..])
        invariant forall j :: 0 <= j < i ==> iap[j] == ToIpAndPort(ips[j])
      {
        iap[i] := ToIpAndPort(ips[i]);
      }
      ptrs := iapp[..iappLen];
      assert forall i :: 0 <= i < |ips| ==> ptrs[i] == Ptr(iap, i);
      assert forall i :: 0 <= i < |ips| ==> Load(ptrs)[i] == ToIpAndPorts(ips)[i];
    }

    /** `HandleRequest` for a packet from `vpnIp`; returns the effects in the
        order the source causes them. */
    method HandleRequest(lh: LightHouse, marshal: Meta -> Option<seq<byte>>, vpnIp: uint32, p: Packet)
      returns (effects: seq<Effect>)
      requires Valid()
      modifies this, meta, meta.details, iap
      ensures Valid() && meta == old(meta) && meta.details == old(meta.details)
      ensures effects == Dispatch(lh, marshal, vpnIp, p)
    {
      effects := [];
      var n := ResetMeta();
      // proto.UnmarshalMerge: merge the decoded fields into the reset message.
      if p.Undecodable? {
        return;
      }
      n.mtype := p.mtype;
      if p.details.Some? {
        n.details.vpnIp, n.details.ipAndPorts := p.details.value.vpnIp, p.details.value.ipAndPorts;
      }
      // The `Details == nil` guard: merging never clears the kept pointer.
      assert n.details != null;
      effects := [MetricRx(n.mtype)];
      var more := Switch(lh, marshal, vpnIp);
      effects := effects + more;
    }

    /** The type switch of `HandleRequest`, on the message it has just
        decoded into the reused `NebulaMeta`. */
    method Switch(lh: LightHouse, marshal: Meta -> Option<seq<byte>>, vpnIp: uint32)
      returns (effects: seq<Effect>)
      requires Valid()
      modifies this, meta, meta.details, iap
      ensures Valid() && meta == old(meta) && meta.details == old(meta.details)
      ensures effects == React(lh, marshal, vpnIp, old(meta.mtype), old(Current().details))
    {
      effects := [];
      var n := meta;
      match n.mtype {
        case HostQuery =>
          effects := AnswerQuery(lh, marshal, vpnIp);
        case HostQueryReply =>
          if !lh.isLighthouseIP(vpnIp) {
            return;
          }
          effects := AddRemotes(n.details.vpnIp, n.details.ipAndPorts);
          if lh.triggerHasRoom {
            effects := effects + [HandshakeTrigger(n.details.vpnIp)];
          }
        case HostUpdateNotification =>
          if n.details.vpnIp != vpnIp {
            return;
          }
          effects := AddRemotes(n.details.vpnIp, n.details.ipAndPorts);
        case HostMovedNotification =>
        case HostPunchNotification =>
          if !lh.isLighthouseIP(vpnIp) {
            return;
          }
          effects := SchedulePunches(lh, n.details.ipAndPorts);
          if lh.punchBack {
            effects := effects + [ScheduleTestPacket(n.details.vpnIp)];
          }
        case OtherType(_) =>
      }
    }

    /** The `HostQuery` case of `HandleRequest`, on the message it has just
        decoded: answer the querier, then notify the requested host. */
    method AnswerQuery(lh: LightHouse, marshal: Meta -> Option<seq<byte>>, vpnIp: uint32)
      returns (effects: seq<Effect>)
      requires Valid() && meta.mtype == HostQuery
      modifies this, meta, meta.details, iap
      ensures Valid() && meta == old(meta) && meta.details == old(meta.details)
      ensures effects == LighthouseSpec.AnswerQuery(lh, marshal, vpnIp, old(meta.details.vpnIp))
    {
      effects := [];
      if !lh.amLighthouse {
        return;
      }
      var ips := lh.query(meta.details.vpnIp);
      if ips.None? {
        return;
      }
      var reqVpnIp := meta.details.vpnIp;
      Compose(HostQueryReply, reqVpnIp, ips.value);
      var reply := marshal(Current());
      if reply.None? {
        return;
      }
      effects := [MetricTx(HostQueryReply), SendToVpnIp(vpnIp, Current(), reply.value)];
      ips := lh.query(vpnIp);
      if ips.None? {
        return;
      }
      Compose(HostPunchNotification, vpnIp, ips.value);
      var punch := marshal(Current());
      effects := effects + [MetricTx(HostPunchNotification), SendToVpnIp(reqVpnIp, Current(), punch.GetOr([]))];
    }

    /** The steps `HandleRequest` repeats to build an outgoing message in the
        reused `NebulaMeta`: reset it, set the type and VPN IP, and point
        `IpAndPorts` at the scratch buffer filled from `ips`. */
    method Compose(mtype: MetaType, vpnIp: uint32, ips: seq<UdpAddr>)
      requires Valid()
      modifies this, meta, meta.details, iap
      ensures Valid() && meta == old(meta) && meta.details == old(meta.details)
      ensures iap == old(iap) || fresh(iap)
      ensures Current() == Meta(mtype, Details(vpnIp, ToIpAndPorts(ips)))
    {
      var n := ResetMeta();
      n.mtype := mtype;
      n.details.vpnIp := vpnIp;
      var ptrs := SetIpAndPortsFromNetIps(ips);
      n.details.ipAndPorts := Load(ptrs);
    }

    /** The loop over `IpAndPorts` that schedules one probe per address. */
    static method SchedulePunches(lh: LightHouse, list: seq<IpAndPort>) returns (effects: seq<Effect>)
      ensures effects == Punches(lh, list)
    {
      effects := [];
      for i := 0 to |list|
        invariant effects == Punches(lh, list[..i])
      {
        var vpnPeer := NewUDPAddr(list[i].ip, ToUint16(list[i].port)).value;
        effects := effects + [SchedulePunch(vpnPeer, ProbePayload, lh.punchDelay)];
      }
      assert list[..|list|] == list;
    }

    /** The loop over `IpAndPorts` that adds each address, unverified. */
    static method AddRemotes(vpnIp: uint32, list: seq<IpAndPort>) returns (effects: seq<Effect>)
      ensures effects == LighthouseSpec.AddRemotes(vpnIp, list)
    {
      effects := [];
      for i := 0 to |list|
        invariant effects == LighthouseSpec.AddRemotes(vpnIp, list[..i])
      {
        var ans := NewUDPAddr(list[i].ip, ToUint16(list[i].port)).value;
        effects := effects + [AddRemote(vpnIp, ans, false)];
      }
      assert list[..|list|] == list;
    }
  }
}
