# Nebula lighthouse, routing set and DHT node — a Dafny model

This project models four pieces of the Nebula overlay network (the fork with
an experimental DHT):

- **The lighthouse request handler** (`lighthouse_request_handler.go`). A
  lighthouse is a well-known node that tells hosts where their peers can be
  reached.
  - `LighthouseSpec` describes `HandleRequest` as a pure function. It maps one
    decoded discovery message to the ordered list of effects the handler
    causes: receive/transmit metrics, sends to a VPN IP, `AddRemote` calls, a
    handshake trigger, scheduled hole punches and a scheduled test packet.
  - `LighthouseHandler` is the handler object itself. It reuses one
    `NebulaMeta`/`NebulaMetaDetails` pair for every packet, and keeps two
    scratch arrays in step: `iap`, holding address values, and `iapp`,
    holding pointers into `iap`.
  - `HandleRequest` and its helpers are methods over those fields. They are
    proved to cause exactly the effects that the pure function describes.
- **The UDP address value** (`udp_generic.go`). `UdpGeneric` covers:
  - an IPv4 address and port, with nil modelled as `None`;
  - `Equals` with its nil rules, `Copy` and `hostDidRoam`;
  - `NewUDPAddrFromString`, including Go's `strings.Split`, `strconv.Atoi` and
    the `uint16` conversion of the port.
  - The file builds for every target except Linux, Android included, so Go's
    `int` may be 32 or 64 bits wide. The width is a parameter `bits`. It sets
    `Atoi`'s fast-path length and the limits of `ParseUint` and `ParseInt`.
- **The routing set of the DHT** (`dht/state/set_test.go`). The set's
  implementation is not part of this model; its tests fix what it must do.
  - `RoutingSet` is a value type: peer ids kept strictly descending by
    big-endian value, bounded by a capacity, with the smallest evicted.
  - `SetTestIds` holds the test helpers `UpperID`/`LowerID` as array methods,
    and the tests' own scenarios as lemmas.
- **The DHT node's event loop** (`dht/node.go`). `DhtNode` has a `Node` class
  whose `Poll` consumes events.
  - A local-address change sends a `NODE_JOIN` to every neighbour.
  - A peer event adds the peer, then sends a `NODE_ANNOUNCE` for it to every
    neighbour.
  - The sends run concurrently and unordered in the source, so they are
    collected as a multiset.

Two places in `lighthouse_request_handler.go` behave differently from what
they suggest: a guard that cannot fire and a comment that does not match the
code. The model follows the code:

- **The `Details == nil` guard never fires.** The guard at
  `lighthouse_request_handler.go:84-91` drops a message without `Details`.
  But `HandleRequest` first calls `resetMeta` (lines 40-48, 73), which keeps
  the non-nil `Details` object. It then decodes with `proto.UnmarshalMerge`
  (line 74), which merges into that object and never sets it to nil. A
  packet without that field is therefore handled as VPN IP 0 with no
  addresses, not dropped (`LighthouseSpec.MissingDetailsHandledAsEmpty`).
- **The hole-punch probe is one byte, not zero bytes.** The comment at line
  127 speaks of zero-byte UDP packets. The payload written at line 183 is
  `[]byte{0}`, a single zero byte.

## Model

| member | source | states |
|---|---|---|
| Wrappers.ToUint16 | udp_generic.go:40 | Go's `uint16(x)` keeps `x` modulo 2^16, and leaves a value already in range unchanged |
| UdpGeneric.NewUDPAddr | udp_generic.go:27-29 | always returns a non-nil address |
| UdpGeneric.Equals | udp_generic.go:56-61 | equal exactly when both are nil, or both are non-nil with the same IP and port, i.e. value equality of the optional address |
| UdpGeneric.Copy | udp_generic.go:63-65 | the copy `Equals` the original |
| UdpGeneric.HostDidRoam | udp_generic.go:127-129 | a host roamed exactly when the old and new addresses differ |
| UdpGeneric.NewUDPAddrRoundTrip | udp_generic.go:123-125 | `udp2ipInt` of `NewUDPAddr(ip, port)` is `ip`, its port is `port`, and it equals the address built from those parts |
| UdpGeneric.EqualsIsEquivalence | udp_generic.go:56-61 | `Equals` is reflexive, symmetric and transitive, and nil equals only nil |
| UdpGeneric.NoRoamAfterCopy | udp_generic.go:127-129 | a host whose new address is a copy of its old one has not roamed |
| UdpGeneric.Split | udp_generic.go:32 | splitting on `:` yields at least one part |
| UdpGeneric.SplitLength | udp_generic.go:32-35 | there is one part more than there are colons, so there is a single part exactly when `s` has no colon |
| UdpGeneric.SplitFirst | udp_generic.go:32 | a colon-free prefix followed by `:` becomes the first part, and the rest splits on its own |
| UdpGeneric.SplitNoColon | udp_generic.go:32 | a colon-free string splits into itself alone |
| UdpGeneric.Atoi | udp_generic.go:37 | the value `strconv.Atoi` yields lies within the range of an `int` of the target's width, and is non-negative for an unsigned decimal |
| UdpGeneric.FastPathFits | udp_generic.go:37 | on `Atoi`'s fast path (under 10 bytes for a 32-bit `int`, under 19 for a 64-bit one) the digits always fit an `int` |
| UdpGeneric.ScanAllDigits | udp_generic.go:37 | `ParseUint`'s scan of an all-digit string gives its value, or a range error exactly when the value exceeds the limit |
| UdpGeneric.ScanStopsAtNonDigit | udp_generic.go:37 | the scan gives a syntax error when a non-digit comes before the value leaves the range |
| UdpGeneric.ScanOverflows | udp_generic.go:37 | the scan gives a range error as soon as the leading digits exceed the limit, whatever follows them |
| UdpGeneric.AtoiOfDecimal | udp_generic.go:37 | a signed decimal gives its value, clamped to the `int` range |
| UdpGeneric.AtoiOfMalformed | udp_generic.go:37 | any other string gives 0, as long as its leading digits fit `ParseUint`'s range |
| UdpGeneric.AtoiOfOverflowing | udp_generic.go:37 | leading digits past `ParseUint`'s range give the `int` bound on the side of the sign, even when junk follows them |
| UdpGeneric.NewUDPAddrFromString | udp_generic.go:31-42 | nil exactly when the string has no `:`; otherwise the IP is parsed from the first part |
| UdpGeneric.FieldsOfAddress | udp_generic.go:31-42 | for `host:port` followed by nothing or by `:` and anything, the result is the parsed host and the port read as a number cut to 16 bits; later fields are ignored |
| UdpGeneric.UnparsablePortIsZero | udp_generic.go:37-41 | a port that is not a decimal number does not fail the parse: it gives port 0, as long as its leading digits fit `ParseUint`'s range |
| UdpGeneric.OverflowingPortIsBound | udp_generic.go:37-41 | a port whose leading digits overflow `ParseUint` gives port 65535, or 0 when it is negative, even when junk follows the digits |
| UdpGeneric.OverflowBeforeJunk | udp_generic.go:37-41 | with a 32-bit `int`, the port `4294967296x` gives 65535 |
| UdpGeneric.PortTruncated | udp_generic.go:40 | port `65537` becomes 1, for either `int` width |
| UdpGeneric.NegativePortWraps | udp_generic.go:40 | port `-1` becomes 65535, for either `int` width |
| RoutingSet.InsertSorted | dht/state/set_test.go:65-111 | inserting into a descending sequence keeps it descending; the result holds exactly the old members plus `id` unless `id`'s value was already present, in which case nothing changes |
| RoutingSet.InsertSmallest | dht/state/set_test.go:89-111 | an id smaller than every member goes at the end |
| RoutingSet.IndexIn | dht/state/set_test.go:23 | -1 exactly when `id` is absent; otherwise the position of its first occurrence |
| RoutingSet.ClosestIn | dht/state/set_test.go:60 | the result is a member, and no member is nearer to the key, nor as near and smaller |
| RoutingSet.Set.Length | dht/state/set_test.go:127 | a valid set never holds more than its capacity |
| RoutingSet.Set.Get | dht/state/set_test.go:131 | the member at `index` belongs to the set, and exactly `index` members are larger than it |
| RoutingSet.Set.IndexOf | dht/state/set_test.go:23 | -1 exactly when `id` is not a member; otherwise an index holding `id` |
| RoutingSet.Set.Insert | dht/state/set_test.go:16-26 | the new set is valid (descending, within capacity), keeps the capacity, and holds only old members and `id` |
| RoutingSet.Set.Remove | dht/state/set_test.go:28-46 | `ok` exactly when `id` was a member; the new set is valid, holds every other member and not `id`, and is one shorter when `ok` |
| RoutingSet.Set.Closest | dht/state/set_test.go:48-63 | `None` exactly for an empty set; otherwise a member that is nearest to the key, ties going to the smaller member |
| RoutingSet.NewSet | dht/state/set_test.go:17 | a new set is empty, valid and has the given capacity |
| RoutingSet.RemoveAt | dht/state/set_test.go:38-45 | cutting one member out of a descending sequence keeps it descending and keeps every other member |
| RoutingSet.TakeKeepsLargest | dht/state/set_test.go:113-134 | cutting to capacity drops only values smaller than every value kept, and only when the result is full |
| RoutingSet.InsertKeepsLargest | dht/state/set_test.go:113-134 | an old member or `id` is missing after `Insert` only when the set is full of larger values, or it is `id` and its value was already present |
| RoutingSet.InsertAll | dht/state/set_test.go:119-122 | any run of inserts leaves the set valid and with the same capacity |
| RoutingSet.InsertIntoEmpty | dht/state/set_test.go:16-26 | an id inserted into an empty set is found at index 0 |
| RoutingSet.RemoveMember | dht/state/set_test.go:38-45 | removing a member reports `ok`, after which `IndexOf` gives -1 and the length drops by one |
| RoutingSet.InsertThenRemove | dht/state/set_test.go:28-46 | insert then remove of one id into a new set reports `ok` and leaves the id absent |
| RoutingSet.InsertLargest | dht/state/set_test.go:124-125 | a value larger than every member goes in front, and the set is cut to capacity |
| RoutingSet.InsertLargestIntoFull | dht/state/set_test.go:113-134 | a full set stays full, takes a new largest value at index 0 and evicts its previous minimum |
| RoutingSet.AscendingInsertsReversed | dht/state/set_test.go:65-87 | three ids inserted in ascending order come out in reverse |
| RoutingSet.DescendingInsertsKept | dht/state/set_test.go:89-111 | three ids inserted in descending order keep their order |
| RoutingSet.ClosestTieGoesToSmaller | dht/state/set_test.go:48-63 | with two members equidistant from the key, `Closest` returns the smaller |
| SetTestIds.RaiseIndex | dht/state/set_test.go:140-146 | the first index from `i` on whose byte is below 255 |
| SetTestIds.LowerIndex | dht/state/set_test.go:156-162 | the first index from `i` on whose byte is above 0 |
| SetTestIds.Upper | dht/state/set_test.go:136-150 | the id `UpperID` builds keeps its length and its first two bytes, and differs from the input; `UpperIsLarger` states by how much its value grows |
| SetTestIds.Lower | dht/state/set_test.go:152-167 | the id `LowerID` builds keeps its length and its first two bytes, and differs from the input; `LowerIsSmaller` states by how much its value shrinks |
| SetTestIds.UpperID | dht/state/set_test.go:136-150 | returns a fresh array equal to the input with the first byte at index 2 or later that is below 255 raised by one; it needs such a byte, or the loop would read past the end |
| SetTestIds.LowerID | dht/state/set_test.go:152-167 | the mirror of `UpperID`: the first byte at index 2 or later that is above 0 is lowered by one |
| SetTestIds.ValueAfterStep | dht/state/set_test.go:148 | stepping byte `k` by one moves the big-endian value by 256^(len-1-k), up or down |
| SetTestIds.UpperIsLarger | dht/state/set_test.go:136-150 | `UpperID` keeps the length and gives a strictly larger id, larger by the weight of the changed byte |
| SetTestIds.LowerIsSmaller | dht/state/set_test.go:152-167 | `LowerID` keeps the length and gives a strictly smaller id |
| SetTestIds.Base36StepsIndexTwo | dht/state/set_test.go:201 | for an uppercase base-36 id of at least three bytes both helpers can run and both change index 2 |
| SetTestIds.ClosestTest | dht/state/set_test.go:48-63 | in the closest-match test the search key lies halfway between the two members and `Closest` returns `first` |
| SetTestIds.IndexesOfThree | dht/state/set_test.go:76-86 | in a set holding three descending ids, `IndexOf` finds them at 0, 1 and 2 |
| SetTestIds.AscendingSortTest | dht/state/set_test.go:65-87 | ids built with `UpperID` and inserted in order land at indexes 2, 1, 0 |
| SetTestIds.DescendingSortTest | dht/state/set_test.go:89-111 | ids built with `LowerID` and inserted in order land at indexes 0, 1, 2 |
| DhtNode.Fanout | dht/node.go:81-93 | one message per neighbour |
| DhtNode.FanoutCounts | dht/node.go:97-109 | a message occurs in the fan-out as often as its key occurs among the neighbours when its type and sender match, and never otherwise |
| DhtNode.PeerChange | dht/node.go:77-94 | the routing set stays valid after a peer event |
| DhtNode.React | dht/node.go:55-70 | the routing set stays valid after any event |
| DhtNode.Run | dht/node.go:48-74 | the routing set stays valid after any run of events |
| DhtNode.Node.constructor | dht/node.go:20-26 | a node starts with the given id and table, nothing sent, subscription open |
| DhtNode.Node.SendToEach | dht/node.go:97-109 | adds exactly the fan-out of one message per neighbour to what was sent |
| DhtNode.Node.HandleUpdate | dht/node.go:96-110 | the table is unchanged and one `NODE_JOIN` from this node per neighbour is added |
| DhtNode.Node.HandlePeerChangeEvent | dht/node.go:77-94 | the new state is the peer inserted into the table followed by one `NODE_ANNOUNCE` for it per neighbour of the updated table |
| DhtNode.Node.HandleEvent | dht/node.go:55-70 | the state after one event is the reaction to it |
| DhtNode.Node.HandleNext | dht/node.go:48-54 | one turn of the loop moves the state after `i` events to the state after `i + 1` |
| DhtNode.Node.Poll | dht/node.go:45-75 | returns `ContextDone` after exactly `cancelAt` events when cancellation comes before the events run out, and `ChannelClosed` after all events otherwise; the state is the run over the handled events and the subscription is closed |
| DhtNode.PeerEventsAlike | dht/node.go:63-66 | the two peer events are handled identically |
| DhtNode.OtherEventIgnored | dht/node.go:67-69 | an event of another type changes nothing and sends nothing |
| DhtNode.LocalUpdateSendsJoins | dht/node.go:96-110 | a local-address change keeps the table, only adds messages, one per neighbour, and each neighbour gets exactly one `NODE_JOIN` keyed by itself from this node |
| DhtNode.PeerChangeAnnounces | dht/node.go:77-94 | a peer event inserts the peer first, only adds messages, one per member of the updated set, every new message is a `NODE_ANNOUNCE` for that peer keyed by a member, and every member of the updated set, the peer itself included when kept, receives exactly one |
| DhtNode.RunOnlyAdds | dht/node.go:48-74 | the loop never withdraws a sent message |
| LighthouseSpec.ToIpAndPorts | lighthouse_request_handler.go:63-69 | one wire entry per address |
| LighthouseSpec.AddrOf | lighthouse_request_handler.go:154 | the address keeps the IP and the port modulo 2^16 |
| LighthouseSpec.AddrOfToIpAndPort | lighthouse_request_handler.go:154 | converting an address to its wire form and back gives it back |
| LighthouseSpec.AddRemotes | lighthouse_request_handler.go:152-156 | one `AddRemote` per listed address |
| LighthouseSpec.Punches | lighthouse_request_handler.go:184-193 | one scheduled probe per listed address |
| LighthouseSpec.AnswerQuery | lighthouse_request_handler.go:96-146 | a query causes no effect, a reply with its count, or those and a punch notification with its count. Any effect at all needs a lighthouse that knows the requested host, and starts with the reply's count. `QueryNotAnswered` and `QueryAnswered` state the effects in full |
| LighthouseSpec.React | lighthouse_request_handler.go:95-207 | the type switch never counts a receipt, and a moved notification or an unlisted type does nothing. `MovedOnlyCounted`, `QueryAnswered`, `QueryReplyHandled`, `UpdateHandled`, `PunchHandled` and `Authorization` state each branch in full |
| LighthouseSpec.DecodedDetails | lighthouse_request_handler.go:40-48 | decoded `Details` are kept; a missing field leaves the reset `Details`, VPN IP 0 and no addresses |
| LighthouseSpec.Dispatch | lighthouse_request_handler.go:71-95 | a packet causes no effect exactly when it does not decode; otherwise the first effect is its receive count. `UndecodableDropped`, `ReceiveCountedOnceFirst` and `MissingDetailsHandledAsEmpty` state more |
| LighthouseSpec.UndecodableDropped | lighthouse_request_handler.go:74-82 | a packet that does not decode causes no effect at all |
| LighthouseSpec.ReceiveCountedOnceFirst | lighthouse_request_handler.go:93 | a decoded packet is counted once, by its type, before any other effect |
| LighthouseSpec.MovedOnlyCounted | lighthouse_request_handler.go:177 | `HostMovedNotification` and unlisted types cause only the receive count |
| LighthouseSpec.QueryNotAnswered | lighthouse_request_handler.go:96-123 | a query reaching a non-lighthouse, or asking for an unknown host, or whose answer fails to encode, causes only the receive count |
| LighthouseSpec.QueryAnswered | lighthouse_request_handler.go:104-146 | a lighthouse answers the querier with the requested VPN IP and its addresses. Then, only if the querier is known, it tells the requested host to punch toward the querier's addresses. Each send is preceded by its transmit count |
| LighthouseSpec.QueryReplyHandled | lighthouse_request_handler.go:148-161 | a reply from a lighthouse adds every listed address, unverified and in order, then triggers a handshake only when the channel has room. A reply from anyone else has no effect |
| LighthouseSpec.UpdateHandled | lighthouse_request_handler.go:163-176 | an update about another VPN IP is dropped; otherwise every listed address is added, unverified, for the sender |
| LighthouseSpec.PunchHandled | lighthouse_request_handler.go:178-206 | a punch notification from a lighthouse schedules one one-byte probe per address, and a test packet exactly when punch-back is on. From anyone else it has no effect |
| LighthouseSpec.Authorization | lighthouse_request_handler.go:95-207 | over every packet, the authorization rules hold. Only a lighthouse sends, and only for a query. Addresses are added unverified, and only from a lighthouse's reply or a host's update about itself. Triggers, probes and test packets happen only on a lighthouse's word |
| LighthouseSpec.RendezvousExample | lighthouse_request_handler.go:110-143 | for a query from A for B, the reply goes to A carrying B's address, and the punch notification goes to B carrying A's address |
| LighthouseSpec.MissingDetailsHandledAsEmpty | lighthouse_request_handler.go:74-91 | a packet without `Details` is handled as VPN IP 0 with no addresses, not dropped |
| LighthouseHandler.Load | lighthouse_request_handler.go:68 | the values behind the returned pointers, one per pointer |
| LighthouseHandler.LightHouseHandler.constructor | lighthouse_request_handler.go:20-34 | a new handler has a fresh `NebulaMeta` holding a fresh `NebulaMetaDetails` (the struct literals at lines 26-28, built by the `NebulaMeta` and `NebulaMetaDetails` constructors), and consistent buffers of length and capacity 10 |
| LighthouseHandler.LightHouseHandler.ResetMeta | lighthouse_request_handler.go:40-48 | the message is zeroed but keeps the same non-nil `Details` object |
| LighthouseHandler.LightHouseHandler.ResizeIpAndPorts | lighthouse_request_handler.go:50-61 | both slices get length `n`, each length set on its own, and each pointer still points at its own element. Fresh zeroed arrays are allocated exactly when the capacity is below `n`; otherwise the arrays stay |
| LighthouseHandler.LightHouseHandler.SetIpAndPortsFromNetIps | lighthouse_request_handler.go:63-69 | returns `len(ips)` pointers into `iap`, and the values they point at are the converted addresses. When `iap` is not reallocated, its elements past `len(ips)` keep their values |
| LighthouseHandler.LightHouseHandler.HandleRequest | lighthouse_request_handler.go:71-208 | the effects are exactly `Dispatch`'s; the buffers stay consistent and the reused message keeps its `Details` |
| LighthouseHandler.LightHouseHandler.Switch | lighthouse_request_handler.go:95-207 | the effects of the type switch are `React`'s for the message decoded into the reused buffers |
| LighthouseHandler.LightHouseHandler.AnswerQuery | lighthouse_request_handler.go:96-146 | the query branch built in the reused message causes exactly the effects of `LighthouseSpec.AnswerQuery` |
| LighthouseHandler.LightHouseHandler.Compose | lighthouse_request_handler.go:111-114 | the reused message holds exactly the given type, VPN IP and converted addresses |
| LighthouseHandler.LightHouseHandler.SchedulePunches | lighthouse_request_handler.go:184-193 | the loop schedules exactly `Punches` |
| LighthouseHandler.LightHouseHandler.AddRemotes | lighthouse_request_handler.go:173-176 | the loop adds exactly `AddRemotes` |

## Left out

- **Protobuf.** Encoding and decoding are not modelled. A received packet is given already decoded, or as undecodable. Encoding is a parameter `marshal` that may fail.
- **The address book and the lighthouse's collaborators.** `Query`, `AddRemote`, `IsLighthouseIP`, the handshake-trigger channel, the metrics and `SendMessageToVpnIp` are not part of this model. The lookups and `IsLighthouseIP` are parameters. The other calls are entries in the effect list. Whether the non-blocking trigger send goes through is a parameter.
- **Timing and goroutines.** The goroutines and `time.Sleep` in the punch path are recorded as one scheduled effect each. So are the hole-punch counter and `punchConn.WriteTo` inside them.
- **The punch-back race.** The punch-back goroutine reads the reused message five seconds later. Only the scheduling of the test packet is recorded, with the VPN IP it would see at once.
- **Logging.** All log output is left out.
- **`nb` and `out`.** The handler's send scratch buffers carry no decision, so they are not modelled.
- **`Details.IpAndPorts`.** The reused message holds the pointed-at values, not the `[]*IpAndPort` slice itself. `Compose` loads them through the pointers that `SetIpAndPortsFromNetIps` returns.
- **`NewIpAndPortFromUDPAddr`.** Its file is not part of this model. It is taken to copy the IP and port.
- **Enum numbering.** The message type is a datatype. The numbering of the enum, and its zero value beyond "a type the switch does not list", are not modelled.
- **Socket code in `udp_generic.go`.** `NewListener`, `WriteTo`, `LocalAddr`, `ListenOut`, `reloadConfig`, `udp2ip` and `String` are I/O or formatting through foreign code.
- **IP parsing.** `net.ParseIP` followed by `ip2int` is a function parameter of `NewUDPAddrFromString`.
- **The routing set's implementation.** Its file is not part of this model. `Insert` of an id whose value is already present leaves the set unchanged, which the tests do not decide.
- **`AddPeer` and `MapNeighbors`.** `AddPeer` is taken to be `Insert` into the routing set. `MapNeighbors` is taken to visit its members.
- **`Send`.** Its errors are only logged in the source; the model records every message handed to it.
- **Test ids.** `ID()` in the set's tests (a SHA-256 of a PEM certificate, in base 36) and `dht/id.go` are not modelled. Ids are arbitrary byte strings, uppercase base-36 text where a lemma needs it.
- **The subscription `poll` closes.** `poll(s)` reads events from `n.sub.Out()` but closes its parameter `s` when it returns (`dht/node.go:45-50`). The one flag `subscribed` treats them as one subscription, so the model assumes a caller passes `n.sub` itself; no caller of `poll` is part of this model. A caller passing another subscription would leave `n.sub` open and close that one instead.
- **The DHT event loop's plumbing.** The event bus, `context` cancellation and the goroutine per send are not modelled. The select's choice between a delivered event and cancellation is the parameter `cancelAt`. The unordered sends are a multiset.
- **`stats.go` and `profiler.go`.** Their HTTP servers, exporters and atomics are not part of this model.
- UdpGeneric.Udp2IpInt: has no contract of its own; `NewUDPAddrRoundTrip` states what it returns.
