/** The routing overlay node: a loop that consumes identity and address
    events and gossips join or announce messages to every neighbour in the
    routing set. The per-neighbour sends run concurrently and unordered in the
    source, so what they emit is a multiset of messages. */
module DhtNode {
  import opened Wrappers
  import opened RoutingSet

  datatype MessageType = NodeJoin | NodeAnnounce

  /** A `pb.Message` as the node builds it: `Key` is the neighbour it is sent
      to, `Sender` the peer it speaks for. */
  datatype Message = Message(key: Peer, mtype: MessageType, sender: Peer)

  /** What the event-bus subscription delivers. `OtherEvent` stands for a value
      of any type the node did not subscribe to. */
  datatype Event =
    | LocalAddressesUpdated
    | PeerProtocolsUpdated(peer: Peer)
    | PeerIdentificationCompleted(peer: Peer)
    | OtherEvent

  /** Why `poll` returned. */
  datatype Exit = ChannelClosed | ContextDone

  /** One message of the given type and sender for each neighbour, keyed by
      that neighbour, and nothing else. */
  function Fanout(neighbours: seq<Peer>, mtype: MessageType, sender: Peer): (m: multiset<Message>)
    ensures |m| == |neighbours|
  {
    if neighbours == [] then multiset{}
    else
      Fanout(neighbours[..|neighbours| - 1], mtype, sender)
        + multiset{Message(neighbours[|neighbours| - 1], mtype, sender)}
  }

  /** Each message occurs in the fan-out as often as its key occurs among the
      neighbours, provided it has the fan-out's type and sender. */
  lemma {:induction false} FanoutCounts(neighbours: seq<Peer>, mtype: MessageType, sender: Peer, msg: Message)
    ensures Fanout(neighbours, mtype, sender)[msg]
         == if msg.mtype == mtype && msg.sender == sender then multiset(neighbours)[msg.key] else 0
  {
    if neighbours != [] {
      var init := neighbours[..|neighbours| - 1];
      assert neighbours == init + [neighbours[|neighbours| - 1]];
      FanoutCounts(init, mtype, sender, msg);
    }
  }

  /** The node's observable state: its routing set and every message it has
      handed to `Send`. */
  datatype NodeState = NodeState(table: Set, sent: multiset<Message>)

  /** `handlePeerChangeEvent(p)`: add `p` to the routing set first, then
      announce `p` to every neighbour of the updated set. */
  function PeerChange(st: NodeState, p: Peer): (r: NodeState)
    requires st.table.Valid()
    ensures r.table.Valid()
  {
    var table := st.table.Insert(p);
    NodeState(table, st.sent + Fanout(table.items, NodeAnnounce, p))
  }

  /** One turn of the `poll` loop for one event. */
  function React(self: Peer, st: NodeState, e: Event): (r: NodeState)
    requires st.table.Valid()
    ensures r.table.Valid()
  {
    match e
    case LocalAddressesUpdated => NodeState(st.table, st.sent + Fanout(st.table.items, NodeJoin, self))
    case PeerProtocolsUpdated(p) => PeerChange(st, p)
    case PeerIdentificationCompleted(p) => PeerChange(st, p)
    case OtherEvent => st
  }

  /** The state after the loop has handled `events` in order. */
  function Run(self: Peer, st: NodeState, events: seq<Event>): (r: NodeState)
    requires st.table.Valid()
    ensures r.table.Valid()
    decreases |events|
  {
    if events == [] then st
    else React(self, Run(self, st, events[..|events| - 1]), events[|events| - 1])
  }

  /** Handling one more event extends the fan-out by one message. */
  lemma FanoutStep(neighbours: seq<Peer>, i: nat, mtype: MessageType, sender: Peer)
    requires i < |neighbours|
    ensures Fanout(neighbours[..i + 1], mtype, sender)
         == Fanout(neighbours[..i], mtype, sender) + multiset{Message(neighbours[i], mtype, sender)}
  {
    assert neighbours[..i + 1][..i] == neighbours[..i];
  }

  /** The run over one more event is one more reaction. */
  lemma RunStep(self: Peer, st: NodeState, events: seq<Event>, i: nat)
    requires st.table.Valid() && i < |events|
    ensures Run(self, st, events[..i + 1]) == React(self, Run(self, st, events[..i]), events[i])
  {
    assert events[..i + 1][..i] == events[..i];
  }

  class Node {
    /** The node's own id (`n.ID`). */
    const id: Peer
    /** The routing set that `AddPeer` inserts into and `MapNeighbors` walks. */
    var table: Set
    /** Every message handed to `Send` so far. */
    var sent: multiset<Message>
    /** The event subscription is still open. */
    var subscribed: bool

    constructor (id: Peer, table: Set)
      requires table.Valid()
      ensures this.id == id && this.table == table && sent == multiset{} && subscribed
    {
      this.id := id;
      this.table := table;
      sent := multiset{};
      subscribed := true;
    }

    function State(): NodeState
      reads this
    {
      NodeState(table, sent)
    }

    /** `MapNeighbors` with the callback both handlers pass: one send per
        neighbour, keyed by that neighbour. */
    method SendToEach(neighbours: seq<Peer>, mtype: MessageType, sender: Peer)
      modifies this`sent
      ensures sent == old(sent) + Fanout(neighbours, mtype, sender)
    {
      for i := 0 to |neighbours|
        invariant sent == old(sent) + Fanout(neighbours[..i], mtype, sender)
      {
        var m := Message(neighbours[i], mtype, sender);
        FanoutStep(neighbours, i, mtype, sender);
        sent := sent + multiset{m};
      }
      assert neighbours[..|neighbours|] == neighbours;
    }

    /** `handleUpdate`: one `NODE_JOIN` from this node to each neighbour. */
    method HandleUpdate()
      requires table.Valid()
      modifies this
      ensures table == old(table) && subscribed == old(subscribed)
      ensures sent == old(sent) + Fanout(table.items, NodeJoin, id)
    {
      SendToEach(table.items, NodeJoin, id);
    }

    /** `handlePeerChangeEvent`: add `p`, then one `NODE_ANNOUNCE` on behalf
        of `p` to each neighbour of the updated set. */
    method HandlePeerChangeEvent(p: Peer)
      requires table.Valid()
      modifies this
      ensures subscribed == old(subscribed)
      ensures State() == PeerChange(old(State()), p)
    {
      table := table.Insert(p);
      SendToEach(table.items, NodeAnnounce, p);
    }

    /** The type switch in `poll`'s loop: one event, one handler; an event of
        another type is only logged. */
    method HandleEvent(e: Event)
      requires table.Valid()
      modifies this
      ensures subscribed == old(subscribed)
      ensures State() == React(id, old(State()), e)
    {
      match e {
        case LocalAddressesUpdated => HandleUpdate();
        case PeerProtocolsUpdated(p) => HandlePeerChangeEvent(p);
        case PeerIdentificationCompleted(p) => HandlePeerChangeEvent(p);
        case OtherEvent =>
      }
    }

    /** One turn of the loop: the state after the first `i` events moves on
        to the state after the first `i + 1`. */
    method HandleNext(ghost start: NodeState, events: seq<Event>, i: nat)
      requires start.table.Valid() && i < |events|
      requires State() == Run(id, start, events[..i])
      modifies this
      ensures subscribed == old(subscribed)
      ensures State() == Run(id, start, events[..i + 1])
    {
      RunStep(id, start, events, i);
      HandleEvent(events[i]);
    }

    /** `poll`: handle the events the subscription delivers, in order, until
        it closes (the events run out) or the context is cancelled, which the
        select picks after `cancelAt` events when that is given; then close
        the subscription. */
    method Poll(events: seq<Event>, cancelAt: Option<nat>) returns (handled: nat, exit: Exit)
      requires table.Valid()
      modifies this
      ensures !subscribed
      ensures if cancelAt.Some? && cancelAt.value <= |events|
              then exit == ContextDone && handled == cancelAt.value
              else exit == ChannelClosed && handled == |events|
      ensures State() == Run(id, old(State()), events[..handled])
    {
      handled := 0;
      ghost var start := State();
      while handled < |events| && cancelAt != Some(handled)
        invariant handled <= |events|
        invariant cancelAt.Some? && cancelAt.value <= |events| ==> handled <= cancelAt.value
        invariant table.Valid()
        invariant State() == Run(id, start, events[..handled])
      {
        HandleNext(start, events, handled);
        handled := handled + 1;
      }
      exit := if cancelAt == Some(handled) then ContextDone else ChannelClosed;
      subscribed := false;
    }
  }

  // ---------------------------------------------------------------------
  // Properties of the reactor

  /** Both peer events go through `handlePeerChangeEvent` alike. */
  lemma PeerEventsAlike(self: Peer, st: NodeState, p: Peer)
    requires st.table.Valid()
    ensures React(self, st, PeerProtocolsUpdated(p)) == React(self, st, PeerIdentificationCompleted(p))
  {
  }

  /** An event of another type changes nothing and sends nothing. */
  lemma OtherEventIgnored(self: Peer, st: NodeState, events: seq<Event>)
    requires st.table.Valid()
    ensures Run(self, st, events + [OtherEvent]) == Run(self, st, events)
  {
    assert (events + [OtherEvent])[..|events|] == events;
  }

  /** A local-address change leaves the set alone and sends exactly one
      `NODE_JOIN` per neighbour, keyed by that neighbour, from this node. */
  lemma LocalUpdateSendsJoins(self: Peer, st: NodeState, nb: Peer)
    requires st.table.Valid()
    ensures var r := React(self, st, LocalAddressesUpdated);
            r.table == st.table
            && st.sent <= r.sent
            && |r.sent| == |st.sent| + st.table.Length()
            && (nb in st.table.items ==> r.sent[Message(nb, NodeJoin, self)] == st.sent[Message(nb, NodeJoin, self)] + 1)
  {
    var items := st.table.items;
    if nb in items {
      OccursOnce(items, nb);
      FanoutCounts(items, NodeJoin, self, Message(nb, NodeJoin, self));
    }
  }

  /** A routing set holds each of its members once. */
  lemma {:induction false} OccursOnce(items: seq<Peer>, nb: Peer)
    requires Descending(items) && nb in items
    ensures multiset(items)[nb] == 1
  {
    assert items == [items[0]] + items[1..];
    if items[0] == nb {
      forall k | 0 <= k < |items| - 1 ensures items[1..][k] != nb {
        DescendingDistinct(items, 0, k + 1);
      }
      assert nb !in multiset(items[1..]);
    } else {
      assert Descending(items[1..]) by {
        forall i, j | 0 <= i < j < |items| - 1 ensures Value(items[1..][i]) > Value(items[1..][j]) {
          assert items[1..][i] == items[i + 1] && items[1..][j] == items[j + 1];
        }
      }
      OccursOnce(items[1..], nb);
    }
  }

  /** A peer event inserts the peer before sending: every new message is a
      `NODE_ANNOUNCE` on behalf of `p` to a member of the updated set, and
      each member of that set, `p` included when the set keeps it, receives
      exactly one. */
  lemma PeerChangeAnnounces(st: NodeState, p: Peer, msg: Message, nb: Peer)
    requires st.table.Valid()
    ensures var r := PeerChange(st, p);
            r.table == st.table.Insert(p)
            && st.sent <= r.sent
            && |r.sent| == |st.sent| + r.table.Length()
            && (r.sent[msg] > st.sent[msg] ==>
                  msg.mtype == NodeAnnounce && msg.sender == p && msg.key in r.table.items)
            && (nb in r.table.items ==>
                  r.sent[Message(nb, NodeAnnounce, p)] == st.sent[Message(nb, NodeAnnounce, p)] + 1)
  {
    var items := st.table.Insert(p).items;
    FanoutCounts(items, NodeAnnounce, p, msg);
    if nb in items {
      OccursOnce(items, nb);
      FanoutCounts(items, NodeAnnounce, p, Message(nb, NodeAnnounce, p));
    }
  }

  /** The loop only ever adds messages, and the routing set stays valid. */
  lemma {:induction false} RunOnlyAdds(self: Peer, st: NodeState, events: seq<Event>)
    requires st.table.Valid()
    ensures st.sent <= Run(self, st, events).sent
  {
    if events != [] {
      RunOnlyAdds(self, st, events[..|events| - 1]);
    }
  }
}
