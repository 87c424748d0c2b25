/** The SWIM membership node: the state it keeps and the handler it runs for
    each network message and timer event, one event at a time. Sending a
    message or asking the timer service for something is recorded by
    appending an `Effect` to the node's outbox. */
module Swim {
  import opened SwimTypes
  import opened PeerSampling
  import opened KeyOrder
  import opened LocalView

  /** Everything a handler may change, gathered in one value. */
  datatype NodeState = NodeState(
    localStateNodes: map<int, Address>,
    suspectedNodes: map<int, TimeoutId>,
    pingTimeoutId: Option<TimeoutId>,
    pongTimeoutId: Option<TimeoutId>,
    receivedPings: int32,
    nextTimeoutId: TimeoutId,
    outbox: seq<Effect>)

  /** The timer handle an effect names, if any. Messages carry no handle of
      the node's own timer service. */
  function EffectHandle(e: Effect): (h: Option<TimeoutId>)
    ensures h == None <==> e.Send? || e == CancelTimeout(None)
  {
    match e
    case Send(_) => None
    case SchedulePeriodic(_, _, id, _) => Some(id)
    case ScheduleOnce(_, id, _) => Some(id)
    case CancelTimeout(handle) => handle
  }

  /** Every handle the node holds, or has scheduled or cancelled, was issued
      before: it lies below the counter. */
  ghost predicate HandlesIssued(s: NodeState)
  {
    && (s.pingTimeoutId != None ==> s.pingTimeoutId.value < s.nextTimeoutId)
    && (s.pongTimeoutId != None ==> s.pongTimeoutId.value < s.nextTimeoutId)
    && (forall k :: k in s.suspectedNodes ==> s.suspectedNodes[k] < s.nextTimeoutId)
    && (forall i :: 0 <= i < |s.outbox| ==>
          EffectHandle(s.outbox[i]) != None ==> EffectHandle(s.outbox[i]).value < s.nextTimeoutId)
  }

  /** `id` is not a handle the node holds, nor one it has scheduled or
      cancelled. */
  ghost predicate Unused(s: NodeState, id: TimeoutId)
  {
    && s.pingTimeoutId != Some(id)
    && s.pongTimeoutId != Some(id)
    && (forall k :: k in s.suspectedNodes ==> s.suspectedNodes[k] != id)
    && forall i :: 0 <= i < |s.outbox| ==> EffectHandle(s.outbox[i]) != Some(id)
  }

  /** While every handle in use was issued, the counter's value is a handle
      not in use, and so is every value above it. */
  lemma CounterIsUnused(s: NodeState, id: TimeoutId)
    requires HandlesIssued(s) && s.nextTimeoutId <= id
    ensures Unused(s, id)
  {
  }

  class SwimComp {
    const selfAddress: Address
    /** The contact peers; shuffled in place when a ping peer is drawn. */
    const bootstrapNodes: array<Address>
    /** Known peers, by id. */
    var localStateNodes: map<int, Address>
    /** Suspected peers, by id, with the handle of their suspicion timeout. */
    var suspectedNodes: map<int, TimeoutId>
    var pingTimeoutId: Option<TimeoutId>
    var pongTimeoutId: Option<TimeoutId>
    var receivedPings: int32
    /** Where fresh timeout handles come from (UUIDs in the timer service). */
    var nextTimeoutId: TimeoutId
    /** Everything triggered on the network and timer ports so far. */
    var outbox: seq<Effect>

    ghost function State(): NodeState
      reads this
    {
      NodeState(localStateNodes, suspectedNodes, pingTimeoutId, pongTimeoutId,
                receivedPings, nextTimeoutId, outbox)
    }

    /** The node's invariant: every handle in use was issued by the counter. */
    ghost predicate Valid()
      reads this
    {
      HandlesIssued(State())
    }

    /** A new node: empty maps, no timers, no pings received. */
    constructor (selfAddress: Address, bootstrapNodes: array<Address>)
      ensures this.selfAddress == selfAddress && this.bootstrapNodes == bootstrapNodes
      ensures State() == NodeState(map[], map[], None, None, 0, 0, [])
      ensures Valid()
    {
      this.selfAddress := selfAddress;
      this.bootstrapNodes := bootstrapNodes;
      localStateNodes := map[];
      suspectedNodes := map[];
      pingTimeoutId := None;
      pongTimeoutId := None;
      receivedPings := 0;
      nextTimeoutId := 0;
      outbox := [];
    }

    /** The handle a newly created timeout gets: the counter's value, which
        no held, scheduled or cancelled handle equals; the counter advances. */
    method NewTimeoutId() returns (id: TimeoutId)
      requires Valid()
      modifies this
      ensures id == old(nextTimeoutId)
      ensures Unused(old(State()), id)
      ensures State() == old(State()).(nextTimeoutId := id + 1)
      ensures Valid()
    {
      CounterIsUnused(State(), nextTimeoutId);
      id := nextTimeoutId;
      nextTimeoutId := nextTimeoutId + 1;
    }

    //------------------------------------------------------------------------
    // Lifecycle
    //------------------------------------------------------------------------

    /** `handleStart`: starts pinging periodically, but only when there is a
        contact peer to ping. */
    method HandleStart()
      requires Valid()
      modifies this
      ensures Valid()
      ensures bootstrapNodes.Length == 0 ==> State() == old(State())
      ensures bootstrapNodes.Length > 0 ==> State() == old(State()).(
        pingTimeoutId := Some(old(nextTimeoutId)),
        nextTimeoutId := old(nextTimeoutId) + 1,
        outbox := old(outbox) + [SchedulePeriodic(PING_PERIOD, PING_PERIOD, old(nextTimeoutId), PingTimeout)])
    {
      if bootstrapNodes.Length > 0 {
        SchedulePeriodicPing();
      }
    }

    /** `handleStop`: cancels the periodic ping when one is scheduled; with no
        ping scheduled nothing happens, so stopping twice cancels once. */
    method HandleStop()
      requires Valid()
      modifies this
      ensures Valid()
      ensures pingTimeoutId == None
      ensures old(pingTimeoutId) == None ==> State() == old(State())
      ensures old(pingTimeoutId) != None ==> State() == old(State()).(
        pingTimeoutId := None,
        outbox := old(outbox) + [CancelTimeout(old(pingTimeoutId))])
    {
      if pingTimeoutId != None {
        CancelPeriodicPing();
      }
    }

    //------------------------------------------------------------------------
    // Network handlers
    //------------------------------------------------------------------------

    /** `handlePing`: counts the ping, records the pinger under its id
        (replacing any address held for that id) and answers with one pong
        that returns the ping's timeout id and carries the updated view. */
    method HandlePing(ping: NetMsg)
      requires ping.NetPing?
      requires Valid()
      modifies this
      ensures Valid()
      ensures Keyed(old(localStateNodes)) ==> Keyed(localStateNodes)
      ensures State() == old(State()).(
        receivedPings := WrappingIncrement(old(receivedPings)),
        localStateNodes := old(localStateNodes)[ping.src.id := ping.src],
        outbox := old(outbox) + [Send(NetPong(selfAddress, ping.src, ping.pingTimeoutId,
                                              old(localStateNodes)[ping.src.id := ping.src]))])
    {
      var pingerPeer := ping.src;
      receivedPings := WrappingIncrement(receivedPings);
      localStateNodes := localStateNodes[pingerPeer.id := pingerPeer];
      outbox := outbox + [Send(NetPong(selfAddress, pingerPeer, ping.pingTimeoutId, localStateNodes))];
    }

    /** `pongHandler`: a pong that carries a timeout id cancels the node's own
        pending pong timeout, whichever ping it answers; then the pong's view
        is merged into the local one. The sender itself is not recorded. */
    method PongHandler(pong: NetMsg)
      requires pong.NetPong?
      requires Valid()
      modifies this
      ensures Valid()
      ensures Keyed(old(localStateNodes)) && Keyed(pong.peers) ==> Keyed(localStateNodes)
      ensures State() == old(State()).(
        localStateNodes := KeepExisting(old(localStateNodes), pong.peers),
        pongTimeoutId := if pong.pongTimeoutId != None then None else old(pongTimeoutId),
        outbox := old(outbox) + if pong.pongTimeoutId != None && old(pongTimeoutId) != None
                                then [CancelTimeout(old(pongTimeoutId))] else [])
    {
      if pong.pongTimeoutId != None {
        CancelPongTimeout(pong.pongTimeoutId.value, pong.src);
      }
      UpdateLocalState(pong.src.id, pong.src, pong.peers);
    }

    /** `suspectHandler`: a node told that it is itself suspected answers the
        gossiper with one `NetAlive` about itself; a peer not yet suspected
        becomes suspected under a new 10000 ms suspicion timeout; a peer
        already suspected changes nothing, so no second timer is started.
        "Itself" is decided by comparing address values, where the Java code
        compares references. */
    method SuspectHandler(gossip: NetMsg)
      requires gossip.NetSuspect?
      requires Valid()
      modifies this
      ensures Valid()
      ensures gossip.suspectedPeer == selfAddress ==> State() == old(State()).(
        outbox := old(outbox) + [Send(NetAlive(selfAddress, gossip.src, selfAddress))])
      ensures gossip.suspectedPeer != selfAddress && gossip.suspectedPeer.id in old(suspectedNodes) ==>
        State() == old(State())
      ensures gossip.suspectedPeer != selfAddress && gossip.suspectedPeer.id !in old(suspectedNodes) ==>
        State() == old(State()).(
          suspectedNodes := old(suspectedNodes)[gossip.suspectedPeer.id := old(nextTimeoutId)],
          nextTimeoutId := old(nextTimeoutId) + 1,
          outbox := old(outbox) + [ScheduleOnce(SUSPECT_TIMEOUT, old(nextTimeoutId), SuspectTimeout(gossip.suspectedPeer))])
    {
      var suspect := gossip.suspectedPeer;
      if suspect == selfAddress {
        outbox := outbox + [Send(NetAlive(selfAddress, gossip.src, selfAddress))];
      } else {
        var available := FindPeer(suspect);
        if !available {
          ScheduleSuspectTimeout(suspect);
        }
      }
    }

    /** `findPeer`: whether the peer's id is among the suspected ids, found by
        walking the suspected ids in ascending order. */
    method FindPeer(peer: Address) returns (available: bool)
      ensures available <==> peer.id in suspectedNodes
    {
      available := false;
      var keys := SortedKeys(suspectedNodes.Keys);
      for n := 0 to |keys|
        invariant available <==> peer.id in keys[..n]
      {
        if keys[n] == peer.id {
          available := true;
        }
      }
      assert keys[..|keys|] == keys;
    }

    /** `netAliveHandler`: the alive peer's id is no longer suspected; every
        other suspicion and the view stay as they are. Its suspicion timeout
        is not cancelled. */
    method NetAliveHandler(gossip: NetMsg)
      requires gossip.NetAlive?
      requires Valid()
      modifies this
      ensures Valid()
      ensures State() == old(State()).(suspectedNodes := old(suspectedNodes) - {gossip.alivePeer.id})
      ensures gossip.alivePeer.id !in suspectedNodes
      ensures forall id :: id in old(suspectedNodes) && id != gossip.alivePeer.id ==>
                id in suspectedNodes && suspectedNodes[id] == old(suspectedNodes)[id]
    {
      suspectedNodes := suspectedNodes - {gossip.alivePeer.id};
    }

    /** `declareDeadHandler`: draws a random peer from a copy of the view and
        does nothing with it; the node's state is left as it was. */
    method DeclareDeadHandler(gossip: NetMsg, draw: nat)
      requires gossip.NetDead?
      requires |localStateNodes| > 0 ==> draw < |localStateNodes|
      ensures State() == old(State())
    {
      var localview := GetLocalState(localStateNodes);
      var peers := new Address[|localview|](i requires 0 <= i < |localview| => localview[i]);
      var randompeer := SelectOnePeer(peers, draw);
    }

    /** `updateLocalState`: merges a peer's view into the local one, entry by
        entry in ascending key order, with `Map.merge(k, v, (a, b) -> a)`:
        keys already known keep their address, unknown keys are adopted. The
        sender's id and address are not used. */
    method UpdateLocalState(peerId: int, newlyJoinedPeer: Address, peers: map<int, Address>)
      requires Valid()
      modifies this
      ensures Valid()
      ensures Keyed(old(localStateNodes)) && Keyed(peers) ==> Keyed(localStateNodes)
      ensures State() == old(State()).(localStateNodes := KeepExisting(old(localStateNodes), peers))
    {
      localStateNodes := MergeInto(localStateNodes, peers);
    }

    //------------------------------------------------------------------------
    // Timer handlers
    //------------------------------------------------------------------------

    /** `handlePingTimeout`: draws a random contact peer (shuffling the
        contact list in place), remembers the firing timeout's id, records the
        peer in the view, pings it and starts a 2000 ms pong timeout. With no
        contact peer the draw yields null and the handler fails with a null
        dereference (`npe`) after remembering the timeout id. The firing
        timeout is one the node scheduled, so its handle was issued; the new
        pong timeout gets a handle different from it and from every other in
        use. */
    method HandlePingTimeout(timeoutId: TimeoutId, draw: nat) returns (npe: bool)
      requires bootstrapNodes.Length > 0 ==> draw < bootstrapNodes.Length
      requires Valid() && timeoutId < nextTimeoutId
      modifies this, bootstrapNodes
      ensures Valid()
      ensures Keyed(old(localStateNodes)) ==> Keyed(localStateNodes)
      ensures npe <==> bootstrapNodes.Length == 0
      ensures !npe ==> pongTimeoutId != None && pingTimeoutId != pongTimeoutId
      ensures !npe ==> Unused(old(State()), pongTimeoutId.value)
      ensures npe ==> State() == old(State()).(pingTimeoutId := Some(timeoutId))
      ensures !npe ==>
        var peer := old(bootstrapNodes[draw]);
        && bootstrapNodes[..] == Swap(old(bootstrapNodes[..]), bootstrapNodes.Length - 1, draw)
        && State() == old(State()).(
             pingTimeoutId := Some(timeoutId),
             localStateNodes := old(localStateNodes)[peer.id := peer],
             pongTimeoutId := Some(old(nextTimeoutId)),
             nextTimeoutId := old(nextTimeoutId) + 1,
             outbox := old(outbox) + [Send(NetPing(selfAddress, peer, Some(timeoutId))),
                                      ScheduleOnce(PONG_TIMEOUT, old(nextTimeoutId), PongTimeout(peer))])
    {
      var randomPeer := SelectOnePeer(bootstrapNodes, draw);
      pingTimeoutId := Some(timeoutId);
      if randomPeer == None {
        return true;
      }
      var peer := randomPeer.value;
      localStateNodes := localStateNodes[peer.id := peer];
      outbox := outbox + [Send(NetPing(selfAddress, peer, pingTimeoutId))];
      SchedulePongTimeout(peer);
      npe := false;
    }

    /** `pongTimeoutHandler`: tells one random peer of the view (it may be the
        silent peer itself, or this node) that the silent peer is suspected.
        With an empty view nothing is sent. The pong timeout id is kept. */
    method PongTimeoutHandler(silentPeer: Address, draw: nat)
      requires |localStateNodes| > 0 ==> draw < |localStateNodes|
      requires Valid()
      modifies this
      ensures Valid()
      ensures |old(localStateNodes)| == 0 ==> State() == old(State())
      ensures |old(localStateNodes)| > 0 ==>
        State() == old(State()).(outbox := old(outbox) +
          [Send(NetSuspect(selfAddress, GetLocalState(old(localStateNodes))[draw], silentPeer))])
    {
      var randompeer := DrawFromView(draw);
      if randompeer != None {
        outbox := outbox + [Send(NetSuspect(selfAddress, randompeer.value, silentPeer))];
      }
    }

    /** `suspectTimeoutHandler`: tells one random peer of the view that the
        suspected peer is dead. With an empty view nothing is sent. The peer
        stays in `suspectedNodes`, even when it was declared alive meanwhile. */
    method SuspectTimeoutHandler(deadPeer: Address, draw: nat)
      requires |localStateNodes| > 0 ==> draw < |localStateNodes|
      requires Valid()
      modifies this
      ensures Valid()
      ensures |old(localStateNodes)| == 0 ==> State() == old(State())
      ensures |old(localStateNodes)| > 0 ==>
        State() == old(State()).(outbox := old(outbox) +
          [Send(NetDead(selfAddress, GetLocalState(old(localStateNodes))[draw], deadPeer))])
    {
      var randompeer := DrawFromView(draw);
      if randompeer != None {
        outbox := outbox + [Send(NetDead(selfAddress, randompeer.value, deadPeer))];
      }
    }

    /** `selectPeers(getLocalState(localStateNodes), 1)`: copies the view into
        a new list and draws one peer from it; none from an empty view,
        otherwise the peer at the drawn position of the list. */
    method DrawFromView(draw: nat) returns (randompeer: Option<Address>)
      requires |localStateNodes| > 0 ==> draw < |localStateNodes|
      ensures randompeer == None <==> |localStateNodes| == 0
      ensures randompeer != None ==>
        randompeer.value == GetLocalState(localStateNodes)[draw] && randompeer.value in localStateNodes.Values
      ensures randompeer != None && Keyed(localStateNodes) ==>
        randompeer.value.id in localStateNodes && localStateNodes[randompeer.value.id] == randompeer.value
    {
      var localview := GetLocalState(localStateNodes);
      var peers := new Address[|localview|](i requires 0 <= i < |localview| => localview[i]);
      assert peers[..] == localview;
      randompeer := SelectOnePeer(peers, draw);
    }

    //------------------------------------------------------------------------
    // Timeout schedulers
    //------------------------------------------------------------------------

    /** `schedulePeriodicPing`: a ping timeout every 3000 ms, first after
        3000 ms, whose handle becomes `pingTimeoutId`. */
    method SchedulePeriodicPing()
      requires Valid()
      modifies this
      ensures Valid()
      ensures State() == old(State()).(
        pingTimeoutId := Some(old(nextTimeoutId)),
        nextTimeoutId := old(nextTimeoutId) + 1,
        outbox := old(outbox) + [SchedulePeriodic(PING_PERIOD, PING_PERIOD, old(nextTimeoutId), PingTimeout)])
    {
      var id := NewTimeoutId();
      pingTimeoutId := Some(id);
      outbox := outbox + [SchedulePeriodic(PING_PERIOD, PING_PERIOD, id, PingTimeout)];
    }

    /** `schedulePongTimeout`: a 2000 ms timeout for the pinged peer, whose
        handle becomes `pongTimeoutId`. */
    method SchedulePongTimeout(randomPeer: Address)
      requires Valid()
      modifies this
      ensures Valid()
      ensures State() == old(State()).(
        pongTimeoutId := Some(old(nextTimeoutId)),
        nextTimeoutId := old(nextTimeoutId) + 1,
        outbox := old(outbox) + [ScheduleOnce(PONG_TIMEOUT, old(nextTimeoutId), PongTimeout(randomPeer))])
    {
      var id := NewTimeoutId();
      pongTimeoutId := Some(id);
      outbox := outbox + [ScheduleOnce(PONG_TIMEOUT, id, PongTimeout(randomPeer))];
    }

    /** `scheduleSuspectTimeout`: a 10000 ms timeout for the suspected peer,
        whose handle is stored under the peer's id in `suspectedNodes`. */
    method ScheduleSuspectTimeout(suspectedPeer: Address)
      requires Valid()
      modifies this
      ensures Valid()
      ensures State() == old(State()).(
        suspectedNodes := old(suspectedNodes)[suspectedPeer.id := old(nextTimeoutId)],
        nextTimeoutId := old(nextTimeoutId) + 1,
        outbox := old(outbox) + [ScheduleOnce(SUSPECT_TIMEOUT, old(nextTimeoutId), SuspectTimeout(suspectedPeer))])
    {
      var id := NewTimeoutId();
      suspectedNodes := suspectedNodes[suspectedPeer.id := id];
      outbox := outbox + [ScheduleOnce(SUSPECT_TIMEOUT, id, SuspectTimeout(suspectedPeer))];
    }

    /** `cancelPeriodicPing`: cancels whatever `pingTimeoutId` holds, without
        checking it, and clears it. */
    method CancelPeriodicPing()
      requires Valid()
      modifies this
      ensures Valid()
      ensures State() == old(State()).(
        pingTimeoutId := None,
        outbox := old(outbox) + [CancelTimeout(old(pingTimeoutId))])
    {
      outbox := outbox + [CancelTimeout(pingTimeoutId)];
      pingTimeoutId := None;
    }

    /** `cancelPongTimeout`: cancels the pending pong timeout and clears it,
        only when one is pending; its arguments are not looked at. A second
        call in a row emits nothing. */
    method CancelPongTimeout(timeoutId: TimeoutId, source: Address)
      requires Valid()
      modifies this
      ensures Valid()
      ensures pongTimeoutId == None
      ensures old(pongTimeoutId) == None ==> State() == old(State())
      ensures old(pongTimeoutId) != None ==> State() == old(State()).(
        pongTimeoutId := None,
        outbox := old(outbox) + [CancelTimeout(old(pongTimeoutId))])
    {
      if pongTimeoutId != None {
        outbox := outbox + [CancelTimeout(pongTimeoutId)];
        pongTimeoutId := None;
      }
    }
  }

  //--------------------------------------------------------------------------
  // Repeated events
  //--------------------------------------------------------------------------

  /** Two pong-timeout cancellations in a row emit at most one cancel, for the
      handle pending before the first. */
  method CancelPongTimeoutTwice(node: SwimComp, timeoutId: TimeoutId, source: Address)
    requires node.Valid()
    modifies node
    ensures node.pongTimeoutId == None
    ensures node.outbox == old(node.outbox) +
      if old(node.pongTimeoutId) != None then [CancelTimeout(old(node.pongTimeoutId))] else []
  {
    node.CancelPongTimeout(timeoutId, source);
    node.CancelPongTimeout(timeoutId, source);
  }

  /** Two stops in a row cancel the periodic ping at most once. */
  method HandleStopTwice(node: SwimComp)
    requires node.Valid()
    modifies node
    ensures node.pingTimeoutId == None
    ensures node.outbox == old(node.outbox) +
      if old(node.pingTimeoutId) != None then [CancelTimeout(old(node.pingTimeoutId))] else []
  {
    node.HandleStop();
    node.HandleStop();
  }

  /** The same peer suspected twice, by the same or different gossipers, gets
      one suspicion entry and one suspicion timeout; the second message changes
      nothing. */
  method SuspectTwice(node: SwimComp, gossip: NetMsg, again: NetMsg)
    requires gossip.NetSuspect? && again.NetSuspect?
    requires again.suspectedPeer == gossip.suspectedPeer != node.selfAddress
    requires node.Valid()
    modifies node
    ensures gossip.suspectedPeer.id in node.suspectedNodes
    ensures node.suspectedNodes.Keys == old(node.suspectedNodes).Keys + {gossip.suspectedPeer.id}
    ensures |node.outbox| <= |old(node.outbox)| + 1
  {
    node.SuspectHandler(gossip);
    node.SuspectHandler(again);
  }
}
