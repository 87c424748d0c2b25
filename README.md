# SwimComp: a SWIM membership node, modelled in Dafny

This project models `SwimComp`, the Kompics component that runs one node of a
SWIM-style gossip membership protocol. The component is an early draft and
implements only a fragment of SWIM. It periodically pings a random contact
peer and answers pings with pongs that carry its view of the membership. It
merges the views it receives in pongs. When a pong does not arrive in time, it
asks a random peer to suspect the silent one. Suspicions are kept in a map
from peer id to timeout handle. Alive gossip removes one entry from that map;
dead gossip draws a peer from the view and otherwise changes nothing.

The node is a class, `Swim.SwimComp`. It has the component's fields:
`localStateNodes`, `suspectedNodes`, `pingTimeoutId`, `pongTimeoutId`,
`receivedPings` and the contact list `bootstrapNodes`. Each Kompics handler is
a method that runs one event to completion. Everything a handler triggers on
the network or timer port is appended to an `outbox` of `Effect`s:

- a message sent;
- a timeout scheduled once or periodically, with its delay and the event it carries;
- a timeout cancelled.

Every handler's postcondition gives the node's whole new state as an update of
the old one, through the ghost function `State()`.

Modules:

- `SwimTypes` (`swim_types.dfy`): addresses, timer handles, messages, effects,
  Java's 32-bit `int`, and the three delays (3000, 2000, 10000 ms).
- `PeerSampling` (`peer_sampling.dfy`): `selectRandomPeers`, a partial
  Fisher-Yates shuffle done in place on the caller's list. `ShuffleFrom`
  specifies it.
- `KeyOrder` (`key_order.dfy`): the ascending key order in which a `TreeMap`
  is iterated.
- `LocalView` (`local_view.dfy`): the keep-existing merge used by
  `updateLocalState`, and `getLocalState`.
- `Swim` (`swim_comp.dfy`): the node and its handlers, plus three methods that
  show what repeated events do.

Behaviour the model keeps exactly as the code has it:

- `pongHandler` cancels whichever pong timeout is pending. It does not check
  that the pong answers that ping. It merges the pong's view but does not
  record the sender.
- `pongTimeoutHandler` leaves `pongTimeoutId` set. The peer it tells about the
  suspicion is drawn from the whole view, so it may be the silent peer itself
  or this node.
- `netAliveHandler` removes the suspicion but does not cancel its timeout.
- `suspectTimeoutHandler` does not check `suspectedNodes`. So a peer declared
  alive in the meantime is still reported dead when the timeout fires.
- `handlePingTimeout` with an empty contact list draws null and then
  dereferences it. The model reports this as `npe`, after `pingTimeoutId` has
  been updated as in the code.

## Model

| member | source | states |
|---|---|---|
| `SwimTypes.WrappingIncrement` | src/main/java/se/kth/swim/SwimComp.java:114 | `receivedPings++` on a Java `int`: the result is congruent to the old value plus one modulo 2^32; below the maximum it is exactly the old value plus one |
| `PeerSampling.Swap` | src/main/java/se/kth/swim/SwimComp.java:234 | `Collections.swap`: positions i and j exchange their elements, every other position keeps its element |
| `PeerSampling.SwapPermutes` | src/main/java/se/kth/swim/SwimComp.java:234 | a swap keeps the multiset of elements |
| `PeerSampling.ShufflePermutes` | src/main/java/se/kth/swim/SwimComp.java:233-235 | the shuffle loop keeps the list's length and is a permutation of it: every iteration swaps index i with a drawn index in [0, i] |
| `PeerSampling.SingleDrawPicks` | src/main/java/se/kth/swim/SwimComp.java:233-238 | with one peer required, the shuffle is one swap of the last index with the drawn index, and the last element afterwards is the element at the drawn index |
| `PeerSampling.SwapInPlace` | src/main/java/se/kth/swim/SwimComp.java:234 | swapping in place leaves the array equal to `Swap` of its old contents |
| `PeerSampling.ShuffleTail` | src/main/java/se/kth/swim/SwimComp.java:233-234 | the counting-down loop leaves the list equal to the specified shuffle of its old contents |
| `PeerSampling.SelectRandomPeers` | src/main/java/se/kth/swim/SwimComp.java:229-240 | null exactly when the list is shorter than the count or the count is 0; a short list is left untouched; otherwise the list becomes the specified shuffle of itself (a permutation), and the result is its last element, which was in the original list |
| `PeerSampling.SelectOnePeer` | src/main/java/se/kth/swim/SwimComp.java:241-244 | `selectPeers(list, 1)`: null exactly for an empty list; otherwise the element at the drawn position, with the caller's list left with its last and drawn positions swapped |
| `KeyOrder.LeastExists` | src/main/java/se/kth/swim/SwimComp.java:49-50 | every non-empty set of integer keys has a least key, the first one a `TreeMap` yields |
| `KeyOrder.LeastKey` | src/main/java/se/kth/swim/SwimComp.java:49-50 | the key returned is in the set and no key of the set is smaller |
| `KeyOrder.SortedKeys` | src/main/java/se/kth/swim/SwimComp.java:171 | the iteration order of a `TreeMap`'s `keySet()`: every key exactly once, nothing else, strictly ascending |
| `KeyOrder.IndexOf` | src/main/java/se/kth/swim/SwimComp.java:247-250 | locating an address in the list `getLocalState` builds: a key present in the ascending key list is found at a position that holds it |
| `LocalView.MergeKeepsAndAdopts` | src/main/java/se/kth/swim/SwimComp.java:219-224 | the merge never removes a key and never changes the value of a key already present; every absent incoming key maps to the incoming value; the key set is the union |
| `LocalView.MergeIsLocalBiasedUnion` | src/main/java/se/kth/swim/SwimComp.java:222 | the merge equals the map union in which local entries win over incoming ones |
| `LocalView.MergeIdempotent` | src/main/java/se/kth/swim/SwimComp.java:222 | merging the same view twice gives the same view as merging it once |
| `LocalView.MergePreservesKeyed` | src/main/java/se/kth/swim/SwimComp.java:115 | if every key of both views is the id of its address, as `put(peer.getId(), peer)` leaves it, the merged view keeps that property |
| `LocalView.MergeStep` | src/main/java/se/kth/swim/SwimComp.java:222 | one `Map.merge(k, v, (a, b) -> a)` with a new key extends the keep-existing merge by that entry |
| `LocalView.MergedPrefixStep` | src/main/java/se/kth/swim/SwimComp.java:222 | walking distinct keys, each step of `forEach` takes in exactly one entry not taken in before |
| `LocalView.MergedPrefixAll` | src/main/java/se/kth/swim/SwimComp.java:222 | walking all keys of the peer's view in ascending order takes in the whole view |
| `LocalView.MergeInto` | src/main/java/se/kth/swim/SwimComp.java:222 | the `forEach`/`merge` loop yields the keep-existing merge of the peer's view into the local one |
| `LocalView.GetLocalState` | src/main/java/se/kth/swim/SwimComp.java:247-250 | the list has one entry per key of the view, and every entry is an address of the view |
| `LocalView.GetLocalStateCovers` | src/main/java/se/kth/swim/SwimComp.java:247-250 | every address of the view occurs in the list |
| `LocalView.GetLocalStateAscending` | src/main/java/se/kth/swim/SwimComp.java:247-250 | for a view keyed by id, the list gives the addresses by strictly ascending id, the `TreeMap` order |
| `Swim.SwimComp.constructor` | src/main/java/se/kth/swim/SwimComp.java:47-60 | a new node keeps its address and contact list, has empty maps, no timer handles and no pings received; it satisfies the handle invariant `Valid` |
| `Swim.CounterIsUnused` | src/main/java/se/kth/swim/SwimComp.java:256-273 | while every handle in use lies below the counter, the counter's value (and any value above it) is neither held in `pingTimeoutId`, `pongTimeoutId` or `suspectedNodes`, nor named by any scheduled or cancelled timeout: each new timeout's UUID is distinct from all others |
| `Swim.SwimComp.NewTimeoutId` | src/main/java/se/kth/swim/SwimComp.java:263-265 | a newly created timeout gets the counter's value, which is `Unused` (no held, scheduled or cancelled handle equals it); the counter advances, nothing else changes, and `Valid` is kept |
| `Swim.SwimComp.HandleStart` | src/main/java/se/kth/swim/SwimComp.java:82-93 | with no contact peer nothing happens; otherwise one periodic 3000/3000 ms ping timeout is scheduled and its handle becomes `pingTimeoutId` |
| `Swim.SwimComp.HandleStop` | src/main/java/se/kth/swim/SwimComp.java:94-104 | afterwards no ping handle is held; one cancel of the held handle is emitted if there was one, and nothing otherwise |
| `Swim.SwimComp.HandlePing` | src/main/java/se/kth/swim/SwimComp.java:109-118 | `receivedPings` goes up by one (32-bit); the pinger's id maps to the pinger, overwriting any old value; exactly one pong goes to the pinger with the ping's timeout id and the updated view; nothing else changes; a view keyed by id stays keyed by id |
| `Swim.SwimComp.PongHandler` | src/main/java/se/kth/swim/SwimComp.java:121-130 | a pong with a timeout id clears the pending pong handle and emits its cancel if one was pending; the pong's view is merged keeping existing values; nothing else changes; a keyed view merged with a keyed pong view stays keyed |
| `Swim.SwimComp.SuspectHandler` | src/main/java/se/kth/swim/SwimComp.java:155-168 | a suspicion of self sends one `NetAlive` about self to the gossiper and leaves `suspectedNodes` alone; an id already suspected changes nothing; otherwise the id maps to a new handle and one 10000 ms suspicion timeout is scheduled |
| `Swim.SwimComp.FindPeer` | src/main/java/se/kth/swim/SwimComp.java:169-178 | true exactly when the peer's id is a key of `suspectedNodes` |
| `Swim.SwimComp.NetAliveHandler` | src/main/java/se/kth/swim/SwimComp.java:192-202 | exactly the alive peer's id leaves `suspectedNodes`; every other suspicion, the view and everything else stay unchanged |
| `Swim.SwimComp.DeclareDeadHandler` | src/main/java/se/kth/swim/SwimComp.java:204-215 | a random peer is drawn from a copy of the view and discarded: the node's state does not change |
| `Swim.SwimComp.UpdateLocalState` | src/main/java/se/kth/swim/SwimComp.java:219-224 | the view becomes the keep-existing merge of the peer's view into the old one; nothing else changes; keyed views give a keyed view |
| `Swim.SwimComp.HandlePingTimeout` | src/main/java/se/kth/swim/SwimComp.java:132-142 | the contact list is shuffled in place (last and drawn positions swapped) and the drawn peer is recorded in the view, pinged with the firing timeout's id and given a 2000 ms pong timeout, whose handle becomes `pongTimeoutId`; with no contact peer the handler fails after storing the timeout id. The firing handle must have been issued; the pong handle then differs from the ping handle and is `Unused` in the old state; a keyed view stays keyed |
| `Swim.SwimComp.PongTimeoutHandler` | src/main/java/se/kth/swim/SwimComp.java:143-154 | with an empty view nothing happens; otherwise one `NetSuspect` about the silent peer goes to the view's peer at the drawn position, and nothing else changes |
| `Swim.SwimComp.SuspectTimeoutHandler` | src/main/java/se/kth/swim/SwimComp.java:179-190 | with an empty view nothing happens; otherwise one `NetDead` about the peer goes to the view's peer at the drawn position; the peer stays suspected |
| `Swim.SwimComp.DrawFromView` | src/main/java/se/kth/swim/SwimComp.java:146-149 | `selectPeers(getLocalState(...), 1)`: none exactly when the view is empty, otherwise the view's address at the drawn position of the key-ordered list; in a view keyed by id the drawn address is stored under its own id |
| `Swim.SwimComp.SchedulePeriodicPing` | src/main/java/se/kth/swim/SwimComp.java:254-260 | one periodic 3000/3000 ms ping timeout with a fresh handle, which becomes `pingTimeoutId` |
| `Swim.SwimComp.SchedulePongTimeout` | src/main/java/se/kth/swim/SwimComp.java:261-267 | one 2000 ms pong timeout for the peer with a fresh handle, which becomes `pongTimeoutId` |
| `Swim.SwimComp.ScheduleSuspectTimeout` | src/main/java/se/kth/swim/SwimComp.java:268-274 | one 10000 ms suspicion timeout for the peer with a fresh handle, stored under the peer's id in `suspectedNodes` |
| `Swim.SwimComp.CancelPeriodicPing` | src/main/java/se/kth/swim/SwimComp.java:276-280 | one cancel of whatever `pingTimeoutId` held, unchecked, then the handle is cleared |
| `Swim.SwimComp.CancelPongTimeout` | src/main/java/se/kth/swim/SwimComp.java:281-287 | if a pong handle is held, one cancel of it and the handle is cleared; otherwise nothing; afterwards no pong handle is held |
| `Swim.CancelPongTimeoutTwice` | src/main/java/se/kth/swim/SwimComp.java:281-287 | two cancellations in a row emit at most one cancel, for the handle held before the first |
| `Swim.HandleStopTwice` | src/main/java/se/kth/swim/SwimComp.java:99-101 | two stops in a row cancel the periodic ping at most once |
| `Swim.SuspectTwice` | src/main/java/se/kth/swim/SwimComp.java:163-165 | the same peer suspected twice gets one suspicion entry and at most one effect |

## Left out

- Kompics wiring is not modelled: the port declarations, the `subscribe` calls, the `Handler` objects and the `SwimInit` record. Each handler is a method; `trigger` appends to the outbox.
- Logging (`log.info`) has no effect on the protocol and is left out.
- Randomness: `ThreadLocalRandom` and the `Random` passed to `selectRandomPeers` are replaced by the values they yield. These are the `oracle` sequence and the `draw` parameter, required to lie in `[0, i]` as `nextInt(i + 1)` promises.
- Timer ids: the UUIDs created by the Kompics `Timeout` constructors are modelled as numbers from a counter, `nextTimeoutId`. Real-time timer behaviour is left out; delays appear only as numbers in the effects. Every handler that changes the node requires and keeps `Valid`: each handle in use lies below the counter. The timer service is trusted to fire only timeouts the node scheduled, so `HandlePingTimeout` requires the firing handle to lie below the counter.
- External types: `NatedAddress` is reduced to an id plus one opaque value. The classes in `se.kth.swim.msg.net` are reduced to the fields the handlers read and write (`NetMsg`). They and the timer service are not part of this model.
- The pong carries a reference to the sender's live `localStateNodes` map. The model sends a copy of its value at sending time, so later changes on the sender are not seen through the message.
- `SelectRandomPeers`: the count is a `nat`. A negative count, for which the Java code throws when it takes the sub-list, is not modelled; every caller passes 1.
- Exceptions other than the null dereference in `handlePingTimeout` are not modelled. That includes the `NullPointerException` that `Map.merge` throws on a null value in a received view.
- `SuspectHandler`: line 161 compares the suspect with the node's own address by reference (`==`). Object identity is not modelled, so the model compares addresses by value. An equal address held in a different object therefore takes the alive-reply branch here, where the Java code goes on to `findPeer` and may schedule a suspicion timeout.
- This component has no incarnation numbers, no DEAD records, no indirect probing and no per-rule status merge. None of these is modelled.
