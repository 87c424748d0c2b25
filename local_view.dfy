/** The node's local view: the map from peer id to address, how a peer's view
    is merged into it, and the list of its addresses in ascending id order (the
    iteration order of the Java TreeMap). */
module LocalView {
  import opened SwimTypes
  import opened KeyOrder

  /** Java's `Map.merge(k, v, (a, b) -> a)`: adopt v only when k is absent. */
  function MergeEntry(m: map<int, Address>, k: int, v: Address): map<int, Address>
  {
    if k in m then m else m[k := v]
  }

  /** The view after merging `incoming` into `local` entry by entry, keeping
      the existing value on every key already present. */
  function KeepExisting(local: map<int, Address>, incoming: map<int, Address>): map<int, Address>
  {
    map k | k in local.Keys + incoming.Keys :: if k in local then local[k] else incoming[k]
  }

  /** Merging never removes a key and never changes the value of a key already
      present; every incoming key that was absent now maps to the incoming
      value; and nothing else is added. */
  lemma MergeKeepsAndAdopts(local: map<int, Address>, incoming: map<int, Address>)
    ensures KeepExisting(local, incoming).Keys == local.Keys + incoming.Keys
    ensures forall k :: k in local ==> KeepExisting(local, incoming)[k] == local[k]
    ensures forall k :: k in incoming && k !in local ==> KeepExisting(local, incoming)[k] == incoming[k]
  {
  }

  /** The merge is the map union in which local entries win. */
  lemma MergeIsLocalBiasedUnion(local: map<int, Address>, incoming: map<int, Address>)
    ensures KeepExisting(local, incoming) == incoming + local
  {
  }

  /** Merging the same view twice equals merging it once. */
  lemma MergeIdempotent(local: map<int, Address>, incoming: map<int, Address>)
    ensures KeepExisting(KeepExisting(local, incoming), incoming) == KeepExisting(local, incoming)
  {
  }

  /** Every key of the view is the id of the address stored under it, as
      holds for a view built only by `put(peer.getId(), peer)`. */
  predicate Keyed(m: map<int, Address>)
  {
    forall k :: k in m ==> m[k].id == k
  }

  /** Merging a keyed peer view into a keyed local view gives a keyed view. */
  lemma MergePreservesKeyed(local: map<int, Address>, incoming: map<int, Address>)
    requires Keyed(local) && Keyed(incoming)
    ensures Keyed(KeepExisting(local, incoming))
  {
  }

  /** One `Map.merge` call extends the merge by one more incoming entry. */
  lemma MergeStep(local: map<int, Address>, done: map<int, Address>, k: int, v: Address)
    requires k !in done
    ensures MergeEntry(KeepExisting(local, done), k, v) == KeepExisting(local, done[k := v])
  {
  }

  /** The entries of `peers` whose keys are among the first n of `keys`:
      what a merge walking `keys` in order has taken in after n steps. */
  ghost function MergedPrefix(peers: map<int, Address>, keys: seq<int>, n: nat): map<int, Address>
    requires n <= |keys|
  {
    map k | k in peers && k in keys[..n] :: peers[k]
  }

  /** Walking distinct keys of `peers`, the next step takes in one new entry. */
  lemma MergedPrefixStep(peers: map<int, Address>, keys: seq<int>, n: nat)
    requires n < |keys| && Ascending(keys) && keys[n] in peers
    ensures keys[n] !in MergedPrefix(peers, keys, n)
    ensures MergedPrefix(peers, keys, n + 1) == MergedPrefix(peers, keys, n)[keys[n] := peers[keys[n]]]
  {
    assert keys[..n + 1] == keys[..n] + [keys[n]];
  }

  /** Walking all of `peers`'s keys in ascending order takes in all of `peers`. */
  lemma MergedPrefixAll(peers: map<int, Address>)
    ensures MergedPrefix(peers, SortedKeys(peers.Keys), |peers.Keys|) == peers
  {
    var keys := SortedKeys(peers.Keys);
    assert keys[..|keys|] == keys;
  }

  /** The loop of `updateLocalState`: `Map.merge(k, v, (a, b) -> a)` for each
      entry of `peers`, in ascending key order. The result is the merge of
      `peers` into `local` that keeps existing values. */
  method MergeInto(local: map<int, Address>, peers: map<int, Address>) returns (view: map<int, Address>)
    ensures view == KeepExisting(local, peers)
  {
    var keys := SortedKeys(peers.Keys);
    view := local;
    for n := 0 to |keys|
      invariant view == KeepExisting(local, MergedPrefix(peers, keys, n))
    {
      var k := keys[n];
      MergedPrefixStep(peers, keys, n);
      MergeStep(local, MergedPrefix(peers, keys, n), k, peers[k]);
      view := MergeEntry(view, k, peers[k]);
    }
    MergedPrefixAll(peers);
  }

  /** `getLocalState`: the view's addresses as a list, in ascending key
      order. It has one entry per key, and every entry is an address of the
      view. */
  function GetLocalState(state: map<int, Address>): (view: seq<Address>)
    ensures |view| == |state|
    ensures forall i :: 0 <= i < |view| ==> view[i] in state.Values
  {
    var ks := SortedKeys(state.Keys);
    seq(|ks|, i requires 0 <= i < |ks| => state[ks[i]])
  }

  /** Every address of the view is listed by `getLocalState`. */
  lemma GetLocalStateCovers(state: map<int, Address>, k: int)
    requires k in state
    ensures state[k] in GetLocalState(state)
  {
    var ks := SortedKeys(state.Keys);
    var i := IndexOf(ks, k);
    assert GetLocalState(state)[i] == state[k];
  }

  /** When every key is its address's id, `getLocalState` lists the addresses
      by strictly ascending id. */
  lemma GetLocalStateAscending(state: map<int, Address>)
    requires Keyed(state)
    ensures forall i, j :: 0 <= i < j < |GetLocalState(state)| ==>
              GetLocalState(state)[i].id < GetLocalState(state)[j].id
  {
  }
}
