/** Random peer sampling: a partial Fisher-Yates shuffle done in place on the
    caller's list, the random source replaced by a sequence of draws. */
module PeerSampling {
  import opened SwimTypes

  /** `oracle[k]` is what `r.nextInt(i + 1)` returns on the k-th iteration of
      the shuffle, where i = len - 1 - k; the random source promises a value in
      [0, i]. Only relevant when the list is long enough to be shuffled. */
  ghost predicate DrawsFit(len: nat, required: nat, oracle: seq<nat>)
  {
    required <= len ==> |oracle| >= required && forall k :: 0 <= k < required ==> oracle[k] < len - k
  }

  /** `Collections.swap(list, i, j)`. */
  function Swap(s: seq<Address>, i: nat, j: nat): (r: seq<Address>)
    requires i < |s| && j < |s|
    ensures |r| == |s| && r[i] == s[j] && r[j] == s[i]
    ensures forall m :: 0 <= m < |s| && m != i && m != j ==> r[m] == s[m]
  {
    s[i := s[j]][j := s[i]]
  }

  /** A swap keeps the elements of the list. */
  lemma SwapPermutes(s: seq<Address>, i: nat, j: nat)
    requires i < |s| && j < |s|
    ensures multiset(Swap(s, i, j)) == multiset(s)
  {
  }

  /** The list after the shuffle's iterations k, k + 1, ..., required - 1; the
      k-th iteration swaps index |s| - 1 - k with index oracle[k]. */
  function ShuffleFrom(s: seq<Address>, k: nat, required: nat, oracle: seq<nat>): seq<Address>
    requires k <= required <= |s| && DrawsFit(|s|, required, oracle)
    decreases required - k
  {
    if k == required then s
    else ShuffleFrom(Swap(s, |s| - 1 - k, oracle[k]), k + 1, required, oracle)
  }

  /** Every iteration only swaps two positions, so the shuffle keeps the
      list's length and rearranges its elements. */
  lemma {:induction false} ShufflePermutes(s: seq<Address>, k: nat, required: nat, oracle: seq<nat>)
    requires k <= required <= |s| && DrawsFit(|s|, required, oracle)
    ensures |ShuffleFrom(s, k, required, oracle)| == |s|
    ensures multiset(ShuffleFrom(s, k, required, oracle)) == multiset(s)
    decreases required - k
  {
    if k < required {
      SwapPermutes(s, |s| - 1 - k, oracle[k]);
      ShufflePermutes(Swap(s, |s| - 1 - k, oracle[k]), k + 1, required, oracle);
    }
  }

  /** With one peer required, the peer picked is the one at the drawn index:
      every index is reachable and nothing else decides the choice. */
  lemma SingleDrawPicks(s: seq<Address>, oracle: seq<nat>)
    requires 1 <= |s| && DrawsFit(|s|, 1, oracle)
    ensures ShuffleFrom(s, 0, 1, oracle) == Swap(s, |s| - 1, oracle[0])
    ensures ShuffleFrom(s, 0, 1, oracle)[|s| - 1] == s[oracle[0]]
  {
  }

  /** `Collections.swap` on the caller's list, in place. */
  method SwapInPlace(a: array<Address>, i: nat, j: nat)
    requires i < a.Length && j < a.Length
    modifies a
    ensures a[..] == Swap(old(a[..]), i, j)
  {
    var t := a[i];
    a[i] := a[j];
    a[j] := t;
  }

  /** The swapping loop of `selectRandomPeers`: for i from the last index down
      to len - required, swap position i with the drawn position in [0, i]. */
  method ShuffleTail(peerlist: array<Address>, required: nat, oracle: seq<nat>)
    requires required <= peerlist.Length && DrawsFit(peerlist.Length, required, oracle)
    modifies peerlist
    ensures peerlist[..] == ShuffleFrom(old(peerlist[..]), 0, required, oracle)
  {
    var len := peerlist.Length;
    ghost var original := peerlist[..];
    var i: int := len - 1;
    var k: nat := 0;  // iterations done, so that i == len - 1 - k
    while i >= len - required
      invariant k <= required && i == len - 1 - k
      invariant |peerlist[..]| == len
      invariant ShuffleFrom(peerlist[..], k, required, oracle) == ShuffleFrom(original, 0, required, oracle)
    {
      ghost var before := peerlist[..];
      SwapInPlace(peerlist, i, oracle[k]);
      assert ShuffleFrom(before, k, required, oracle) == ShuffleFrom(peerlist[..], k + 1, required, oracle);
      i, k := i - 1, k + 1;
    }
  }

  /** `selectRandomPeers`: null when fewer than `required` peers are given;
      otherwise shuffles the list's last `required` positions in place, then
      returns the last element of the list's tail of length `required`, which
      is null when `required` is 0. */
  method SelectRandomPeers(peerlist: array<Address>, required: nat, oracle: seq<nat>) returns (peer: Option<Address>)
    requires DrawsFit(peerlist.Length, required, oracle)
    modifies peerlist
    ensures peer.None? <==> peerlist.Length < required || required == 0
    ensures peerlist.Length < required ==> peerlist[..] == old(peerlist[..])
    ensures required <= peerlist.Length ==> peerlist[..] == ShuffleFrom(old(peerlist[..]), 0, required, oracle)
    ensures multiset(peerlist[..]) == multiset(old(peerlist[..]))
    ensures peer.Some? ==> peer.value == peerlist[peerlist.Length - 1] && peer.value in old(peerlist[..])
  {
    var len := peerlist.Length;
    if len < required {
      return None;
    }
    ShuffleTail(peerlist, required, oracle);
    ShufflePermutes(old(peerlist[..]), 0, required, oracle);
    // walk the sub-list [len - required, len), keeping its last element
    peer := None;
    var m := len - required;
    while m < len
      invariant len - required <= m <= len
      invariant peer == if m == len - required then None else Some(peerlist[m - 1])
    {
      peer := Some(peerlist[m]);
      m := m + 1;
    }
    if peer.Some? {
      assert peerlist[len - 1] in multiset(peerlist[..]);
    }
  }

  /** `selectPeers(list, 1)`, the only way the node samples: `draw` is the
      one value the thread-local random source yields. None from an empty list;
      otherwise the element at the drawn position, after the list's last
      element and that one have been swapped in place. */
  method SelectOnePeer(listofpeers: array<Address>, draw: nat) returns (peer: Option<Address>)
    requires listofpeers.Length > 0 ==> draw < listofpeers.Length
    modifies listofpeers
    ensures peer == None <==> listofpeers.Length == 0
    ensures peer != None ==>
      && peer.value == old(listofpeers[draw])
      && listofpeers[..] == Swap(old(listofpeers[..]), listofpeers.Length - 1, draw)
  {
    peer := SelectRandomPeers(listofpeers, 1, [draw]);
    if listofpeers.Length > 0 {
      SingleDrawPicks(old(listofpeers[..]), [draw]);
    }
  }
}
