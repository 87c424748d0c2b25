/** The iteration order of a Java TreeMap with integer keys: ascending. */
module KeyOrder {

  /** `m` is the least element of `s`. */
  predicate IsLeast(m: int, s: set<int>)
  {
    m in s && forall x :: x in s ==> m <= x
  }

  /** A member of a non-empty set. Were there none, the set would be empty. */
  lemma MemberOf(s: set<int>) returns (y: int)
    requires s != {}
    ensures y in s
  {
    if forall x :: x !in s {
      assert false;  // extensionality: s == {}
    }
    y :| y in s;
  }

  /** Every finite non-empty set of integers has a least element. */
  lemma {:induction false} LeastExists(s: set<int>)
    requires s != {}
    ensures exists m :: IsLeast(m, s)
  {
    var y := MemberOf(s);
    if s != {y} {
      LeastExists(s - {y});
      var m :| IsLeast(m, s - {y});
      var least := if y < m then y else m;
      forall x | x in s
        ensures least <= x
      {
        if x != y {
          assert x in s - {y};
        }
      }
      assert IsLeast(least, s);
    } else {
      assert IsLeast(y, s);
    }
  }

  /** The least key of a non-empty key set. */
  function LeastKey(s: set<int>): (m: int)
    requires s != {}
    ensures IsLeast(m, s)
  {
    LeastExists(s);
    var m :| IsLeast(m, s); m
  }

  /** Strictly ascending, hence without repetitions. */
  predicate Ascending(ks: seq<int>)
  {
    forall i, j :: 0 <= i < j < |ks| ==> ks[i] < ks[j]
  }

  /** The keys of a TreeMap in iteration order: each key of `s` exactly once,
      nothing else, in strictly ascending order. */
  function SortedKeys(s: set<int>): (ks: seq<int>)
    ensures |ks| == |s| && Ascending(ks)
    ensures forall k :: k in ks <==> k in s
    decreases |s|
  {
    if s == {} then []
    else
      var m := LeastKey(s);
      var rest := SortedKeys(s - {m});
      assert forall k :: k in rest ==> m < k;
      [m] + rest
  }

  /** The position of a key in a list of keys that holds it; used to find a
      key's address in the list `getLocalState` builds. */
  function IndexOf(ks: seq<int>, k: int): (i: nat)
    requires k in ks
    ensures i < |ks| && ks[i] == k
  {
    if ks[0] == k then 0 else 1 + IndexOf(ks[1..], k)
  }
}
