/**
 * drop_duplicates on a projected frame: keep the first row with each value,
 * in row order.
 */
module Distinct {

  /** No element occurs twice. */
  predicate NoDup<K(==)>(s: seq<K>) {
    forall i, j :: 0 <= i < j < |s| ==> s[i] != s[j]
  }

  /** The position of the first occurrence of x in s. */
  function FirstIndex<K(==)>(s: seq<K>, x: K): (r: nat)
    requires x in s
    ensures r < |s| && s[r] == x && x !in s[..r]
    decreases |s|
  {
    var front := s[..|s| - 1];
    if x in front then
      var r := FirstIndex(front, x);
      assert s[..r] == front[..r];
      r
    else
      |s| - 1
  }

  /** The first occurrence of every value, in the order of the input. */
  function Dedup<K(==)>(s: seq<K>): (r: seq<K>)
    ensures NoDup(r)
    ensures |r| <= |s|
    decreases |s|
  {
    if s == [] then []
    else
      var d := Dedup(s[..|s| - 1]);
      if s[|s| - 1] in d then d else d + [s[|s| - 1]]
  }

  /** Dedup keeps every value of the input and adds none. */
  lemma {:induction false} DedupSameValues<K>(s: seq<K>)
    ensures forall i :: 0 <= i < |s| ==> s[i] in Dedup(s)
    ensures forall i :: 0 <= i < |Dedup(s)| ==> Dedup(s)[i] in s
    decreases |s|
  {
    if s != [] {
      var front := s[..|s| - 1];
      DedupSameValues(front);
      forall i | 0 <= i < |s| ensures s[i] in Dedup(s) {
        if i < |s| - 1 { assert s[i] == front[i]; }
      }
      forall i | 0 <= i < |Dedup(s)| ensures Dedup(s)[i] in s {
        if i < |Dedup(front)| { assert Dedup(front)[i] in front; }
      }
    }
  }

  /** Dedup keeps values in the order of their first occurrence. */
  lemma {:induction false} DedupFirstSeenOrder<K>(s: seq<K>, i: nat, j: nat)
    requires i < j < |Dedup(s)|
    ensures Dedup(s)[i] in s && Dedup(s)[j] in s && FirstIndex(s, Dedup(s)[i]) < FirstIndex(s, Dedup(s)[j])
    decreases |s|
  {
    DedupSameValues(s);
    var front := s[..|s| - 1];
    var d := Dedup(front);
    DedupSameValues(front);
    if s[|s| - 1] in d || j < |d| {
      DedupFirstSeenOrder(front, i, j);
    } else {
      assert FirstIndex(s, Dedup(s)[j]) == |s| - 1;
    }
  }

  /** A sequence without repeats is left as it is. */
  lemma {:induction false} DedupOfDistinct<K>(s: seq<K>)
    requires NoDup(s)
    ensures Dedup(s) == s
    decreases |s|
  {
    if s != [] {
      var front := s[..|s| - 1];
      DedupOfDistinct(front);
      assert s == front + [s[|s| - 1]];
    }
  }

  /** Dropping duplicates twice is the same as dropping them once. */
  lemma DedupIdempotent<K>(s: seq<K>)
    ensures Dedup(Dedup(s)) == Dedup(s)
  {
    DedupOfDistinct(Dedup(s));
  }
}
