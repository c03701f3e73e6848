/**
 * The location and review loops: each deduplicated key is inserted once,
 * its generated id is read back, and a dictionary maps the key to that id.
 */
module Resolve {
  import opened Records
  import opened Store
  import opened Distinct

  /** The rows a run of single inserts adds: the j-th key under id base + j. */
  function Numbered<K>(ks: seq<K>, base: int): map<int, K>
    decreases |ks|
  {
    if ks == [] then map[] else Numbered(ks[..|ks| - 1], base)[base + |ks| - 1 := ks[|ks| - 1]]
  }

  /** The inserts occupy exactly the ids base .. base + |ks| - 1, in key order. */
  lemma {:induction false} NumberedSpec<K>(ks: seq<K>, base: int)
    ensures forall id :: id in Numbered(ks, base) <==> base <= id < base + |ks|
    ensures forall j :: 0 <= j < |ks| ==> base + j in Numbered(ks, base) && Numbered(ks, base)[base + j] == ks[j]
    decreases |ks|
  {
    if ks != [] {
      var front := ks[..|ks| - 1];
      NumberedSpec(front, base);
      forall j | 0 <= j < |ks| - 1 ensures base + j in Numbered(ks, base) && Numbered(ks, base)[base + j] == ks[j] {
        assert ks[j] == front[j];
      }
    }
  }

  /** The dictionary the loop fills: each key bound to the id of its (last) insert. */
  function KeyIndex<K>(ks: seq<K>, base: int): map<K, int>
    decreases |ks|
  {
    if ks == [] then map[] else KeyIndex(ks[..|ks| - 1], base)[ks[|ks| - 1] := base + |ks| - 1]
  }

  /**
   * The dictionary's keys are exactly the inserted keys, and every key is
   * bound to a generated id whose inserted row holds that key.
   */
  lemma {:induction false} KeyIndexSound<K>(ks: seq<K>, base: int)
    ensures forall j :: 0 <= j < |ks| ==> ks[j] in KeyIndex(ks, base)
    ensures forall k :: k in KeyIndex(ks, base) ==>
      && k in ks
      && base <= KeyIndex(ks, base)[k] < base + |ks|
      && KeyIndex(ks, base)[k] in Numbered(ks, base)
      && Numbered(ks, base)[KeyIndex(ks, base)[k]] == k
    decreases |ks|
  {
    if ks != [] {
      var front := ks[..|ks| - 1];
      KeyIndexSound(front, base);
      NumberedSpec(ks, base);
      NumberedSpec(front, base);
      forall j | 0 <= j < |ks| ensures ks[j] in KeyIndex(ks, base) {
        if j < |ks| - 1 { assert ks[j] == front[j]; }
      }
    }
  }

  /**
   * Distinct keys get distinct ids, and when the keys are distinct the j-th
   * key gets the j-th generated id.
   */
  lemma KeyIndexIsInverse<K>(ks: seq<K>, base: int)
    ensures forall k1, k2 :: k1 in KeyIndex(ks, base) && k2 in KeyIndex(ks, base) && k1 != k2 ==>
      KeyIndex(ks, base)[k1] != KeyIndex(ks, base)[k2]
    ensures NoDup(ks) ==> forall j :: 0 <= j < |ks| ==> ks[j] in KeyIndex(ks, base) && KeyIndex(ks, base)[ks[j]] == base + j
  {
    var m, n := KeyIndex(ks, base), Numbered(ks, base);
    KeyIndexSound(ks, base);
    NumberedSpec(ks, base);
    if NoDup(ks) {
      forall j | 0 <= j < |ks| ensures m[ks[j]] == base + j {
        var i := m[ks[j]] - base;
        assert n[base + i] == ks[i];
      }
    }
  }

  /** One more iteration of either loop. */
  lemma NumberedStep<K>(ks: seq<K>, base: int, i: nat)
    requires i < |ks|
    ensures Numbered(ks[..i + 1], base) == Numbered(ks[..i], base)[base + i := ks[i]]
    ensures KeyIndex(ks[..i + 1], base) == KeyIndex(ks[..i], base)[ks[i] := base + i]
  {
    assert ks[..i + 1][..i] == ks[..i];
  }

  lemma UnionUpdate<K, V>(a: map<K, V>, b: map<K, V>, k: K, v: V)
    ensures (a + b)[k := v] == a + b[k := v]
  {
  }

  /** The visible state after one more location insert of the loop. */
  lemma LocationStep(start: Db, ks: seq<LocKey>, base: int, i: nat)
    requires i < |ks|
    ensures var before := start.(locations := start.locations + Numbered(ks[..i], base));
      before.(locations := before.locations[base + i := ks[i]])
        == start.(locations := start.locations + Numbered(ks[..i + 1], base))
  {
    NumberedStep(ks, base, i);
    UnionUpdate(start.locations, Numbered(ks[..i], base), base + i, ks[i]);
  }

  /** The visible state after one more review insert of the loop. */
  lemma ReviewStep(start: Db, ks: seq<RevKey>, base: int, i: nat)
    requires i < |ks|
    ensures var before := start.(reviews := start.reviews + Numbered(ks[..i], base));
      before.(reviews := before.reviews[base + i := ks[i]])
        == start.(reviews := start.reviews + Numbered(ks[..i + 1], base))
  {
    NumberedStep(ks, base, i);
    UnionUpdate(start.reviews, Numbered(ks[..i], base), base + i, ks[i]);
  }

  method ResolveLocations(conn: Connection, keys: seq<LocKey>, fails: set<nat>)
    returns (m: map<LocKey, int>, ok: bool)
    requires conn.Valid()
    modifies conn
    ensures conn.Valid()
    ensures conn.committed == old(conn.committed) && conn.nextReviewId == old(conn.nextReviewId)
    ensures ok <==> forall i :: i in fails ==> i >= |keys|
    ensures ok ==> m == KeyIndex(keys, old(conn.nextLocationId))
    ensures ok ==> conn.nextLocationId == old(conn.nextLocationId) + |keys|
    ensures ok ==>
      conn.View() == old(conn.View()).(locations := old(conn.View().locations) + Numbered(keys, old(conn.nextLocationId)))
  {
    var base := conn.nextLocationId;
    ghost var start := conn.View();
    m := map[];
    ok := true;
    var i := 0;
    while i < |keys|
      invariant 0 <= i <= |keys|
      invariant conn.Valid()
      invariant conn.committed == old(conn.committed) && conn.nextReviewId == old(conn.nextReviewId)
      invariant forall j :: j in fails ==> j >= i
      invariant conn.nextLocationId == base + i
      invariant m == KeyIndex(keys[..i], base)
      invariant conn.View() == start.(locations := start.locations + Numbered(keys[..i], base))
    {
      var inserted, id := conn.InsertLocation(keys[i], i in fails);
      if !inserted {
        ok := false;
        return;
      }
      assert i !in fails;
      m := m[keys[i] := id];
      NumberedStep(keys, base, i);
      LocationStep(start, keys, base, i);
      i := i + 1;
    }
    assert keys[..i] == keys;
  }

  method ResolveReviews(conn: Connection, keys: seq<RevKey>, fails: set<nat>)
    returns (m: map<RevKey, int>, ok: bool)
    requires conn.Valid()
    modifies conn
    ensures conn.Valid()
    ensures conn.committed == old(conn.committed) && conn.nextLocationId == old(conn.nextLocationId)
    ensures ok <==> forall i :: i in fails ==> i >= |keys|
    ensures ok ==> m == KeyIndex(keys, old(conn.nextReviewId))
    ensures ok ==> conn.nextReviewId == old(conn.nextReviewId) + |keys|
    ensures ok ==>
      conn.View() == old(conn.View()).(reviews := old(conn.View().reviews) + Numbered(keys, old(conn.nextReviewId)))
  {
    var base := conn.nextReviewId;
    ghost var start := conn.View();
    m := map[];
    ok := true;
    var i := 0;
    while i < |keys|
      invariant 0 <= i <= |keys|
      invariant conn.Valid()
      invariant conn.committed == old(conn.committed) && conn.nextLocationId == old(conn.nextLocationId)
      invariant forall j :: j in fails ==> j >= i
      invariant conn.nextReviewId == base + i
      invariant m == KeyIndex(keys[..i], base)
      invariant conn.View() == start.(reviews := start.reviews + Numbered(keys[..i], base))
    {
      var inserted, id := conn.InsertReview(keys[i], i in fails);
      if !inserted {
        ok := false;
        return;
      }
      assert i !in fails;
      m := m[keys[i] := id];
      NumberedStep(keys, base, i);
      ReviewStep(start, keys, base, i);
      i := i + 1;
    }
    assert keys[..i] == keys;
  }

  /**
   * Adding the inserted rows to a table whose ids all lie below `base`
   * keeps every existing row, and, for distinct keys, gives each key
   * exactly one new row.
   */
  lemma FreshRows<K>(table: map<int, K>, ks: seq<K>, base: int)
    requires forall id :: id in table ==> id < base
    requires NoDup(ks)
    ensures forall id :: id in table ==> id in table + Numbered(ks, base) && (table + Numbered(ks, base))[id] == table[id]
    ensures forall id :: id in table + Numbered(ks, base) && id !in table ==> (table + Numbered(ks, base))[id] in ks
    ensures forall id1, id2 ::
      id1 in table + Numbered(ks, base) && id1 !in table &&
      id2 in table + Numbered(ks, base) && id2 !in table && id1 != id2
      ==> (table + Numbered(ks, base))[id1] != (table + Numbered(ks, base))[id2]
    ensures forall j :: 0 <= j < |ks| ==>
      base + j in table + Numbered(ks, base) && base + j !in table && (table + Numbered(ks, base))[base + j] == ks[j]
  {
    NumberedSpec(ks, base);
    var t := table + Numbered(ks, base);
    forall id | id in t && id !in table ensures t[id] in ks {
      assert t[id] == ks[id - base];
    }
    forall id1, id2 | id1 in t && id1 !in table && id2 in t && id2 !in table && id1 != id2
      ensures t[id1] != t[id2]
    {
      assert t[id1] == ks[id1 - base] && t[id2] == ks[id2 - base];
    }
  }
}
