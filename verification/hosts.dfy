/**
 * The host loop: one MERGE per deduplicated host triple; a failing MERGE
 * is followed by a rollback of the whole open transaction, and the loop
 * goes on with the next triple.
 */
module Hosts {
  import opened Records
  import opened Store
  import opened Distinct

  /** One iteration, on the visible state; a failure rolls back to `committed`. */
  function MergeStep(committed: Db, view: Db, h: HostRow, fails: bool): Db {
    if fails then committed
    else if h.hostId in view.hosts then view
    else view.(hosts := view.hosts[h.hostId := h])
  }

  /** The visible state after the loop has run over `hs`; iteration i fails iff i is in `fails`. */
  function HostLoop(committed: Db, view: Db, hs: seq<HostRow>, fails: set<nat>): Db
    decreases |hs|
  {
    if hs == [] then view
    else MergeStep(committed, HostLoop(committed, view, hs[..|hs| - 1], fails), hs[|hs| - 1], |hs| - 1 in fails)
  }

  /** The host ids of the triples, in order. */
  function IdsOf(hs: seq<HostRow>): (ids: seq<int>)
    ensures |ids| == |hs| && forall i :: 0 <= i < |hs| ==> ids[i] == hs[i].hostId
  {
    seq(|hs|, i requires 0 <= i < |hs| => hs[i].hostId)
  }

  method MergeHosts(conn: Connection, hs: seq<HostRow>, fails: set<nat>)
    requires conn.Valid()
    modifies conn
    ensures conn.Valid()
    ensures conn.committed == old(conn.committed)
    ensures conn.nextLocationId == old(conn.nextLocationId) && conn.nextReviewId == old(conn.nextReviewId)
    ensures conn.View() == HostLoop(old(conn.committed), old(conn.View()), hs, fails)
  {
    for i := 0 to |hs|
      invariant conn.Valid()
      invariant conn.committed == old(conn.committed)
      invariant conn.nextLocationId == old(conn.nextLocationId) && conn.nextReviewId == old(conn.nextReviewId)
      invariant conn.View() == HostLoop(conn.committed, old(conn.View()), hs[..i], fails)
    {
      var ok := conn.MergeHost(hs[i], i in fails);
      if !ok {
        conn.Rollback();
      }
      assert hs[..i + 1][..i] == hs[..i];
    }
    assert hs[..|hs|] == hs;
  }

  /**
   * Without a failure the loop only adds hosts: a host id already visible
   * keeps its row, and a new host id gets the first triple that carries it.
   * Every other table is left alone.
   */
  lemma {:induction false} MergeWithoutFailure(committed: Db, view: Db, hs: seq<HostRow>, fails: set<nat>)
    requires forall i :: i in fails ==> i >= |hs|
    ensures HostLoop(committed, view, hs, fails).(hosts := view.hosts) == view
    ensures forall id :: id in HostLoop(committed, view, hs, fails).hosts <==> id in view.hosts || id in IdsOf(hs)
    ensures forall id :: id in view.hosts ==> HostLoop(committed, view, hs, fails).hosts[id] == view.hosts[id]
    ensures forall id :: id in IdsOf(hs) && id !in view.hosts ==>
      HostLoop(committed, view, hs, fails).hosts[id] == hs[FirstIndex(IdsOf(hs), id)]
    decreases |hs|
  {
    if hs != [] {
      var front := hs[..|hs| - 1];
      var h := hs[|hs| - 1];
      MergeWithoutFailure(committed, view, front, fails);
      IdsOfSnoc(hs);
      forall id | id in IdsOf(hs) && id !in view.hosts
        ensures HostLoop(committed, view, hs, fails).hosts[id] == hs[FirstIndex(IdsOf(hs), id)]
      {
        if id in IdsOf(front) {
          assert FirstIndex(IdsOf(hs), id) == FirstIndex(IdsOf(front), id);
        } else {
          assert FirstIndex(IdsOf(hs), id) == |hs| - 1;
        }
      }
    }
  }

  /** The ids of a longer list: those of its front, then the last one's. */
  lemma IdsOfSnoc(hs: seq<HostRow>)
    requires hs != []
    ensures IdsOf(hs)[..|hs| - 1] == IdsOf(hs[..|hs| - 1])
    ensures forall id :: id in IdsOf(hs) <==> id in IdsOf(hs[..|hs| - 1]) || id == hs[|hs| - 1].hostId
  {
    var front := hs[..|hs| - 1];
    assert IdsOf(hs)[..|hs| - 1] == IdsOf(front);
    assert IdsOf(hs) == IdsOf(front) + [hs[|hs| - 1].hostId];
  }

  /**
   * A rollback erases every merge before it: once iteration k fails, the
   * result is that of merging, into the committed state, only the triples
   * after the last failing iteration.
   */
  lemma {:induction false} LastRollbackWins(committed: Db, view: Db, hs: seq<HostRow>, fails: set<nat>, k: nat)
    requires k < |hs| && k in fails
    requires forall i :: k < i < |hs| ==> i !in fails
    ensures HostLoop(committed, view, hs, fails) == HostLoop(committed, committed, hs[k + 1..], {})
    decreases |hs|
  {
    if |hs| > k + 1 {
      var front := hs[..|hs| - 1];
      LastRollbackWins(committed, view, front, fails, k);
      assert hs[k + 1..][..|hs| - k - 2] == front[k + 1..];
    } else {
      assert hs[k + 1..] == [];
    }
  }

  /**
   * The loop only writes the host table: if the visible state differs from
   * the committed one in hosts alone, so does the result.
   */
  lemma {:induction false} HostLoopTouchesHostsOnly(committed: Db, view: Db, hs: seq<HostRow>, fails: set<nat>)
    requires view.(hosts := committed.hosts) == committed
    ensures HostLoop(committed, view, hs, fails).(hosts := committed.hosts) == committed
    decreases |hs|
  {
    if hs != [] {
      HostLoopTouchesHostsOnly(committed, view, hs[..|hs| - 1], fails);
    }
  }

  /**
   * A host id already in the committed table keeps its row: the MERGE never
   * updates a matched row, and a rollback restores the committed table.
   */
  lemma {:induction false} HostLoopKeepsCommitted(committed: Db, view: Db, hs: seq<HostRow>, fails: set<nat>)
    requires forall id :: id in committed.hosts ==> id in view.hosts && view.hosts[id] == committed.hosts[id]
    ensures forall id :: id in committed.hosts ==>
      id in HostLoop(committed, view, hs, fails).hosts
      && HostLoop(committed, view, hs, fails).hosts[id] == committed.hosts[id]
    decreases |hs|
  {
    if hs != [] {
      HostLoopKeepsCommitted(committed, view, hs[..|hs| - 1], fails);
    }
  }
}
