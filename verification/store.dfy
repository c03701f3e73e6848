/**
 * The relational store behind the connection opened with autocommit off:
 * a committed state, the list of writes made since the last commit or
 * rollback, and the identity counters of the location and review tables.
 */
module Store {
  import opened Records

  /** The four tables. The host table is keyed by host_id. */
  datatype Db = Db(
    hosts: map<int, HostRow>,
    locations: map<int, LocKey>,
    reviews: map<int, RevKey>,
    accommodations: seq<Accommodation>)

  /** One uncommitted write. */
  datatype Op =
    | PutHost(host: HostRow)
    | PutLocation(locationId: int, location: LocKey)
    | PutReview(reviewId: int, review: RevKey)
    | PutAccommodations(rows: seq<Accommodation>)

  function Apply(db: Db, op: Op): Db {
    match op
    case PutHost(h) => db.(hosts := db.hosts[h.hostId := h])
    case PutLocation(id, k) => db.(locations := db.locations[id := k])
    case PutReview(id, k) => db.(reviews := db.reviews[id := k])
    case PutAccommodations(rows) => db.(accommodations := db.accommodations + rows)
  }

  /** The state seen inside the transaction: the writes applied in order. */
  function ApplyAll(db: Db, ops: seq<Op>): Db
    decreases |ops|
  {
    if ops == [] then db else Apply(ApplyAll(db, ops[..|ops| - 1]), ops[|ops| - 1])
  }

  function Min(a: nat, b: nat): nat {
    if a < b then a else b
  }

  lemma ApplyAllSnoc(db: Db, ops: seq<Op>, op: Op)
    ensures ApplyAll(db, ops + [op]) == Apply(ApplyAll(db, ops), op)
  {
    assert (ops + [op])[..|ops|] == ops;
  }

  /** Every generated id lies below its table's counter, and hosts sit under their own id. */
  ghost predicate WellFormed(db: Db, nextLocationId: int, nextReviewId: int) {
    && (forall id :: id in db.locations ==> id < nextLocationId)
    && (forall id :: id in db.reviews ==> id < nextReviewId)
    && (forall id :: id in db.hosts ==> db.hosts[id].hostId == id)
  }

  class Connection {
    var committed: Db
    var pending: seq<Op>
    var nextLocationId: int
    var nextReviewId: int

    function View(): Db
      reads this
    {
      ApplyAll(committed, pending)
    }

    ghost predicate Valid()
      reads this
    {
      && WellFormed(committed, nextLocationId, nextReviewId)
      && WellFormed(View(), nextLocationId, nextReviewId)
    }

    /** A connection with nothing pending, over an existing database. */
    constructor (db: Db, firstLocationId: int, firstReviewId: int)
      requires WellFormed(db, firstLocationId, firstReviewId)
      ensures Valid() && committed == db && pending == []
      ensures nextLocationId == firstLocationId && nextReviewId == firstReviewId
    {
      committed := db;
      pending := [];
      nextLocationId := firstLocationId;
      nextReviewId := firstReviewId;
    }

    /**
     * MERGE of one host triple, matched on host_id only: the triple is
     * inserted when no host with its id is visible, and nothing happens
     * otherwise. `fails` stands for the driver raising; a failed statement
     * writes nothing.
     */
    method MergeHost(h: HostRow, fails: bool) returns (ok: bool)
      requires Valid()
      modifies this
      ensures Valid()
      ensures ok == !fails
      ensures committed == old(committed)
      ensures nextLocationId == old(nextLocationId) && nextReviewId == old(nextReviewId)
      ensures pending ==
        if ok && h.hostId !in old(View().hosts) then old(pending) + [PutHost(h)] else old(pending)
      ensures View() ==
        if ok && h.hostId !in old(View().hosts) then old(View()).(hosts := old(View().hosts)[h.hostId := h])
        else old(View())
    {
      ok := !fails;
      if ok && h.hostId !in View().hosts {
        ApplyAllSnoc(committed, pending, PutHost(h));
        pending := pending + [PutHost(h)];
      }
    }

    /** INSERT of one location with OUTPUT of its generated id. */
    method InsertLocation(k: LocKey, fails: bool) returns (ok: bool, id: int)
      requires Valid()
      modifies this
      ensures Valid()
      ensures ok == !fails
      ensures committed == old(committed) && nextReviewId == old(nextReviewId)
      ensures ok ==> id == old(nextLocationId) && nextLocationId == id + 1
      ensures ok ==> pending == old(pending) + [PutLocation(id, k)]
      ensures ok ==> View() == old(View()).(locations := old(View().locations)[id := k])
      ensures !ok ==> pending == old(pending) && nextLocationId == old(nextLocationId)
    {
      ok := !fails;
      id := nextLocationId;
      if ok {
        ApplyAllSnoc(committed, pending, PutLocation(id, k));
        pending := pending + [PutLocation(id, k)];
        nextLocationId := nextLocationId + 1;
      }
    }

    /** INSERT of one review record with OUTPUT of its generated id. */
    method InsertReview(k: RevKey, fails: bool) returns (ok: bool, id: int)
      requires Valid()
      modifies this
      ensures Valid()
      ensures ok == !fails
      ensures committed == old(committed) && nextLocationId == old(nextLocationId)
      ensures ok ==> id == old(nextReviewId) && nextReviewId == id + 1
      ensures ok ==> pending == old(pending) + [PutReview(id, k)]
      ensures ok ==> View() == old(View()).(reviews := old(View().reviews)[id := k])
      ensures !ok ==> pending == old(pending) && nextReviewId == old(nextReviewId)
    {
      ok := !fails;
      id := nextReviewId;
      if ok {
        ApplyAllSnoc(committed, pending, PutReview(id, k));
        pending := pending + [PutReview(id, k)];
        nextReviewId := nextReviewId + 1;
      }
    }

    /**
     * executemany of the accommodation tuples, one after another: all of
     * them, or, when it raises, only the `written` tuples sent before the
     * failing one.
     */
    method InsertAccommodations(rows: seq<Accommodation>, fails: bool, written: nat) returns (ok: bool)
      requires Valid()
      modifies this
      ensures Valid()
      ensures ok == !fails
      ensures committed == old(committed)
      ensures nextLocationId == old(nextLocationId) && nextReviewId == old(nextReviewId)
      ensures pending == old(pending) + [PutAccommodations(if ok then rows else rows[..Min(written, |rows|)])]
      ensures View() == old(View()).(accommodations :=
        old(View().accommodations) + if ok then rows else rows[..Min(written, |rows|)])
    {
      ok := !fails;
      var sent := if ok then rows else rows[..Min(written, |rows|)];
      ApplyAllSnoc(committed, pending, PutAccommodations(sent));
      pending := pending + [PutAccommodations(sent)];
    }

    /**
     * Discards every uncommitted write. Identity values already handed out
     * are not given back.
     */
    method Rollback()
      requires Valid()
      modifies this
      ensures Valid()
      ensures committed == old(committed) && pending == [] && View() == committed
      ensures nextLocationId == old(nextLocationId) && nextReviewId == old(nextReviewId)
    {
      pending := [];
    }

    /** Makes every pending write durable. */
    method Commit()
      requires Valid()
      modifies this
      ensures Valid()
      ensures committed == old(View()) && pending == [] && View() == committed
      ensures nextLocationId == old(nextLocationId) && nextReviewId == old(nextReviewId)
    {
      committed := View();
      pending := [];
    }
  }
}
