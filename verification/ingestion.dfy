/**
 * The whole relational ingestion run of sql_insertion.py, on one connection
 * with autocommit off: clean the table, merge the hosts, insert the
 * locations and reviews and read their ids back, build the accommodation
 * tuples, insert them in bulk, and commit.
 */
module Ingestion {
  import opened Records
  import opened Distinct
  import opened Store
  import opened Hosts
  import opened Resolve
  import opened Accommodations

  /**
   * How the bulk insert ends: it succeeds; it raises a driver error, which
   * the handler catches and rolls back; or it raises another exception,
   * which no handler catches. In both failures `written` tuples reached the
   * store before the failing one.
   */
  datatype BulkFault = NoBulkFault | DriverError(written: nat) | OtherError(written: nat)

  /**
   * Which store calls raise: the host MERGE at each listed position, the
   * location and review inserts at each listed position, and the bulk insert.
   */
  datatype Faults = Faults(hostFails: set<nat>, locationFails: set<nat>, reviewFails: set<nat>, bulk: BulkFault)

  /**
   * How the run ends: a column conversion raised; a location or review
   * insert raised (uncaught, so the process ends and the open transaction is
   * discarded); the bulk insert raised a driver error and was rolled back
   * before the commit; the bulk insert raised another exception, so the
   * commit in `finally` made the pending writes and the `count` tuples sent
   * so far durable before the exception left the script; or the commit made
   * `count` accommodation rows durable.
   */
  datatype Outcome = BadInput | Aborted | RolledBack | Escaped(count: nat) | Committed(count: nat)

  /** No iteration below n fails. */
  predicate NoFailureBelow(fails: set<nat>, n: nat) {
    forall i :: i in fails ==> i >= n
  }

  /** Every location insert and every review insert of the run succeeds. */
  predicate DimensionsLoad(rows: seq<Row>, faults: Faults) {
    && NoFailureBelow(faults.locationFails, |Dedup(LocKeysOf(rows))|)
    && NoFailureBelow(faults.reviewFails, |Dedup(RevKeysOf(rows))|)
  }

  /** The committed database after a run in which nothing but host MERGEs may fail. */
  function IngestedDb(c: Db, rows: seq<Row>, hostFails: set<nat>, n0: int, r0: int): Db {
    var locKeys := Dedup(LocKeysOf(rows));
    var revKeys := Dedup(RevKeysOf(rows));
    Db(HostLoop(c, c, Dedup(HostsOf(rows)), hostFails).hosts,
       c.locations + Numbered(locKeys, n0),
       c.reviews + Numbered(revKeys, r0),
       c.accommodations + Join(rows, KeyIndex(locKeys, n0), KeyIndex(revKeys, r0)))
  }

  /**
   * The committed database after a run whose bulk insert raised an uncaught
   * exception once k tuples had been sent: the commit in `finally` keeps
   * every other write of the run and those k tuples.
   */
  function EscapedDb(c: Db, rows: seq<Row>, hostFails: set<nat>, n0: int, r0: int, k: nat): Db {
    var db := IngestedDb(c, rows, hostFails, n0, r0);
    db.(accommodations := db.accommodations[..Min(|c.accommodations| + k, |db.accommodations|)])
  }

  /**
   * The script from the cleaning step to the commit. Which store calls raise
   * is an input; the outcome says how the run ended and the committed state
   * says what it left behind.
   */
  method Ingest(conn: Connection, raws: seq<RawRow>, faults: Faults) returns (outcome: Outcome)
    requires conn.Valid() && conn.pending == []
    modifies conn
    ensures conn.Valid() && conn.pending == []
    ensures outcome.BadInput? <==> CleanData(raws).None?
    ensures outcome.Aborted? <==>
      && CleanData(raws).Some?
      && !DimensionsLoad(CleanData(raws).value, faults)
    ensures outcome.RolledBack? <==>
      && CleanData(raws).Some?
      && DimensionsLoad(CleanData(raws).value, faults)
      && faults.bulk.DriverError?
    ensures outcome.Escaped? <==>
      && CleanData(raws).Some?
      && DimensionsLoad(CleanData(raws).value, faults)
      && faults.bulk.OtherError?
    ensures outcome.BadInput? || outcome.Aborted? || outcome.RolledBack? ==>
      conn.committed == old(conn.committed)
    ensures outcome.Committed? ==>
      && outcome.count == |raws|
      && conn.committed == IngestedDb(old(conn.committed), CleanData(raws).value, faults.hostFails,
                                      old(conn.nextLocationId), old(conn.nextReviewId))
    ensures outcome.Escaped? ==>
      && outcome.count == Min(faults.bulk.written, |raws|)
      && conn.committed == EscapedDb(old(conn.committed), CleanData(raws).value, faults.hostFails,
                                     old(conn.nextLocationId), old(conn.nextReviewId), outcome.count)
  {
    var cleaned := CleanData(raws);
    if cleaned.None? {
      return BadInput;
    }
    var rows := cleaned.value;
    assert |rows| == |raws|;
    outcome := IngestRows(conn, rows, faults);
  }

  /** The run after the table has been cleaned. */
  method IngestRows(conn: Connection, rows: seq<Row>, faults: Faults) returns (outcome: Outcome)
    requires conn.Valid() && conn.pending == []
    modifies conn
    ensures conn.Valid() && conn.pending == []
    ensures !outcome.BadInput?
    ensures outcome.Aborted? <==> !DimensionsLoad(rows, faults)
    ensures outcome.RolledBack? <==> DimensionsLoad(rows, faults) && faults.bulk.DriverError?
    ensures outcome.Escaped? <==> DimensionsLoad(rows, faults) && faults.bulk.OtherError?
    ensures outcome.Aborted? || outcome.RolledBack? ==> conn.committed == old(conn.committed)
    ensures outcome.Committed? ==>
      && outcome.count == |rows|
      && conn.committed == IngestedDb(old(conn.committed), rows, faults.hostFails,
                                      old(conn.nextLocationId), old(conn.nextReviewId))
    ensures outcome.Escaped? ==>
      && outcome.count == Min(faults.bulk.written, |rows|)
      && conn.committed == EscapedDb(old(conn.committed), rows, faults.hostFails,
                                     old(conn.nextLocationId), old(conn.nextReviewId), outcome.count)
  {
    ghost var c := conn.committed;
    ghost var n0, r0 := conn.nextLocationId, conn.nextReviewId;
    var locMap, revMap, ok := LoadDimensions(conn, rows, faults);
    if !ok {
      return Aborted;
    }
    var acc := BuildAccommodations(rows, locMap, revMap);
    JoinCoversRows(rows, n0, r0);
    ghost var ingested := IngestedDb(c, rows, faults.hostFails, n0, r0);
    outcome := InsertAndCommit(conn, acc, faults.bulk);
    assert ingested.accommodations == c.accommodations + acc;
    match faults.bulk {
      case NoBulkFault =>
        assert conn.committed == ingested;
      case DriverError(_) =>
      case OtherError(w) =>
        EscapedDbKeepsPrefix(c, rows, faults.hostFails, n0, r0, acc, outcome.count);
    }
  }

  /**
   * The host MERGE loop and the two insert-and-read-back loops, in script
   * order. A location or review insert that raises ends the run, and the
   * open transaction is discarded with the connection.
   */
  method LoadDimensions(conn: Connection, rows: seq<Row>, faults: Faults)
    returns (locMap: map<LocKey, int>, revMap: map<RevKey, int>, ok: bool)
    requires conn.Valid() && conn.pending == []
    modifies conn
    ensures conn.Valid()
    ensures conn.committed == old(conn.committed)
    ensures ok <==> DimensionsLoad(rows, faults)
    ensures !ok ==> conn.pending == []
    ensures ok ==>
      && locMap == KeyIndex(Dedup(LocKeysOf(rows)), old(conn.nextLocationId))
      && revMap == KeyIndex(Dedup(RevKeysOf(rows)), old(conn.nextReviewId))
      && conn.View() ==
           IngestedDb(old(conn.committed), rows, faults.hostFails, old(conn.nextLocationId), old(conn.nextReviewId))
             .(accommodations := old(conn.committed.accommodations))
  {
    ghost var c := conn.committed;
    var hosts := Dedup(HostsOf(rows));
    MergeHosts(conn, hosts, faults.hostFails);
    HostLoopTouchesHostsOnly(c, c, hosts, faults.hostFails);

    var locOk, revOk;
    locMap, locOk := ResolveLocations(conn, Dedup(LocKeysOf(rows)), faults.locationFails);
    if !locOk {
      conn.Rollback();
      return locMap, map[], false;
    }
    revMap, revOk := ResolveReviews(conn, Dedup(RevKeysOf(rows)), faults.reviewFails);
    if !revOk {
      conn.Rollback();
      return locMap, revMap, false;
    }
    ok := true;
  }

  /**
   * When the bulk insert raises an uncaught exception, the commit in
   * `finally` still makes the run's hosts, locations and reviews durable,
   * all of them as a committed run would; only the accommodations stop at
   * the tuples sent before the failure.
   */
  lemma EscapedCommitsRunWrites(c: Db, rows: seq<Row>, hostFails: set<nat>, n0: int, r0: int, k: nat)
    ensures var escaped, ingested := EscapedDb(c, rows, hostFails, n0, r0, k), IngestedDb(c, rows, hostFails, n0, r0);
      && escaped.hosts == ingested.hosts
      && escaped.locations == ingested.locations
      && escaped.reviews == ingested.reviews
      && |escaped.accommodations| == |c.accommodations| + Min(k, |rows|)
      && escaped.accommodations == ingested.accommodations[..|c.accommodations| + Min(k, |rows|)]
  {
    JoinCoversRows(rows, n0, r0);
  }

  /** An escaped run keeps the old accommodations and the first k tuples of the run. */
  lemma EscapedDbKeepsPrefix(c: Db, rows: seq<Row>, hostFails: set<nat>, n0: int, r0: int,
                             acc: seq<Accommodation>, k: nat)
    requires IngestedDb(c, rows, hostFails, n0, r0).accommodations == c.accommodations + acc
    requires k <= |acc|
    ensures EscapedDb(c, rows, hostFails, n0, r0, k) ==
      IngestedDb(c, rows, hostFails, n0, r0).(accommodations := c.accommodations + acc[..k])
  {
    assert (c.accommodations + acc)[..|c.accommodations| + k] == c.accommodations + acc[..k];
  }

  /**
   * The bulk insert and the commit in `finally`: a driver error is rolled
   * back before the commit; any other exception skips the rollback, so the
   * commit makes every pending write durable, with the tuples sent before
   * the failure, and the exception then leaves the script.
   */
  method InsertAndCommit(conn: Connection, acc: seq<Accommodation>, bulk: BulkFault) returns (outcome: Outcome)
    requires conn.Valid()
    modifies conn
    ensures conn.Valid() && conn.pending == []
    ensures conn.nextLocationId == old(conn.nextLocationId) && conn.nextReviewId == old(conn.nextReviewId)
    ensures bulk.NoBulkFault? ==>
      && outcome == Committed(|acc|)
      && conn.committed == old(conn.View()).(accommodations := old(conn.View().accommodations) + acc)
    ensures bulk.DriverError? ==> outcome == RolledBack && conn.committed == old(conn.committed)
    ensures bulk.OtherError? ==>
      && outcome == Escaped(Min(bulk.written, |acc|))
      && conn.committed ==
           old(conn.View()).(accommodations := old(conn.View().accommodations) + acc[..outcome.count])
  {
    var written := if bulk.NoBulkFault? then 0 else bulk.written;
    var ok := conn.InsertAccommodations(acc, !bulk.NoBulkFault?, written);
    if bulk.DriverError? {
      conn.Rollback();
    }
    conn.Commit();
    outcome := match bulk
      case NoBulkFault => Committed(|acc|)
      case DriverError(_) => RolledBack
      case OtherError(w) => Escaped(Min(w, |acc|));
  }

  /**
   * The maps built from the deduplicated keys of the rows cover every row,
   * so the skip branch of the accommodation loop is never taken.
   */
  lemma EveryRowResolved(rows: seq<Row>, n0: int, r0: int)
    ensures forall i :: 0 <= i < |rows| ==>
      && LocKeyOf(rows[i]) in KeyIndex(Dedup(LocKeysOf(rows)), n0)
      && RevKeyOf(rows[i]) in KeyIndex(Dedup(RevKeysOf(rows)), r0)
  {
    var locKeys, revKeys := Dedup(LocKeysOf(rows)), Dedup(RevKeysOf(rows));
    KeyIndexSound(locKeys, n0);
    KeyIndexSound(revKeys, r0);
    DedupSameValues(LocKeysOf(rows));
    DedupSameValues(RevKeysOf(rows));
    forall i | 0 <= i < |rows|
      ensures LocKeyOf(rows[i]) in KeyIndex(locKeys, n0) && RevKeyOf(rows[i]) in KeyIndex(revKeys, r0)
    {
      assert LocKeysOf(rows)[i] in locKeys;
      assert RevKeysOf(rows)[i] in revKeys;
    }
  }

  /** With the dictionaries of a run, no row is skipped. */
  lemma JoinCoversRows(rows: seq<Row>, n0: int, r0: int)
    ensures |Join(rows, KeyIndex(Dedup(LocKeysOf(rows)), n0), KeyIndex(Dedup(RevKeysOf(rows)), r0))| == |rows|
  {
    EveryRowResolved(rows, n0, r0);
    JoinLength(rows, KeyIndex(Dedup(LocKeysOf(rows)), n0), KeyIndex(Dedup(RevKeysOf(rows)), r0));
  }

  /**
   * After a committed run there is one new accommodation row per input row,
   * in row order, carrying that row's data, and its location and review ids
   * name freshly generated rows that hold exactly that row's keys.
   */
  lemma IngestedRowsReferenceTheirKeys(c: Db, rows: seq<Row>, hostFails: set<nat>, n0: int, r0: int)
    ensures var db := IngestedDb(c, rows, hostFails, n0, r0);
      && |db.accommodations| == |c.accommodations| + |rows|
      && db.accommodations[..|c.accommodations|] == c.accommodations
      && forall i :: 0 <= i < |rows| ==>
           RefersTo(db.accommodations[|c.accommodations| + i], rows[i], db.locations, db.reviews, n0, r0)
  {
    var locKeys, revKeys := Dedup(LocKeysOf(rows)), Dedup(RevKeysOf(rows));
    var joined := Join(rows, KeyIndex(locKeys, n0), KeyIndex(revKeys, r0));
    var db := IngestedDb(c, rows, hostFails, n0, r0);
    var locs, revs := c.locations + Numbered(locKeys, n0), c.reviews + Numbered(revKeys, r0);
    assert db == Db(db.hosts, locs, revs, c.accommodations + joined);
    JoinReferencesFreshRows(rows, c.locations, c.reviews, n0, r0);
    AppendedReferences(c.accommodations, joined, rows, locs, revs, n0, r0);
  }

  /**
   * The tuple carries the row's data, and its ids name rows, from the first
   * generated ids on, that hold exactly the row's location key and review
   * triple.
   */
  predicate RefersTo(a: Accommodation, r: Row, locs: map<int, LocKey>, revs: map<int, RevKey>, n0: int, r0: int) {
    && a == AccommodationOf(r, a.locationId, a.reviewId)
    && n0 <= a.locationId && a.locationId in locs && locs[a.locationId] == LocKeyOf(r)
    && r0 <= a.reviewId && a.reviewId in revs && revs[a.reviewId] == RevKeyOf(r)
  }

  /** Appending tuples that reference their rows' keys after the existing ones. */
  lemma AppendedReferences(kept: seq<Accommodation>, added: seq<Accommodation>, rows: seq<Row>,
                           locs: map<int, LocKey>, revs: map<int, RevKey>, n0: int, r0: int)
    requires |added| == |rows|
    requires forall i :: 0 <= i < |rows| ==> RefersTo(added[i], rows[i], locs, revs, n0, r0)
    ensures |kept + added| == |kept| + |rows|
    ensures (kept + added)[..|kept|] == kept
    ensures forall i :: 0 <= i < |rows| ==> RefersTo((kept + added)[|kept| + i], rows[i], locs, revs, n0, r0)
  {
    forall i | 0 <= i < |rows|
      ensures (kept + added)[|kept| + i] == added[i]
    {
    }
  }

  /** The tuples the run builds: one per row, each referring to generated rows that hold its keys. */
  lemma JoinReferencesFreshRows(rows: seq<Row>, locations: map<int, LocKey>, reviews: map<int, RevKey>, n0: int, r0: int)
    ensures var locKeys, revKeys := Dedup(LocKeysOf(rows)), Dedup(RevKeysOf(rows));
      var joined := Join(rows, KeyIndex(locKeys, n0), KeyIndex(revKeys, r0));
      && |joined| == |rows|
      && forall i :: 0 <= i < |rows| ==>
           RefersTo(joined[i], rows[i], locations + Numbered(locKeys, n0), reviews + Numbered(revKeys, r0), n0, r0)
  {
    var locKeys, revKeys := Dedup(LocKeysOf(rows)), Dedup(RevKeysOf(rows));
    var lm, rm := KeyIndex(locKeys, n0), KeyIndex(revKeys, r0);
    EveryRowResolved(rows, n0, r0);
    JoinTotal(rows, lm, rm);
    forall i | 0 <= i < |rows|
      ensures RefersTo(Join(rows, lm, rm)[i], rows[i], locations + Numbered(locKeys, n0), reviews + Numbered(revKeys, r0), n0, r0)
    {
      FreshIdHoldsKey(locations, locKeys, n0, LocKeyOf(rows[i]));
      FreshIdHoldsKey(reviews, revKeys, r0, RevKeyOf(rows[i]));
    }
  }

  /** A key in the dictionary names a generated row, above the first id, that holds the key. */
  lemma FreshIdHoldsKey<K>(table: map<int, K>, ks: seq<K>, base: int, k: K)
    requires k in KeyIndex(ks, base)
    ensures base <= KeyIndex(ks, base)[k]
    ensures KeyIndex(ks, base)[k] in table + Numbered(ks, base)
    ensures (table + Numbered(ks, base))[KeyIndex(ks, base)[k]] == k
  {
    KeyIndexSound(ks, base);
  }

  /**
   * A committed run leaves every row that was already committed as it was:
   * generated ids are fresh, and a host id already present is never
   * overwritten.
   */
  lemma IngestedKeepsCommitted(c: Db, rows: seq<Row>, hostFails: set<nat>, n0: int, r0: int)
    requires WellFormed(c, n0, r0)
    ensures var db := IngestedDb(c, rows, hostFails, n0, r0);
      && (forall id :: id in c.locations ==> id in db.locations && db.locations[id] == c.locations[id])
      && (forall id :: id in c.reviews ==> id in db.reviews && db.reviews[id] == c.reviews[id])
      && (forall id :: id in c.hosts ==> id in db.hosts && db.hosts[id] == c.hosts[id])
      && db.accommodations[..|c.accommodations|] == c.accommodations
  {
    FreshRows(c.locations, Dedup(LocKeysOf(rows)), n0);
    FreshRows(c.reviews, Dedup(RevKeysOf(rows)), r0);
    HostLoopKeepsCommitted(c, c, Dedup(HostsOf(rows)), hostFails);
  }

  /**
   * A committed run adds one location row per distinct location key of the
   * input: every new row holds some row's key, no two new rows hold the
   * same key, and every row's key is held by a new row.
   */
  lemma IngestedOneLocationPerKey(c: Db, rows: seq<Row>, hostFails: set<nat>, n0: int, r0: int)
    requires WellFormed(c, n0, r0)
    ensures var locs := IngestedDb(c, rows, hostFails, n0, r0).locations;
      && (forall id :: id in locs && id !in c.locations ==> locs[id] in LocKeysOf(rows))
      && (forall id1, id2 :: id1 in locs && id1 !in c.locations && id2 in locs && id2 !in c.locations && id1 != id2
            ==> locs[id1] != locs[id2])
      && (forall i :: 0 <= i < |rows| ==>
            exists id :: id in locs && id !in c.locations && locs[id] == LocKeyOf(rows[i]))
  {
    var keys := Dedup(LocKeysOf(rows));
    DedupSameValues(LocKeysOf(rows));
    var locs := IngestedDb(c, rows, hostFails, n0, r0).locations;
    assert locs == c.locations + Numbered(keys, n0);
    FreshRows(c.locations, keys, n0);
    forall id | id in locs && id !in c.locations ensures locs[id] in LocKeysOf(rows) {
      var j :| 0 <= j < |keys| && keys[j] == locs[id];
    }
    forall i | 0 <= i < |rows|
      ensures exists id :: id in locs && id !in c.locations && locs[id] == LocKeyOf(rows[i])
    {
      assert LocKeysOf(rows)[i] in keys;
      var j :| 0 <= j < |keys| && keys[j] == LocKeyOf(rows[i]);
      assert locs[n0 + j] == LocKeyOf(rows[i]);
    }
  }

  /**
   * The same for review records: one new row per distinct review triple.
   */
  lemma IngestedOneReviewPerTriple(c: Db, rows: seq<Row>, hostFails: set<nat>, n0: int, r0: int)
    requires WellFormed(c, n0, r0)
    ensures var revs := IngestedDb(c, rows, hostFails, n0, r0).reviews;
      && (forall id :: id in revs && id !in c.reviews ==> revs[id] in RevKeysOf(rows))
      && (forall id1, id2 :: id1 in revs && id1 !in c.reviews && id2 in revs && id2 !in c.reviews && id1 != id2
            ==> revs[id1] != revs[id2])
      && (forall i :: 0 <= i < |rows| ==>
            exists id :: id in revs && id !in c.reviews && revs[id] == RevKeyOf(rows[i]))
  {
    var keys := Dedup(RevKeysOf(rows));
    DedupSameValues(RevKeysOf(rows));
    var revs := IngestedDb(c, rows, hostFails, n0, r0).reviews;
    assert revs == c.reviews + Numbered(keys, r0);
    FreshRows(c.reviews, keys, r0);
    forall id | id in revs && id !in c.reviews ensures revs[id] in RevKeysOf(rows) {
      var j :| 0 <= j < |keys| && keys[j] == revs[id];
    }
    forall i | 0 <= i < |rows|
      ensures exists id :: id in revs && id !in c.reviews && revs[id] == RevKeyOf(rows[i])
    {
      assert RevKeysOf(rows)[i] in keys;
      var j :| 0 <= j < |keys| && keys[j] == RevKeyOf(rows[i]);
      assert revs[r0 + j] == RevKeyOf(rows[i]);
    }
  }
}
