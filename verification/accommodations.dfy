/**
 * The accommodation loop: every clean row becomes a tuple carrying the ids
 * its location and review keys resolve to; a row whose keys do not both
 * resolve is skipped.
 */
module Accommodations {
  import opened Records

  /** Both natural keys of the row have an id. */
  predicate Resolved(r: Row, lm: map<LocKey, int>, rm: map<RevKey, int>) {
    LocKeyOf(r) in lm && RevKeyOf(r) in rm
  }

  /** The list the loop builds, in row order. */
  function Join(rows: seq<Row>, lm: map<LocKey, int>, rm: map<RevKey, int>): seq<Accommodation>
    decreases |rows|
  {
    if rows == [] then []
    else
      var acc := Join(rows[..|rows| - 1], lm, rm);
      var r := rows[|rows| - 1];
      if Resolved(r, lm, rm) then acc + [AccommodationOf(r, lm[LocKeyOf(r)], rm[RevKeyOf(r)])] else acc
  }

  method BuildAccommodations(rows: seq<Row>, lm: map<LocKey, int>, rm: map<RevKey, int>)
    returns (acc: seq<Accommodation>)
    ensures acc == Join(rows, lm, rm)
  {
    acc := [];
    for i := 0 to |rows|
      invariant acc == Join(rows[..i], lm, rm)
    {
      var locKey := LocKeyOf(rows[i]);
      var revKey := RevKeyOf(rows[i]);
      if locKey in lm && revKey in rm {
        acc := acc + [AccommodationOf(rows[i], lm[locKey], rm[revKey])];
      }
      assert rows[..i + 1][..i] == rows[..i];
    }
    assert rows[..|rows|] == rows;
  }

  /**
   * No dangling foreign keys: every tuple comes from some row whose keys
   * both resolve, and carries exactly the ids those keys map to.
   */
  lemma {:induction false} JoinSound(rows: seq<Row>, lm: map<LocKey, int>, rm: map<RevKey, int>)
    ensures forall a :: a in Join(rows, lm, rm) ==>
      exists r :: r in rows && Resolved(r, lm, rm) && a == AccommodationOf(r, lm[LocKeyOf(r)], rm[RevKeyOf(r)])
    decreases |rows|
  {
    if rows != [] {
      var front := rows[..|rows| - 1];
      JoinSound(front, lm, rm);
      forall a | a in Join(rows, lm, rm)
        ensures exists r :: r in rows && Resolved(r, lm, rm) && a == AccommodationOf(r, lm[LocKeyOf(r)], rm[RevKeyOf(r)])
      {
        if a in Join(front, lm, rm) {
          var r :| r in front && Resolved(r, lm, rm) && a == AccommodationOf(r, lm[LocKeyOf(r)], rm[RevKeyOf(r)]);
          assert r in rows;
        } else {
          assert rows[|rows| - 1] in rows;
        }
      }
    }
  }

  /** A row is emitted exactly when both its keys resolve: the list is as long as the input iff nothing is skipped. */
  lemma {:induction false} JoinLength(rows: seq<Row>, lm: map<LocKey, int>, rm: map<RevKey, int>)
    ensures |Join(rows, lm, rm)| <= |rows|
    ensures |Join(rows, lm, rm)| == |rows| <==> forall i :: 0 <= i < |rows| ==> Resolved(rows[i], lm, rm)
    decreases |rows|
  {
    if rows != [] {
      var front := rows[..|rows| - 1];
      JoinLength(front, lm, rm);
      if forall i :: 0 <= i < |rows| ==> Resolved(rows[i], lm, rm) {
        assert forall i :: 0 <= i < |front| ==> Resolved(front[i], lm, rm) by {
          forall i | 0 <= i < |front| ensures Resolved(front[i], lm, rm) {
            assert front[i] == rows[i];
          }
        }
      } else if Resolved(rows[|rows| - 1], lm, rm) {
        var i :| 0 <= i < |rows| && !Resolved(rows[i], lm, rm);
        assert !Resolved(front[i], lm, rm);
      }
    }
  }

  /**
   * When every row resolves, the list has one tuple per row, in row order,
   * each with the ids of that row's keys.
   */
  lemma {:induction false} JoinTotal(rows: seq<Row>, lm: map<LocKey, int>, rm: map<RevKey, int>)
    requires forall i :: 0 <= i < |rows| ==> LocKeyOf(rows[i]) in lm && RevKeyOf(rows[i]) in rm
    ensures |Join(rows, lm, rm)| == |rows|
    ensures forall i :: 0 <= i < |rows| ==>
      Join(rows, lm, rm)[i] == AccommodationOf(rows[i], lm[LocKeyOf(rows[i])], rm[RevKeyOf(rows[i])])
    decreases |rows|
  {
    if rows != [] {
      var front := rows[..|rows| - 1];
      assert forall i :: 0 <= i < |front| ==> front[i] == rows[i];
      JoinTotal(front, lm, rm);
    }
  }

  /**
   * The loop processes rows in order: the list for a concatenation of rows
   * is the list for the first part followed by the list for the second.
   */
  lemma {:induction false} JoinAppend(a: seq<Row>, b: seq<Row>, lm: map<LocKey, int>, rm: map<RevKey, int>)
    ensures Join(a + b, lm, rm) == Join(a, lm, rm) + Join(b, lm, rm)
    decreases |b|
  {
    if b == [] {
      assert a + b == a;
    } else {
      var front := b[..|b| - 1];
      JoinAppend(a, front, lm, rm);
      assert (a + b)[..|a + b| - 1] == a + front;
      assert (a + b)[|a + b| - 1] == b[|b| - 1];
    }
  }

  /**
   * Every row whose keys both resolve yields its tuple, and it comes after
   * the tuples of the rows before it and before those of the rows after it.
   */
  lemma JoinComplete(rows: seq<Row>, lm: map<LocKey, int>, rm: map<RevKey, int>, i: nat)
    requires i < |rows| && Resolved(rows[i], lm, rm)
    ensures Join(rows, lm, rm) ==
      Join(rows[..i], lm, rm) + [AccommodationOf(rows[i], lm[LocKeyOf(rows[i])], rm[RevKeyOf(rows[i])])]
        + Join(rows[i + 1..], lm, rm)
    ensures AccommodationOf(rows[i], lm[LocKeyOf(rows[i])], rm[RevKeyOf(rows[i])]) in Join(rows, lm, rm)
  {
    assert rows == rows[..i + 1] + rows[i + 1..];
    JoinAppend(rows[..i + 1], rows[i + 1..], lm, rm);
    assert rows[..i + 1][..i] == rows[..i];
  }

  /**
   * Rows with the same review triple get the same review id, whatever
   * listing they describe.
   */
  lemma SameTripleSameReview(rows: seq<Row>, lm: map<LocKey, int>, rm: map<RevKey, int>, i: nat, j: nat)
    requires forall k :: 0 <= k < |rows| ==> LocKeyOf(rows[k]) in lm && RevKeyOf(rows[k]) in rm
    requires i < |rows| && j < |rows| && RevKeyOf(rows[i]) == RevKeyOf(rows[j])
    ensures i < |Join(rows, lm, rm)| && j < |Join(rows, lm, rm)|
    ensures Join(rows, lm, rm)[i].reviewId == Join(rows, lm, rm)[j].reviewId
  {
    JoinTotal(rows, lm, rm);
  }
}
