/**
 * The rows of the listings file, before and after the "Clean Data" step of
 * sql_insertion.py, and the natural keys and tuples derived from a clean row.
 *
 * Textual conversions are abstract: a numeric cell arrives as the outcome of
 * its parser (nothing there, text that does not parse, or a value).
 */
module Records {
  import opened Wrappers

  /** One numeric cell as a column conversion sees it. */
  datatype Cell<T> = Missing | Malformed | Value(v: T)

  /**
   * A row as read from the file. Text columns are already strings. A
   * coordinate is `Some` value when its float conversion succeeds and `None`
   * when that conversion raises; an empty coordinate, which the conversion
   * would turn into NaN, is not represented.
   */
  datatype RawRow = RawRow(
    accommodationId: string,
    name: string,
    roomType: string,
    price: Cell<real>,
    minimumNights: Cell<int>,
    availability365: Cell<int>,
    neighbourhood: string,
    latitude: Option<real>,
    longitude: Option<real>,
    city: string,
    hostId: Cell<int>,
    hostName: string,
    listingsCount: Cell<int>,
    numberOfReviews: Cell<int>,
    reviewsPerMonth: Cell<real>,
    reviewsLtm: Cell<int>)

  /** A row after every column has been coerced to its type. */
  datatype Row = Row(
    accommodationId: string,
    name: string,
    roomType: string,
    price: real,
    minimumNights: int,
    availability365: int,
    neighbourhood: string,
    latitude: real,
    longitude: real,
    city: string,
    hostId: int,
    hostName: string,
    listingsCount: int,
    numberOfReviews: int,
    reviewsPerMonth: real,
    reviewsLtm: int)

  /** The host triple that hosts are deduplicated on. */
  datatype HostRow = HostRow(hostId: int, hostName: string, listingsCount: int)

  /** The natural key of a location. */
  datatype LocKey = LocKey(neighbourhood: string, latitude: real, longitude: real, city: string)

  /** The natural key of a review record. */
  datatype RevKey = RevKey(numberOfReviews: int, reviewsLtm: int, reviewsPerMonth: real)

  /** The nine-column tuple sent to the accommodation table. */
  datatype Accommodation = Accommodation(
    accommodationId: string,
    hostId: int,
    name: string,
    roomType: string,
    price: real,
    minimumNights: int,
    availability365: int,
    locationId: int,
    reviewId: int)

  const Int32Modulus: int := 0x1_0000_0000
  const Int32Min: int := -0x8000_0000

  /** A cast to a signed 32-bit integer, which keeps the low 32 bits. */
  function WrapInt32(x: int): (r: int)
    ensures Int32Min <= r < -Int32Min
    ensures (x - r) % Int32Modulus == 0
    ensures Int32Min <= x < -Int32Min ==> r == x
  {
    (x - Int32Min) % Int32Modulus + Int32Min
  }

  /** Every conversion that raises on a bad cell succeeds on this row. */
  predicate Convertible(raw: RawRow) {
    && raw.minimumNights.Value?
    && raw.availability365.Value?
    && raw.latitude.Some?
    && raw.longitude.Some?
    && raw.hostId.Value?
    && raw.listingsCount.Value?
    && raw.numberOfReviews.Value?
    && !raw.reviewsPerMonth.Malformed?
    && raw.reviewsLtm.Value?
  }

  /**
   * The coercion of one row: a price that does not parse (or is absent)
   * becomes 0, an absent review rate becomes 0, the host id is cast to 32
   * bits, and every other numeric column must convert.
   */
  function NormalizeRow(raw: RawRow): (r: Option<Row>)
    ensures r.Some? <==> Convertible(raw)
    ensures r.Some? ==>
      && r.value.accommodationId == raw.accommodationId
      && r.value.name == raw.name
      && r.value.roomType == raw.roomType
      && r.value.neighbourhood == raw.neighbourhood
      && r.value.city == raw.city
      && r.value.hostName == raw.hostName
      && r.value.minimumNights == raw.minimumNights.v
      && r.value.availability365 == raw.availability365.v
      && r.value.latitude == raw.latitude.value
      && r.value.longitude == raw.longitude.value
      && r.value.listingsCount == raw.listingsCount.v
      && r.value.numberOfReviews == raw.numberOfReviews.v
      && r.value.reviewsLtm == raw.reviewsLtm.v
      && r.value.hostId == WrapInt32(raw.hostId.v)
  {
    if Convertible(raw) then
      Some(Row(
        raw.accommodationId, raw.name, raw.roomType,
        if raw.price.Value? then raw.price.v else 0.0,
        raw.minimumNights.v, raw.availability365.v,
        raw.neighbourhood, raw.latitude.value, raw.longitude.value, raw.city,
        WrapInt32(raw.hostId.v), raw.hostName, raw.listingsCount.v,
        raw.numberOfReviews.v,
        if raw.reviewsPerMonth.Value? then raw.reviewsPerMonth.v else 0.0,
        raw.reviewsLtm.v))
    else
      None
  }

  /** The price and review-rate defaults of the coercion. */
  lemma NormalizeDefaults(raw: RawRow)
    requires Convertible(raw)
    ensures raw.price.Value? ==> NormalizeRow(raw).value.price == raw.price.v
    ensures !raw.price.Value? ==> NormalizeRow(raw).value.price == 0.0
    ensures raw.reviewsPerMonth.Value? ==> NormalizeRow(raw).value.reviewsPerMonth == raw.reviewsPerMonth.v
    ensures raw.reviewsPerMonth.Missing? ==> NormalizeRow(raw).value.reviewsPerMonth == 0.0
  {
  }

  /**
   * The whole "Clean Data" step. The conversions work column by column on
   * the whole table, so one bad cell in a raising column makes the step fail
   * for every row.
   */
  function CleanData(raws: seq<RawRow>): (r: Option<seq<Row>>)
    ensures r.Some? <==> forall i :: 0 <= i < |raws| ==> Convertible(raws[i])
    ensures r.Some? ==>
      && |r.value| == |raws|
      && forall i :: 0 <= i < |raws| ==> NormalizeRow(raws[i]) == Some(r.value[i])
    decreases |raws|
  {
    if raws == [] then Some([])
    else
      var front := CleanData(raws[..|raws| - 1]);
      var last := NormalizeRow(raws[|raws| - 1]);
      if front.Some? && last.Some? then Some(front.value + [last.value]) else None
  }

  function HostOf(r: Row): HostRow {
    HostRow(r.hostId, r.hostName, r.listingsCount)
  }

  function LocKeyOf(r: Row): LocKey {
    LocKey(r.neighbourhood, r.latitude, r.longitude, r.city)
  }

  function RevKeyOf(r: Row): RevKey {
    RevKey(r.numberOfReviews, r.reviewsLtm, r.reviewsPerMonth)
  }

  /** The tuple for one row, with the resolved location and review ids. */
  function AccommodationOf(r: Row, locationId: int, reviewId: int): Accommodation {
    Accommodation(r.accommodationId, r.hostId, r.name, r.roomType, r.price,
                  r.minimumNights, r.availability365, locationId, reviewId)
  }

  /** Column projections of the table, in row order. */
  function HostsOf(rows: seq<Row>): (hs: seq<HostRow>)
    ensures |hs| == |rows| && forall i :: 0 <= i < |rows| ==> hs[i] == HostOf(rows[i])
  {
    seq(|rows|, i requires 0 <= i < |rows| => HostOf(rows[i]))
  }

  function LocKeysOf(rows: seq<Row>): (ks: seq<LocKey>)
    ensures |ks| == |rows| && forall i :: 0 <= i < |rows| ==> ks[i] == LocKeyOf(rows[i])
  {
    seq(|rows|, i requires 0 <= i < |rows| => LocKeyOf(rows[i]))
  }

  function RevKeysOf(rows: seq<Row>): (ks: seq<RevKey>)
    ensures |ks| == |rows| && forall i :: 0 <= i < |rows| ==> ks[i] == RevKeyOf(rows[i])
  {
    seq(|rows|, i requires 0 <= i < |rows| => RevKeyOf(rows[i]))
  }
}
