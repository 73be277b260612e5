/** Rows of the notification feeds and their ordering.

    Both revisions of the service answer a feed request with a list of rows
    of the same shape, ordered by `sorted(rows, key=dateTime, reverse=True)`.
    The model states the order by dateTime and that no row is added or
    lost; the relative order of rows with equal dateTime is not stated. */
module Feed {

  /** One notification row. `userRef` is the user whose name the row shows
      (the display join itself is not modelled). */
  datatype Row = Row(
    notiId: string, dateTime: int, amount: nat, lockId: string,
    lockLocation: string, lockName: string, userRef: string)

  predicate SortedByDateDesc(rows: seq<Row>) {
    forall i, j :: 0 <= i < j < |rows| ==> rows[i].dateTime >= rows[j].dateTime
  }

  /** Inserts `x` in front of the first row that is not newer than it. */
  function Insert(x: Row, rows: seq<Row>): (r: seq<Row>)
    requires SortedByDateDesc(rows)
    ensures SortedByDateDesc(r)
    ensures multiset(r) == multiset(rows) + multiset{x}
    ensures |r| == |rows| + 1
    ensures r[0] == x || (rows != [] && r[0] == rows[0])
  {
    if rows == [] || rows[0].dateTime <= x.dateTime then [x] + rows
    else
      assert rows == [rows[0]] + rows[1..];
      var t := Insert(x, rows[1..]);
      assert rows[0].dateTime >= t[0].dateTime;
      [rows[0]] + t
  }

  /** `sorted(rows, key=lambda x: x['dateTime'], reverse=True)`. */
  function SortByDateDesc(rows: seq<Row>): (r: seq<Row>)
    ensures SortedByDateDesc(r)
    ensures multiset(r) == multiset(rows)
  {
    if rows == [] then []
    else
      assert rows == [rows[0]] + rows[1..];
      Insert(rows[0], SortByDateDesc(rows[1..]))
  }

  /** Sorting neither adds nor drops rows. */
  lemma SortKeepsRows(rows: seq<Row>, x: Row)
    ensures x in SortByDateDesc(rows) <==> x in rows
    ensures |SortByDateDesc(rows)| == |rows|
  {
    var r := SortByDateDesc(rows);
    assert x in r <==> x in multiset(r);
    assert x in rows <==> x in multiset(rows);
    assert |r| == |multiset(r)| == |multiset(rows)| == |rows|;
  }
}
