/**
 * The table projection: eight renamed columns, dates truncated to calendar
 * dates, rows ordered by end date.
 */
module Display {
  import opened Options
  import opened Events

  /** One row of the displayed table, its columns in display order. */
  datatype DisplayRow = DisplayRow(
    eventName: string,
    address: Option<string>,
    arrondissement: Option<string>,
    startDate: Option<int>,
    endDate: Option<int>,
    description: Option<string>,
    pricing: Option<string>,
    link: Option<string>)

  /** Column selection and renaming for one event; start and end keep only their date. */
  function ToDisplayRow(e: Event): DisplayRow
  {
    DisplayRow(
      eventName := e.title,
      address := e.addressName,
      arrondissement := e.addressZipcode,
      startDate := DateOf(e.dateStart),
      endDate := DateOf(e.dateEnd),
      description := e.description,
      pricing := e.priceType,
      link := e.url)
  }

  /** Ascending order on end dates; a missing end date sorts after every present one. */
  predicate EndDateLe(a: Option<int>, b: Option<int>)
  {
    match (a, b)
    case (_, None) => true
    case (None, Some(_)) => false
    case (Some(x), Some(y)) => x <= y
  }

  predicate SortedByEndDate(rows: seq<DisplayRow>)
  {
    forall i, j :: 0 <= i < j < |rows| ==> EndDateLe(rows[i].endDate, rows[j].endDate)
  }

  /** Inserts `row` into sorted `rows` before the first row whose end date is not earlier. */
  function Insert(row: DisplayRow, rows: seq<DisplayRow>): (r: seq<DisplayRow>)
    requires SortedByEndDate(rows)
    ensures SortedByEndDate(r)
    ensures multiset(r) == multiset(rows) + multiset{row}
    decreases |rows|
  {
    if rows == [] then [row]
    else if EndDateLe(row.endDate, rows[0].endDate) then [row] + rows
    else
      var rest := Insert(row, rows[1..]);
      assert rows == [rows[0]] + rows[1..];
      assert forall j :: 0 <= j < |rest| ==> EndDateLe(rows[0].endDate, rest[j].endDate) by {
        forall j | 0 <= j < |rest|
          ensures EndDateLe(rows[0].endDate, rest[j].endDate)
        {
          assert rest[j] in multiset(rest);
          if rest[j] != row {
            assert rest[j] in multiset(rows[1..]);
            var k :| 0 <= k < |rows[1..]| && rows[1..][k] == rest[j];
            assert rows[k + 1] == rest[j];
          }
        }
      }
      [rows[0]] + rest
  }

  /** Insertion sort by end date. */
  function SortByEndDate(rows: seq<DisplayRow>): (r: seq<DisplayRow>)
    ensures SortedByEndDate(r)
    ensures multiset(r) == multiset(rows)
    decreases |rows|
  {
    if rows == [] then []
    else
      assert rows == [rows[0]] + rows[1..];
      Insert(rows[0], SortByEndDate(rows[1..]))
  }

  function Project(df: seq<Event>): (rows: seq<DisplayRow>)
    ensures |rows| == |df|
  {
    seq(|df|, i requires 0 <= i < |df| => ToDisplayRow(df[i]))
  }

  /**
   * The displayed table: one row per event, exactly the projected rows
   * rearranged, in ascending end-date order.
   */
  function DfDisplaying(df: seq<Event>): (rows: seq<DisplayRow>)
    ensures SortedByEndDate(rows)
    ensures multiset(rows) == multiset(Project(df))
    ensures |rows| == |df|
    ensures forall row <- rows :: exists e <- df :: row == ToDisplayRow(e)
  {
    var projected := Project(df);
    var rows := SortByEndDate(projected);
    assert |multiset(rows)| == |multiset(projected)|;
    assert forall row <- rows :: exists e <- df :: row == ToDisplayRow(e) by {
      forall row <- rows
        ensures exists e <- df :: row == ToDisplayRow(e)
      {
        assert row in multiset(projected);
        var i :| 0 <= i < |projected| && projected[i] == row;
        assert df[i] in df;
      }
    }
    rows
  }

  /** An empty selection gives an empty table, not a failure. */
  lemma EmptyTable()
    ensures DfDisplaying([]) == []
  {
  }
}
