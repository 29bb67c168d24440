/**
 * The map layer's data: the rows with all five map columns present, each
 * given the same marker icon, and the choice between a map and the
 * "no events" message.
 */
module GeoMarkers {
  import opened Options
  import opened Sequences
  import opened Events

  /** The icon descriptor every marker carries. */
  datatype Icon = Icon(url: string, width: nat, height: nat, anchorY: nat)

  const MarkerIcon: Icon := Icon("https://img.icons8.com/color/48/null/marker--v1.png", 200, 200, 200)

  /** A row of the map frame: the five map columns and the icon column. */
  datatype MapRow = MapRow(
    title: string,
    addressName: string,
    dateStart: Timestamp,
    latitude: Coord,
    longitude: Coord,
    icon: Option<Icon>)

  /** What the page shows in place of the map. */
  datatype MapView = NoEventsMessage | Chart(rows: seq<MapRow>)

  /**
   * None of the map columns is missing. The title column is text for
   * every row, so only the other four can be missing.
   */
  predicate HasMapFields(e: Event)
  {
    e.addressName.Some? && e.dateStart.Some? && e.latitude.Some? && e.longitude.Some?
  }

  function ToMapRow(e: Event, icon: Option<Icon>): MapRow
    requires HasMapFields(e)
  {
    MapRow(e.title, e.addressName.value, e.dateStart.value, e.latitude.value, e.longitude.value, icon)
  }

  /** The map frame as a value: the complete rows, in order, each with the marker icon. */
  function MarkerRows(df: seq<Event>): (rows: seq<MapRow>)
    ensures |rows| == |Filter(HasMapFields, df)|
  {
    var kept := Filter(HasMapFields, df);
    seq(|kept|, i requires 0 <= i < |kept| => ToMapRow(kept[i], Some(MarkerIcon)))
  }

  /**
   * Selects the complete rows with an empty icon column, then writes the
   * icon into the rows one index at a time.
   */
  method GeoPlotting(df: seq<Event>) returns (rows: seq<MapRow>)
    ensures rows == MarkerRows(df)
    ensures forall r <- rows :: r.icon == Some(MarkerIcon)
    ensures forall r <- rows :: exists e <- df :: HasMapFields(e) && r == ToMapRow(e, Some(MarkerIcon))
  {
    var kept := Filter(HasMapFields, df);
    var frame := new MapRow[|kept|](i requires 0 <= i < |kept| => ToMapRow(kept[i], None));
    for i := 0 to frame.Length
      invariant forall k :: 0 <= k < i ==> frame[k] == ToMapRow(kept[k], Some(MarkerIcon))
      invariant forall k :: i <= k < frame.Length ==> frame[k] == ToMapRow(kept[k], None)
    {
      frame[i] := frame[i].(icon := Some(MarkerIcon));
    }
    rows := frame[..];
    assert forall k :: 0 <= k < |rows| ==> kept[k] in kept;
  }

  /** Complete rows become markers and incomplete ones do not, in the order of the frame. */
  lemma {:induction false} MarkersAreCompleteRows(df: seq<Event>)
    ensures |MarkerRows(df)| <= |df|
    ensures SubseqOf(Filter(HasMapFields, df), df)
    ensures forall e :: multiset(Filter(HasMapFields, df))[e] == if HasMapFields(e) then multiset(df)[e] else 0
    ensures forall e <- df :: HasMapFields(e) ==> ToMapRow(e, Some(MarkerIcon)) in MarkerRows(df)
    ensures (forall e <- df :: !HasMapFields(e)) ==> MarkerRows(df) == []
  {
    FilterIsSubseq(HasMapFields, df);
    FilterCount(HasMapFields, df);
    var kept := Filter(HasMapFields, df);
    forall e <- df | HasMapFields(e)
      ensures ToMapRow(e, Some(MarkerIcon)) in MarkerRows(df)
    {
      var k :| 0 <= k < |kept| && kept[k] == e;
      assert MarkerRows(df)[k] == ToMapRow(e, Some(MarkerIcon));
    }
    if forall e <- df :: !HasMapFields(e) {
      if kept != [] {
        assert kept[0] in kept;
      }
    }
  }

  /**
   * The map area: an empty filtered frame shows the "no events" message;
   * any other frame is drawn as a map, possibly with no marker at all.
   */
  method ShowMap(filtered: seq<Event>) returns (view: MapView)
    ensures view.NoEventsMessage? <==> |filtered| == 0
    ensures view.Chart? ==> view.rows == MarkerRows(filtered)
  {
    if |filtered| == 0 {
      view := NoEventsMessage;
    } else {
      var rows := GeoPlotting(filtered);
      view := Chart(rows);
    }
  }
}
