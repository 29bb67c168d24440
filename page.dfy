/**
 * One run of the page: the events frame built from the fetched records,
 * filtered by the user's selections, shown as a table and as a map.
 */
module Page {
  import opened Options
  import opened Text
  import opened Events
  import opened Normalization
  import opened Filtering
  import opened Display
  import opened GeoMarkers

  method ShowPage(raws: seq<RawRecord>, spec: FilterSpec) returns (table: seq<DisplayRow>, view: MapView)
    ensures table == DfDisplaying(Filtered(spec, GetParisData(raws)))
    ensures view.NoEventsMessage? <==> Filtered(spec, GetParisData(raws)) == []
    ensures view.NoEventsMessage? <==> table == []
    ensures view.Chart? ==> view.rows == MarkerRows(Filtered(spec, GetParisData(raws)))
    ensures forall row <- table :: row.arrondissement.Some? && IsParisCode(row.arrondissement.value)
    ensures forall row <- table :: row.startDate.Some?
  {
    var parisData := GetParisData(raws);
    var filtered := DfFiltering(parisData, spec);
    table := DfDisplaying(filtered);
    view := ShowMap(filtered);
    forall row <- table
      ensures row.arrondissement.Some? && IsParisCode(row.arrondissement.value) && row.startDate.Some?
    {
      var e :| e in filtered && row == ToDisplayRow(e);
      assert WellFormed(e);
    }
  }

  /**
   * Coordinates reach the map unswapped: a record with `lat_lon` and a
   * venue name that survives the gate and the selections is drawn at the
   * first element of its pair as latitude and the second as longitude.
   */
  lemma MarkerCoordinates(raws: seq<RawRecord>, spec: FilterSpec, i: nat)
    requires i < |raws|
    requires raws[i].latLon.Some? && raws[i].addressName.Some?
    requires Retained(NormalizeRecord(raws[i]))
    requires Passes(spec, NormalizeRecord(raws[i]))
    ensures exists m <- MarkerRows(Filtered(spec, GetParisData(raws))) ::
      && m.latitude == raws[i].latLon.value.lat
      && m.longitude == raws[i].latLon.value.lon
      && m.title == raws[i].title
      && m.addressName == raws[i].addressName.value
  {
    var e := NormalizeRecord(raws[i]);
    assert e in GetParisData(raws);
    assert e in Filtered(spec, GetParisData(raws));
    MarkersAreCompleteRows(Filtered(spec, GetParisData(raws)));
    assert ToMapRow(e, Some(MarkerIcon)) in MarkerRows(Filtered(spec, GetParisData(raws)));
  }
}
