/**
 * The normalisation chain that turns catalogue records into the events
 * frame: tag slots, coordinate decomposition, renaming, postal-code
 * cleaning, price inference and the final validation gate.
 */
module Normalization {
  import opened Options
  import opened Sequences
  import opened Text
  import opened Events

  /** The price category inferred for a record that gives a price detail but no price type. */
  const Paid: string := "payant"

  /** Slot `i` (from 0) of the `;`-separated tag list. */
  function TagSlot(tags: Option<string>, i: nat): Option<string>
  {
    Segment(tags, ';', i)
  }

  /**
   * Postal-code cleaning: remove the spaces, then keep the first match of
   * `75[0-9]{3}`; a missing value or a value without a match gives None.
   */
  function CleanZipcode(z: Option<string>): (r: Option<string>)
    ensures r.Some? ==> IsParisCode(r.value)
    ensures r.Some? <==> z.Some? && exists i: nat :: MatchesAt(RemoveSpaces(z.value), i)
    ensures r.Some? ==> exists i: nat :: OccursAt(RemoveSpaces(z.value), r.value, i)
  {
    match z
    case None => None
    case Some(s) =>
      var t := RemoveSpaces(s);
      var r := ExtractParisCode(t);
      assert r.Some? ==> exists i: nat :: OccursAt(t, r.value, i) by {
        if r.Some? {
          var i: nat :| MatchesAt(t, i) && r.value == t[i..i + 5];
          assert OccursAt(t, r.value, i);
        }
      }
      r
  }

  /** Price inference: no price type but a price detail means the event is paid. */
  function InferPriceType(priceType: Option<string>, priceDetail: Option<string>): (r: Option<string>)
    ensures priceType.None? && priceDetail.Some? ==> r == Some(Paid)
    ensures priceType.Some? ==> r == priceType
    ensures r.None? <==> priceType.None? && priceDetail.None?
  {
    if priceType.None? && priceDetail.Some? then Some(Paid) else priceType
  }

  /** The per-record part of the chain, before the validation gate. */
  function NormalizeRecord(r: RawRecord): Event
  {
    Event(
      title := r.title,
      dateStart := r.dateStart,
      dateEnd := r.dateEnd,
      updatedAt := r.updatedAt,
      dateDescription := r.dateDescription,
      description := r.leadText,
      url := r.url,
      addressZipcode := CleanZipcode(r.addressZipcode),
      addressName := r.addressName,
      addressStreet := r.addressStreet,
      latLon := r.latLon,
      priceType := InferPriceType(r.priceType, r.priceDetail),
      priceDetail := r.priceDetail,
      tag1 := TagSlot(r.tags, 0),
      tag2 := TagSlot(r.tags, 1),
      tag5 := TagSlot(r.tags, 4),
      latitude := if r.latLon.Some? then Some(r.latLon.value.lat) else None,
      longitude := if r.latLon.Some? then Some(r.latLon.value.lon) else None)
  }

  /** The validation gate: rows missing `tag1`, `date_start` or a cleaned postal code are dropped. */
  predicate Retained(e: Event)
  {
    e.tag1.Some? && e.dateStart.Some? && e.addressZipcode.Some?
  }

  /** What every row of the events frame satisfies. */
  predicate WellFormed(e: Event)
  {
    && Retained(e)
    && IsParisCode(e.addressZipcode.value)
    && (e.priceDetail.Some? ==> e.priceType.Some?)
  }

  function NormalizeAll(raws: seq<RawRecord>): (es: seq<Event>)
    ensures |es| == |raws|
  {
    seq(|raws|, i requires 0 <= i < |raws| => NormalizeRecord(raws[i]))
  }

  /** The whole chain over the fetched records. */
  function GetParisData(raws: seq<RawRecord>): (events: seq<Event>)
    ensures |events| <= |raws|
    ensures forall e <- events :: WellFormed(e)
    ensures forall e <- events :: exists i :: 0 <= i < |raws| && e == NormalizeRecord(raws[i])
    ensures forall i :: 0 <= i < |raws| && Retained(NormalizeRecord(raws[i])) ==> NormalizeRecord(raws[i]) in events
    ensures forall e :: multiset(events)[e] == if Retained(e) then multiset(NormalizeAll(raws))[e] else 0
  {
    var all := NormalizeAll(raws);
    assert forall i :: 0 <= i < |raws| ==> all[i] == NormalizeRecord(raws[i]);
    FilterCount(Retained, all);
    Filter(Retained, all)
  }

  /** Normalisation only drops records: the events keep the order of the records they come from. */
  lemma NormalizationIsSubsequence(raws: seq<RawRecord>)
    ensures SubseqOf(GetParisData(raws), NormalizeAll(raws))
  {
    FilterIsSubseq(Retained, NormalizeAll(raws));
  }

  /** The gate, stated on the raw record: a record survives iff it has tags, a start date and a Paris code. */
  lemma RetainedIff(r: RawRecord)
    ensures Retained(NormalizeRecord(r)) <==>
      && r.tags.Some?
      && r.dateStart.Some?
      && r.addressZipcode.Some?
      && exists i: nat :: MatchesAt(RemoveSpaces(r.addressZipcode.value), i)
  {
  }

  /** `tag1`, `tag2` and `tag5` are segments 1, 2 and 5 of the `;`-separated tag list. */
  lemma {:induction false} TagSlotsOfJoinedTags(r: RawRecord, parts: seq<string>)
    requires |parts| >= 1 && forall p <- parts :: ';' !in p
    requires r.tags == Some(Join(parts, ';'))
    ensures NormalizeRecord(r).tag1 == Some(parts[0])
    ensures NormalizeRecord(r).tag2 == if |parts| > 1 then Some(parts[1]) else None
    ensures NormalizeRecord(r).tag5 == if |parts| > 4 then Some(parts[4]) else None
  {
    SplitJoin(parts, ';');
  }

  /** Spaces are removed before the pattern is searched, so a trailing space is harmless. */
  lemma TrailingSpaceExample()
    ensures CleanZipcode(Some("75011 ")) == Some("75011")
  {
    var code, space := "75011", " ";
    assert "75011 " == code + space;
    FilterConcat(NotSpace, code, space);
    FilterAllPass(NotSpace, code);
    assert space[1..] == [];
    assert RemoveSpaces("75011 ") == code;
    assert code[0..5] == code;
    assert MatchesAt("75011", 0);
  }

  /** Tags that carry exactly two segments fill `tag1` and `tag2` and leave `tag5` missing. */
  lemma ConcertTagsExample()
    ensures TagSlot(Some("Concert;Musique"), 0) == Some("Concert")
    ensures TagSlot(Some("Concert;Musique"), 1) == Some("Musique")
    ensures TagSlot(Some("Concert;Musique"), 4) == None
  {
    var parts := ["Concert", "Musique"];
    assert Join(parts, ';') == "Concert;Musique";
    SplitJoin(parts, ';');
  }

  /** A concert record with a trailing space in its postal code and a price detail but no price type. */
  lemma ConcertExample(r: RawRecord)
    requires r.tags == Some("Concert;Musique")
    requires r.dateStart.Some?
    requires r.addressZipcode == Some("75011 ")
    requires r.priceType == None && r.priceDetail == Some("10€")
    ensures NormalizeRecord(r).tag1 == Some("Concert")
    ensures NormalizeRecord(r).tag2 == Some("Musique")
    ensures NormalizeRecord(r).addressZipcode == Some("75011")
    ensures NormalizeRecord(r).priceType == Some(Paid)
    ensures Retained(NormalizeRecord(r))
  {
    TrailingSpaceExample();
    ConcertTagsExample();
  }
}
