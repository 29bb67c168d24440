/**
 * The filter engine: a conjunction of four optional criteria over the
 * events frame. The selections the page collects are passed in as one
 * `FilterSpec` value.
 */
module Filtering {
  import opened Options
  import opened Sequences
  import opened Text
  import opened Events
  import opened Normalization

  /**
   * The user's selections: categories, postal codes, the single-day switch
   * with its date (a day number), and the venue text.
   */
  datatype FilterSpec = FilterSpec(
    tags: set<string>,
    postcodes: set<string>,
    oneDate: bool,
    date: int,
    venue: string)

  /** `tag1` or `tag2` is one of the selected categories. */
  predicate InCategories(e: Event, tags: set<string>)
  {
    (e.tag1.Some? && e.tag1.value in tags) || (e.tag2.Some? && e.tag2.value in tags)
  }

  /** The postal code is one of the selected ones. */
  predicate InPostcodes(e: Event, postcodes: set<string>)
  {
    e.addressZipcode.Some? && e.addressZipcode.value in postcodes
  }

  /** The event runs on day `d`: its start date is on or before it, its end date on or after it. */
  predicate OnDay(e: Event, d: int)
  {
    DateOf(e.dateStart).Some? && DateOf(e.dateEnd).Some? &&
    DateOf(e.dateStart).value <= d <= DateOf(e.dateEnd).value
  }

  /** The venue name contains `venue`, ignoring case; a missing venue name never matches. */
  predicate AtVenue(e: Event, venue: string)
  {
    e.addressName.Some? && ContainsIgnoreCase(e.addressName.value, venue)
  }

  /** A row passes when every criterion that is switched on holds of it. */
  predicate Passes(spec: FilterSpec, e: Event)
  {
    && (spec.tags != {} ==> InCategories(e, spec.tags))
    && (spec.postcodes != {} ==> InPostcodes(e, spec.postcodes))
    && (spec.oneDate ==> OnDay(e, spec.date))
    && (spec.venue != "" ==> AtVenue(e, spec.venue))
  }

  /** The rows that pass, in their original order. */
  function Filtered(spec: FilterSpec, df: seq<Event>): seq<Event>
  {
    Filter(e => Passes(spec, e), df)
  }

  /**
   * The filter engine as the page runs it: the frame is narrowed stage by
   * stage, each stage applied only when its selection is non-empty.
   */
  method DfFiltering(df: seq<Event>, spec: FilterSpec) returns (r: seq<Event>)
    ensures r == Filtered(spec, df)
    ensures forall e <- r :: Passes(spec, e) && e in df
    ensures forall e <- df :: Passes(spec, e) ==> e in r
    ensures forall e :: multiset(r)[e] == if Passes(spec, e) then multiset(df)[e] else 0
    ensures |r| <= |df|
  {
    var s0 := spec.(postcodes := {}, oneDate := false, venue := "");
    var s1 := spec.(oneDate := false, venue := "");
    var s2 := spec.(venue := "");
    r := df;
    if spec.tags != {} {
      r := Filter(e => InCategories(e, spec.tags), r);
      FilterExtensional(e => InCategories(e, spec.tags), e => Passes(s0, e), df);
    } else {
      FilterAllPass(e => Passes(s0, e), df);
    }
    assert r == Filtered(s0, df);
    if spec.postcodes != {} {
      r := Filter(e => InPostcodes(e, spec.postcodes), r);
      FilterCompose(e => Passes(s0, e), e => InPostcodes(e, spec.postcodes), e => Passes(s1, e), df);
    }
    assert r == Filtered(s1, df);
    if spec.oneDate {
      r := Filter(e => OnDay(e, spec.date), r);
      FilterCompose(e => Passes(s1, e), e => OnDay(e, spec.date), e => Passes(s2, e), df);
    }
    assert r == Filtered(s2, df);
    if spec.venue != "" {
      r := Filter(e => AtVenue(e, spec.venue), r);
      FilterCompose(e => Passes(s2, e), e => AtVenue(e, spec.venue), e => Passes(spec, e), df);
    }
    FilterCount(e => Passes(spec, e), df);
  }

  /** Filtering never adds or reorders rows. */
  lemma FilteredIsSubsequence(spec: FilterSpec, df: seq<Event>)
    ensures SubseqOf(Filtered(spec, df), df)
  {
    FilterIsSubseq(e => Passes(spec, e), df);
  }

  /** With every criterion off, the frame comes back unchanged. */
  lemma NoCriteriaKeepsAll(df: seq<Event>, date: int)
    ensures Filtered(FilterSpec({}, {}, false, date, ""), df) == df
  {
    FilterAllPass(e => Passes(FilterSpec({}, {}, false, date, ""), e), df);
  }

  /** Filtering an already filtered frame with the same selections changes nothing. */
  lemma FilteredIdempotent(spec: FilterSpec, df: seq<Event>)
    ensures Filtered(spec, Filtered(spec, df)) == Filtered(spec, df)
  {
    FilterAllPass(e => Passes(spec, e), Filtered(spec, df));
  }

  /**
   * Adding a category to a non-empty category selection never removes a
   * row: the old result is an ordered subsequence of the new one.
   */
  lemma CategoryMonotone(spec: FilterSpec, df: seq<Event>, c: string)
    requires spec.tags != {}
    ensures SubseqOf(Filtered(spec, df), Filtered(spec.(tags := spec.tags + {c}), df))
    ensures |Filtered(spec, df)| <= |Filtered(spec.(tags := spec.tags + {c}), df)|
  {
    var wider := spec.(tags := spec.tags + {c});
    FilterMonotone(e => Passes(spec, e), e => Passes(wider, e), df);
  }

  /**
   * The non-empty selection matters: from an empty selection, choosing a
   * category drops a well-formed row whose only tag is another category.
   */
  lemma FirstCategoryCanShrink(e: Event, c: string, d: string)
    requires WellFormed(e) && e.tag1 == Some(d) && e.tag2.None? && c != d
    ensures Filtered(FilterSpec({}, {}, false, 0, ""), [e]) == [e]
    ensures Filtered(FilterSpec({c}, {}, false, 0, ""), [e]) == []
  {
  }

  /** A category matches through `tag1` as well as through `tag2`. */
  lemma CategoryMatchesEitherSlot(e1: Event, e2: Event)
    requires e1.tag1 == Some("Concert") && e2.tag2 == Some("Concert")
    ensures Filtered(FilterSpec({"Concert"}, {}, false, 0, ""), [e1, e2]) == [e1, e2]
  {
    FilterAllPass(e => Passes(FilterSpec({"Concert"}, {}, false, 0, ""), e), [e1, e2]);
  }

  /** A missing end date fails the single-day criterion; a missing venue name fails the venue criterion. */
  lemma MissingFieldsNeverMatch(spec: FilterSpec, e: Event)
    ensures spec.oneDate && e.dateEnd.None? ==> !Passes(spec, e)
    ensures spec.venue != "" && e.addressName.None? ==> !Passes(spec, e)
  {
  }
}
