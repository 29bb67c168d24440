# Paris events aggregator — a Dafny model of its data shaping

The application fetches the "Que faire à Paris" events catalogue from the
Paris open-data portal and turns it into a normalised events frame. The
user narrows that frame by category, arrondissement, day and venue. The
result is shown as a table sorted by end date and as a map with one icon
per located event. This project models that data shaping as operations
over sequences of records:

- `Normalization` models `get_paris_data`. It splits the `;`-separated
  tags into slots 1, 2 and 5 and splits `lat_lon` into latitude and
  longitude. It renames `lead_text` to `description`, cleans the postal
  code and infers the `payant` price type. A gate then drops every record
  that lacks `tag1`, `date_start` or a cleaned postal code.
- `Filtering` models `df_filtering`. The selections that the application
  keeps in globals are passed in as a `FilterSpec` value. The method
  `DfFiltering` narrows the frame stage by stage, as the source does, and
  is proved equal to one filter by the conjunction `Passes`.
- `Display` models `df_displaying`: eight renamed columns, dates cut to
  calendar dates, and rows sorted by end date.
- `GeoMarkers` models `geo_plotting`'s row selection and its loop, which
  writes the icon descriptor into each row of an array. It also models the
  choice between a map and the "no events" message.
- `Page` models one run of the page: build, filter, show the table, show
  the map.
- `Sequences` and `Text` hold the supporting operations: row masks,
  splitting, the postal-code pattern and case-insensitive search.

Timestamps are a day number plus a time of day; a calendar date is the day
number. Coordinates are opaque values that are carried along and never
computed on. A missing value in the frame is `None`.

The model follows the code in these details:
- Postal-code cleaning removes only the space character. Other whitespace
  is not removed.
- The gate requires `date_start` but not `date_end`. A missing end date
  therefore reaches the filter, where it fails the single-day criterion,
  and the table, where it sorts last.
- The `date_description` and `lat_lon` columns stay in the events frame.
- The end-date sort is not stable, so only order and permutation are
  stated.

One exception: when a record lacks `lat_lon`, the source fails, and the
model gives that record missing coordinates instead (see "## Left out").

## Model

| member | source | states |
|---|---|---|
| Sequences.FilterCount | paris_events_app.py:35 | a row mask keeps every copy of a row that passes and no copy of a row that fails |
| Text.JoinSplit | paris_events_app.py:24 | splitting the tag string on `;` loses nothing: joining the segments with `;` gives back the string |
| Text.SplitJoin | paris_events_app.py:24 | segments free of `;` come back unchanged from a join followed by a split |
| Text.ExtractParisCode | paris_events_app.py:31 | the result exists iff some position matches `75[0-9]{3}`; it is that match at the leftmost matching position and it is a 5-character Paris code |
| Text.ContainsIgnoreCase | paris_events_app.py:57 | true iff the lower-cased venue text occurs somewhere in the lower-cased venue name |
| Normalization.CleanZipcode | paris_events_app.py:31 | a cleaned code is always `75` plus three digits; one exists iff the value is present and its space-free form contains a match; the code occurs in that space-free form |
| Normalization.InferPriceType | paris_events_app.py:33 | missing type with a present detail gives `payant`; a present type is kept; the result is missing iff both type and detail are missing |
| Normalization.GetParisData | paris_events_app.py:19-36 | no more events than records; every event has `tag1`, `date_start` and a Paris code, and a price type whenever it has a price detail; every event is the normalisation of some record; each normalised record that passes the gate is kept as many times as it occurs, and one that fails is not kept at all |
| Normalization.NormalizationIsSubsequence | paris_events_app.py:35 | the events are an order-preserving subsequence of the normalised records |
| Normalization.RetainedIff | paris_events_app.py:24-35 | a record survives iff it has tags, a start date and a postal code whose space-free form contains a Paris code |
| Normalization.TagSlotsOfJoinedTags | paris_events_app.py:24-27 | for tags made of `;`-free segments, `tag1`, `tag2`, `tag5` are segments 1, 2, 5, and missing when there are fewer segments |
| Normalization.TrailingSpaceExample | paris_events_app.py:31 | `"75011 "` cleans to `"75011"` |
| Normalization.ConcertExample | paris_events_app.py:24-35 | the record with tags `Concert;Musique`, code `"75011 "`, no price type and a price detail becomes an event with tag1 `Concert`, tag2 `Musique`, code `75011`, price type `payant`, and passes the gate |
| Filtering.DfFiltering | paris_events_app.py:45-58 | the four conditional stages together keep exactly the rows that pass every selected criterion, each with all its copies, in order; the result is the one-pass filter by `Passes` |
| Filtering.FilteredIsSubsequence | paris_events_app.py:45-58 | the filtered rows are an order-preserving subsequence of the input |
| Filtering.NoCriteriaKeepsAll | paris_events_app.py:45-58 | with no categories, no postcodes, the single-day switch off and empty venue text, the result equals the input |
| Filtering.FilteredIdempotent | paris_events_app.py:45-58 | filtering twice with the same selections equals filtering once |
| Filtering.CategoryMonotone | paris_events_app.py:46-47 | adding a category to a non-empty selection keeps every row kept before, in order, so the result never shrinks |
| Filtering.FirstCategoryCanShrink | paris_events_app.py:46-49 | from an empty selection, selecting category `c` drops a well-formed row whose tag1 is another category and whose tag2 is missing, so the non-empty condition above is needed |
| Filtering.CategoryMatchesEitherSlot | paris_events_app.py:47 | with categories `{Concert}`, a row with tag1 `Concert` and a row with tag2 `Concert` are both kept |
| Filtering.MissingFieldsNeverMatch | paris_events_app.py:54-57 | a missing end date fails the single-day criterion; a missing venue name fails the venue criterion |
| Display.SortByEndDate | paris_events_app.py:75 | the result is ordered by end date, with missing dates last, and is a permutation of its input |
| Display.DfDisplaying | paris_events_app.py:60-77 | one row per event; the rows are exactly the projected eight-column rows, with start and end cut to calendar dates, rearranged in end-date order |
| Display.EmptyTable | paris_events_app.py:60-77 | an empty frame gives an empty table |
| GeoMarkers.GeoPlotting | paris_events_app.py:89-94 | the icon loop leaves the map frame equal to the complete rows, in order, each carrying the one fixed icon descriptor |
| GeoMarkers.MarkersAreCompleteRows | paris_events_app.py:80-90 | the complete rows are an ordered subsequence of the frame that keeps every copy of each complete row and no incomplete row; every complete row gets a marker; a frame with no complete row gives no markers |
| GeoMarkers.ShowMap | paris_events_app.py:163-167 | the "no events" message is shown iff the filtered frame is empty; otherwise the map shows the marker rows |
| Page.MarkerCoordinates | paris_events_app.py:89-102 | a record with `lat_lon` and a venue name that passes the gate and the selections has a marker whose latitude is the first element of its pair (line 25) and whose longitude is the second, with its title and venue name |
| Page.ShowPage | paris_events_app.py:154-167 | the table and map come from the normalised data filtered once; the message appears iff the table is empty; every table row has a start date and a Paris arrondissement code |

## Left out

- Fetching the catalogue, building the query URL and flattening each record's nested `fields` object (paris_events_app.py:13-21). This is network I/O. The model starts from the flattened records restricted to the selected columns.
- `pd.to_datetime` parsing of the date strings and the `astype(str)` coercion of titles. Dates arrive already parsed, titles arrive as text.
- The `astype('category')` casts. They change the storage type only.
- `load_lottieurl` and the animation it fetches. This is network I/O for decoration.
- All page widgets: layout, texts, the multiselect option lists (sorted unique `tag1` and postal codes), the checkbox, the date picker, table and chart rendering, and the credits.
- The map view state, the layer and deck construction, and the tooltip HTML. These are rendering calls; only the rows given to them are modelled.
- Coordinates are opaque values, not floating-point numbers.
- Normalization.NormalizeRecord: tag slots are computed per record. pandas sizes the split frame by the longest tag list in the whole catalogue. Extra slots beyond the fifth would stay as unnamed columns. If no record had four segments, dropping `tag3`/`tag4` would raise an error. Neither effect is modelled.
- Normalization.NormalizeRecord: a record without `lat_lon` makes the source fail, and the model does not reproduce that failure. At paris_events_app.py:25 the list of pairs then also holds a missing value. pandas raises on that list: it cannot take the length of a missing value in a list of rows, and a single column clashes with the two column names. `get_paris_data` then raises and the page does not load. The model gives such a record missing latitude and longitude instead.
- Normalization.GetParisData: an empty record list also makes the source fail, because the `fields` column does not exist. The model returns an empty events frame.
- Text.ContainsIgnoreCase: the venue text is matched as a literal substring. Case is folded for ASCII letters only. pandas treats the text as a regular expression with Unicode case-insensitive matching.
- Display.SortByEndDate: states only the order and the permutation. The order of rows with equal end dates is not specified, because pandas' default sort is not stable. The table index on the event name is not modelled separately; the name is the first column of every row.
