# AfterShip tracking narration — a Dafny model

This project models the core of an Alexa skill that reads out AfterShip
parcel trackings. The pipeline:

1. turns a spoken keyword into an AfterShip query (courier slug, status tag or free keyword);
2. normalises each returned tracking;
3. drops the ones filtered out by the note-tagging rule or by the
   "delivered too long ago" rule;
4. folds equivalent trackings into multi-package entries;
5. ranks the entries and cuts them to a count limit;
6. classifies each entry's delivery address as "here", "city, state" or
   "city, country";
7. narrates everything as speech markup (per-package sentences, an
   Oxford-comma summary, `<p>` assembly).

It also emits Alexa proactive "order status" events.

The model covers two variants:

- **The current one** (lambda/aftership.js). It is modelled by the modules
  `AftershipQuery`, `AftershipRecords`, `AftershipSpeech`, `AftershipEvents`
  and `AftershipClient`.
- **The older one** (lambda/custom/aftership.js). It has:
  - a PascalCase tag lookup;
  - first-checkpoint delivery fields with a separate time;
  - day-level grouping that also compares `last_updated`;
  - four status buckets.

  It is modelled by `LegacyQuery`, `LegacyRecords` and `LegacySpeech`.

The speech-markup helpers are `Speech` for lambda/utils.js and `Helpers` for
lambda/custom/helpers.js. The geocode extraction is `Location` for
lambda/location.js and `LegacyLocation` for lambda/custom/location.js. Shared
pieces live in these modules:

- `Strings`: the JavaScript string operations used;
- `Wrappers`: `Option` and JavaScript truthiness of optional strings;
- `Geo`: the geocoder response and location record;
- `Tracking`: status tables, checkpoint location and the address decision table;
- `Clocks`: the moment operations;
- `Ranking`: a rank order and an in-place sort on arrays;
- `Narrative`: the summary dictionary, its sentence and the final assembly.

## How the model is built

**Time.** Timestamps are integers. Every moment-timezone operation the code
calls is a function field of a `Clocks.Clock` value passed in:

- `daysToToday` and `daysFromToday`;
- `diff` in hours and in days;
- `startOf` and `endOf` day;
- `calendar()` and `format('LT')`;
- the current instant and `device.today`.

The proofs hold for every choice of these functions. Where a proof needs a
property of real moments, that property is a named requires, for example
"an instant is zero hours from itself".

**External calls become inputs.** These are:

- the courier list and the listed trackings returned by AfterShip;
- the geocoder, a function from an address string to a fetch outcome;
- the device location;
- the note-tagging regular expression, an abstract predicate;
- the number tagging pass of `formatSpeechMarkup`, an abstract function.

**The imperative parts are methods:**

- The record loops are `CollectTrackings` and `LegacyCollect`.
- The comparator sorts are `SortTrackingsInformation` and `LegacySort`. Both
  are insertion sorts on an array.
- The address passes are `GetTrackingsAddress` and `FormatTrackingsAddress`.
  Each writes `address` into an array.
- The message and summary passes are `NarrateTrackings` and
  `FormatTrackingsList`. Both use `Narrative.CountAndUpdate`.
- The event emitter is `GetTrackingsProactiveEvents`.
- The geocode component loops are `Location.Extract` and
  `LegacyLocation.Extract`.
- The client's `this.query` is a field of the class
  `AftershipClient.AftershipClient`.

Two kinds of method contract are used.

- Some methods are proved equal to a specification function. These are
  `CollectTrackings`, `LegacyCollect`, both `Extract` methods,
  `GetTrackingsAddress`, `FormatTrackingsAddress`, `NarrateTrackings`,
  `FormatTrackingsList` and `GetTrackingsProactiveEvents`. The properties of
  those functions are proved as lemmas.
- The others are proved to satisfy a relation. The sorts
  `SortTrackingsInformation`, `LegacySort` and `Ranking.SortBy` leave the
  array sorted by the comparator and a permutation of its old contents.
  `GetTrackingsInformation`, `GetSpeechOutput`, `GetProactiveEvents`,
  `LegacyTrackingsInformation` and `GenerateTrackingsList` return a selection
  that satisfies `Selected` or `LegacySelected`. Such a selection has as many
  entries as the count limit allows, is drawn from the grouped entries, is
  sorted by the comparator, and no entry left out ranks before one kept. The
  order among entries of equal rank, which the engine's stable sort keeps in
  grouped order, is not claimed.

**Definitions without their own contract.** Several functions define what the
code computes and carry no `ensures`. Their properties are stated by the
lemmas that cite them in the table below:

- `Speech.Encode`, `Decode`, `Format`, `SayAs` and `Strip` (lambda/utils.js:27-82),
  and the same five in `Helpers` (lambda/custom/helpers.js:5-53);
- `AftershipQuery.BuildQuery` (lambda/aftership.js:59-90) and
  `LegacyQuery.FormatTrackingsQuery` with `PascalCase` (lambda/custom/aftership.js:138-172);
- `AftershipRecords.Group` (lambda/aftership.js:178-206) and `LegacyRecords.LegacyGroup`
  (lambda/custom/aftership.js:257-285);
- `AftershipRecords.Compare` (lambda/aftership.js:225-247) and `LegacyRecords.LegacyCompare`
  (lambda/custom/aftership.js:302-324);
- `Tracking.ClassifyAddress` (lambda/aftership.js:263-281);
- `AftershipSpeech.Message` (lambda/aftership.js:307-366) and `LegacySpeech.LegacyMessage`
  (lambda/custom/aftership.js:65-108);
- `Narrative.Tally`, `SummarySentence` and `Compose` (lambda/aftership.js:299-304 and 369-398);
- `AftershipEvents.Events` (lambda/aftership.js:407-467).

## Model

| member | source | states |
|---|---|---|
| Speech.EncodeNoMarkupChars | lambda/utils.js:41-48 | the encoding of any text contains no `<`, `>`, `"` or `'` |
| Speech.EncodeCharwise | lambda/utils.js:41-48 | the five chained replacements equal escaping every character independently, which holds because `&` is replaced first |
| Speech.DecodeEncode | lambda/utils.js:27-48 | decoding the encoding of a text without `&` gives the text back |
| Speech.DecodeEncodeAmpersand | lambda/utils.js:27-48 | the round trip fails with `&`: "&lt;" encodes to "&amp;lt;", which decodes to "<" |
| Speech.SayAsUnchangedIff | lambda/utils.js:5-20 | `sayAsSpeechMarkup(t, k)` returns t unchanged exactly when k is not one of the fourteen supported interpret-as names |
| Speech.StripSayAs | lambda/utils.js:71-82 | stripping the say-as markup of a text without `<` gives the decoded text, for every k |
| Speech.RemoveTagsTag | lambda/utils.js:80-82 | a `<...>` segment with no inner `>` is removed entirely by the tag-stripping pass |
| Speech.RemoveTagsSkip | lambda/utils.js:80-82 | text before the first `<` passes through tag stripping unchanged |
| Speech.SupportedHaveNoAngles | lambda/utils.js:5-20 | no supported interpret-as name contains `>`, so the opening say-as tag is a single tag |
| Speech.EncodeDigitFree | lambda/utils.js:41-48 | encoding a digit-free text adds no digit |
| Speech.FormatDigitFree | lambda/utils.js:55-63 | for digit-free text, `formatSpeechMarkup` is exactly the encoding |
| Helpers.SayAsAgrees | lambda/custom/helpers.js:47-49 | the `indexOf` test gives the same result as the `includes` version, so t is unchanged exactly for unsupported k |
| Helpers.SayAsWraps | lambda/custom/helpers.js:5-13 | for a listed name k, the result is exactly `<say-as interpret-as="k">t</say-as>` |
| Helpers.EncodeNoMarkupChars | lambda/custom/helpers.js:24-31 | the encoding contains no `<`, `>`, `"` or `'` |
| Helpers.DecodeEncode | lambda/custom/helpers.js:15-31 | decoding an encoding returns the original text when it has no `&` |
| Helpers.StripSayAs | lambda/custom/helpers.js:47-53 | stripping undoes the say-as wrapping on `<`-free text, up to decoding |
| Helpers.FormatDigitFree | lambda/custom/helpers.js:33-45 | on digit-free text, formatting equals encoding |
| Geo.LastOfKind | lambda/custom/location.js:41-53 | there is no component of the given kind exactly when none of the components maps to it |
| Location.Extract | lambda/location.js:17-38 | the component loop and the coordinate copy produce the specified outcome of the geocoder data |
| Location.GetGeoLocation | lambda/location.js:12-43 | a successful extraction is returned; a sublocality fault or a failed request gives undefined with `ignoreError` and is rethrown without it |
| Location.GetGeoLocationDefault | lambda/location.js:12-43 | with the default `ignoreError = false`, the call never resolves to undefined: a successful extraction returns the extracted location, a sublocality fault is rethrown as the ReferenceError, and a failed request is rethrown with its own error |
| Location.SublocalityFault | lambda/location.js:20-32 | the component loop throws exactly when some component reaches the sublocality branch |
| Location.StepAllStaysThrown | lambda/location.js:20-32 | once the loop has thrown, further components do not recover it |
| Location.SublocalityNeverReturns | lambda/location.js:19-43 | any geocode result whose first result has a sublocality component yields no location object |
| Location.AgreesWithLegacy | lambda/location.js:20-32 | without sublocality components, the field mapping is the same as lambda/custom/location.js |
| Location.NoResultsEmpty | lambda/location.js:17-38 | a missing or empty `results` array yields `{}` |
| Location.ExpectedNoneIff | lambda/location.js:17-38 | the extraction fails exactly when the first result has a sublocality component, and otherwise a non-empty response gives that result's lat/lng |
| Location.FieldMapping | lambda/location.js:19-35 | without a sublocality component, the mapping is that of the older geocoder, and lat/lng come from `results[0]` |
| LegacyLocation.Extract | lambda/custom/location.js:38-59 | the component loop and the coordinate copy compute the specified location object |
| LegacyLocation.GetGeoLocation | lambda/custom/location.js:35-64 | fetched data always gives the extracted object; a failure gives undefined exactly when `ignoreError` is set, and is rethrown otherwise |
| LegacyLocation.NoResultsEmpty | lambda/custom/location.js:40-59 | no or empty results give `{}`, with no lat/lng |
| LegacyLocation.CoordinatesFromFirst | lambda/custom/location.js:41-56 | lat/lng come from `results[0]`, and later results are never read |
| LegacyLocation.ApplyWritesOneField | lambda/custom/location.js:42-52 | each component sets only the field of its kind (postal_code → zipcode, locality/sublocality → city, administrative_area_level_1 → state, country → country) and leaves the others and lat/lng alone |
| LegacyLocation.CityPrecedence | lambda/custom/location.js:44-47 | locality always overwrites city; sublocality sets it only when city is unset or empty |
| LegacyLocation.LastNameWins | lambda/custom/location.js:41-53 | the zipcode, state and country are those of the last component of their kind, or unchanged when no component has that kind |
| LegacyLocation.LastLocalityWins | lambda/custom/location.js:44-47 | the last non-empty locality decides the city whatever sublocalities follow it |
| Tracking.Lookup | lambda/aftership.js:115 | `table[key]` is undefined exactly when the key is absent, and otherwise is a value paired with that key |
| Tracking.Phrase | lambda/aftership.js:377 | a status phrase is the table's value for a known key and the text "undefined" otherwise |
| Tracking.PresentOne | lambda/aftership.js:141-146 | one field is kept, with its value, exactly when it is truthy (present and non-empty) |
| Tracking.PresentAppend | lambda/aftership.js:141-146 | the filter of a concatenation is the concatenation of the filters, so the kept values keep their order and their repetitions |
| Tracking.DeliveryLocationIff | lambda/aftership.js:141-149 | a delivery location exists exactly when one of city, state, country_name or zip is truthy; it is then non-empty and joins the present fields in that order with ", " |
| Tracking.EmptyAddressIsHere | lambda/aftership.js:266-271 | the empty geocode object `{}` is classified "here" (the `every` over no keys is vacuously true) |
| Tracking.AddressEmptyIff | lambda/aftership.js:266-280 | the address is "" exactly when the place is not the device's, is domestic or has no country, and has no city |
| Tracking.ForeignNamesCountry | lambda/aftership.js:278-279 | a foreign address that is not the device's ends with its country name |
| Tracking.DomesticCityState | lambda/aftership.js:272-275 | a domestic address that is not the device's, with a city and a state, reads "city, state" |
| AftershipQuery.StripPreposition | lambda/aftership.js:61 | the result is a suffix of the keyword; it is unchanged exactly when the keyword does not start with "from"/"for" (any case) followed by white space; otherwise the preposition and all the following white space are gone |
| AftershipQuery.MatchingSlugs | lambda/aftership.js:64-68 | the slugs kept are exactly those of couriers whose name equals the keyword ignoring case |
| AftershipQuery.MatchingSlugsAppend | lambda/aftership.js:64-68 | matching distributes over the courier list, so the slugs come out in the order of the courier keys |
| AftershipQuery.FindTag | lambda/aftership.js:71-73 | no tag is found exactly when no status phrase starts with the word; a found tag has a phrase starting with the word |
| AftershipQuery.StatusKeysNonEmpty | lambda/aftership.js:12-25 | every `TRACKING_STATUS` key is non-empty, so a found tag is truthy |
| AftershipQuery.QueryPrecedence | lambda/aftership.js:59-84 | the query string is the stripped keyword. There is no filter exactly when it is falsy. A slug filter exactly when a courier matches. A tag filter exactly when no courier matches and some phrase starts with the lowercased keyword. A keyword filter exactly when neither holds. So at most one filter is set. |
| AftershipQuery.TagFilterIsFirstMatch | lambda/aftership.js:71-73 | a tag filter names the first `TRACKING_STATUS` key, in declaration order, whose phrase starts with the lowercased keyword |
| AftershipQuery.FilteredQueryHasText | lambda/aftership.js:76-84 | any filter implies a non-empty query string, and a keyword filter carries exactly that string |
| AftershipRecords.TagEventNumberBounds | lambda/aftership.js:121-124 | `tag_event_number` never exceeds the number of same-tag checkpoints, and equals it when all `created_at` values are distinct |
| AftershipRecords.EventCountDistinct | lambda/aftership.js:121-124 | with distinct creation times, every same-tag checkpoint is counted |
| AftershipRecords.LastWithTag | lambda/aftership.js:130-133 | the reversed `find` stops at the last checkpoint carrying the tag, or at none when no checkpoint has it |
| AftershipRecords.Normalize | lambda/aftership.js:114-153 | the package keeps the record's identity fields. It takes its courier from the courier table and its event number as counted. For AvailableForPickup, OutForDelivery and Delivered, the date and location come from the last same-tag checkpoint (or are absent with none). Other tags take `expected_delivery` and no location. |
| AftershipRecords.StaleOnlyDelivered | lambda/aftership.js:156-164 | only Delivered packages are stale; an undated one is stale exactly when its last update is more than the allowed days past |
| AftershipRecords.Survivors | lambda/aftership.js:108-164 | the survivors are never more than the records |
| AftershipRecords.SurvivorsAreKept | lambda/aftership.js:108-164 | every survivor is the normalisation of a record that passes the note test and is not stale |
| AftershipRecords.KeptAreSurvivors | lambda/aftership.js:108-164 | every record that passes the note test and is not stale survives |
| AftershipRecords.BucketIsIndex | lambda/aftership.js:183-184 | the grouping bucket is the tag's index in [AttemptFail, AvailableForPickup, Exception, Delivered, OutForDelivery], with -1 for all others |
| AftershipRecords.FindMatch | lambda/aftership.js:178-193 | the index found is the first entry that matches, or -1 when none does |
| AftershipRecords.AddPackageCases | lambda/aftership.js:195-206 | with no match the new entry is appended with count 1 and its id. Otherwise the first matching entry is replaced by its join, with count + 1 and the id appended. |
| AftershipRecords.GroupInvariants | lambda/aftership.js:178-206 | after grouping, every entry's count equals its number of ids, no entry matches a later one, the counts sum to the number of survivors, the ids are exactly the survivors' tracking numbers, and there are no more entries than survivors |
| AftershipRecords.GroupKeepsKeys | lambda/aftership.js:195-206 | grouping more packages never removes or rekeys an earlier entry |
| AftershipRecords.GroupPlacesEvery | lambda/aftership.js:178-206 | every survivor sits in an entry it matches and whose id list holds its tracking number |
| AftershipRecords.MatchesByKey | lambda/aftership.js:179-192 | matching reads only the key fields (bucket, slug, courier, title, date, location) and ignores count, ids, lastUpdated and tagEventNumber |
| AftershipRecords.FindMultiPackage | lambda/aftership.js:178-193 | the search loop returns the index of the first matching entry |
| AftershipRecords.AddTracking | lambda/aftership.js:108-206 | one loop body: a dropped record leaves the response unchanged, and a kept one is grouped into it |
| AftershipRecords.CollectTrackings | lambda/aftership.js:106-207 | the `forEach` loop builds exactly the grouping of the survivors |
| AftershipRecords.CompareIsRank | lambda/aftership.js:225-247 | the comparator is negative exactly when the first entry ranks before the second (dated first, then smaller absolute days from today, then the larger tag-order index). It is positive exactly for the reverse or for two undated entries, and zero exactly for equal ranks. |
| AftershipRecords.TieBreak | lambda/aftership.js:240-245 | at equal distance, a listed tag comes before an unlisted one, and AvailableForPickup before Delivered |
| AftershipRecords.SortTrackingsInformation | lambda/aftership.js:222-251 | the in-place sort leaves no entry the comparator puts strictly before an earlier one, and permutes the array |
| AftershipRecords.SortedDatedFirst | lambda/aftership.js:228-233 | in a sorted list, undated entries come after all dated ones |
| Ranking.RankLessIsStrictWeakOrder | lambda/aftership.js:225-247 | the rank order the comparator induces on dated entries is irreflexive, asymmetric and transitive, with transitive incomparability |
| Ranking.SortBy | lambda/aftership.js:225 | the insertion sort leaves the array sorted by rank and a permutation of the original one |
| Ranking.TopRanked | lambda/aftership.js:210 | a sorted prefix is sorted, is drawn from the input, and no element left out ranks strictly before a kept one |
| AftershipClient.SliceLength | lambda/aftership.js:210 | `slice(0, limit)` keeps the whole list or exactly the limit, whichever is smaller |
| AftershipClient.AftershipClient.constructor | lambda/aftership.js:34-37 | a new client has no stored query |
| AftershipClient.AftershipClient.GetTrackingsQuery | lambda/aftership.js:59-90 | returns the built query and stores it in `this.query` |
| AftershipClient.AftershipClient.GetTrackingsInformation | lambda/aftership.js:97-215 | stores the query and returns `min(limit, n)` of the grouped survivors. They are sorted by the comparator, drawn from the grouping, and none left out sorts strictly before one kept. |
| AftershipClient.AftershipClient.GetTrackingsSpeechOutput | lambda/aftership.js:293-399 | every entry gets its address and message written in place; the text is the composition for the stored query |
| AftershipClient.SelectedUnderLimit | lambda/aftership.js:210 | under the count limit, the result is every grouped entry, reordered |
| AftershipClient.SelectedByRank | lambda/aftership.js:210 | any sorted arrangement of the grouping, cut at the limit, is a valid selection |
| AftershipClient.NarratedKeepsPairs | lambda/aftership.js:299-304 | writing the messages does not change any entry's summary bucket or count |
| AftershipClient.GetSpeechOutput | lambda/aftership.js:495-507 | the spoken text is that of the selected entries after addressing and narration, for the query built from the keyword |
| AftershipClient.GetProactiveEvents | lambda/aftership.js:475-487 | the events are those of the entries selected for the unfiltered query |
| AftershipSpeech.GeocodedNoneIff | lambda/aftership.js:259-261 | an entry gets no location exactly when it has no truthy location, the ignored request failed, or the first geocode result has a sublocality component |
| AftershipSpeech.AddressedChangesOnlyAddress | lambda/aftership.js:263-282 | the address pass changes only `address`; with no geocode result the entry is unchanged; otherwise the address is the decision table's |
| AftershipSpeech.SublocalityLeavesNoAddress | lambda/aftership.js:259-264 | a geocode result with a sublocality component leaves the entry without an address, because the geocoder faulted |
| AftershipSpeech.EmptyGeocodeIsHere | lambda/aftership.js:264-271 | a geocode with no results gives the address "here" |
| AftershipSpeech.GetTrackingsAddress | lambda/aftership.js:258-285 | every entry in the array is replaced by its addressed version |
| AftershipSpeech.SummaryKeyIncludes | lambda/aftership.js:301-303 | a tag of the five buckets is its own summary key, and every other tag counts as ExpectedDelivery |
| AftershipSpeech.HeadForOne | lambda/aftership.js:307-313 | a single package reads "A <courier or slug> package" |
| AftershipSpeech.HeadForMany | lambda/aftership.js:307-313 | several packages read "<say-as interpret-as="cardinal">n</say-as> … packages" |
| AftershipSpeech.DeliveredWithoutDate | lambda/aftership.js:325-333 | an undated delivery reads "marked as" and the calendar day of its last update, with no time |
| AftershipSpeech.HereWording | lambda/aftership.js:325-354 | the address "here" reads "here" for deliveries, "towards here" when out for delivery, and nothing for pickup |
| AftershipSpeech.ExpectedWording | lambda/aftership.js:355-363 | a tag outside the cases says "should arrive" or "should have arrived" with the calendar date, or "is/are <phrase>" when undated |
| AftershipSpeech.UnknownTagIsUndefined | lambda/aftership.js:361 | an unknown undated tag reads "is undefined" |
| AftershipSpeech.SummaryKeysPhrased | lambda/aftership.js:301-304 | every summary key is one of the five grouped tags or "ExpectedDelivery", and each is a key of `TRACKING_STATUS`, so no summary phrase is `undefined` |
| AftershipSpeech.SummaryTotals | lambda/aftership.js:304 | each summary count is the sum of the counts of the entries in that bucket |
| AftershipSpeech.FromPartIff | lambda/aftership.js:381 | " from <keyword>" appears exactly under a keyword or slug filter, and then names the query string |
| AftershipSpeech.SpeechWithoutTrackings | lambda/aftership.js:369-398 | with no entries, the text is the fallback summary ending in "." (with "no package <phrase>" under a tag filter) plus footnotes |
| AftershipSpeech.SpeechWithOneTracking | lambda/aftership.js:387-398 | with one entry, the text is only that detail |
| AftershipSpeech.SpeechWithTrackings | lambda/aftership.js:369-398 | with several entries, the text is the summary ending in ":" followed by the newline-joined details |
| AftershipSpeech.NarrateTrackings | lambda/aftership.js:299-367 | the loop writes each entry's message in place and returns the tally of its summary pairs |
| AftershipEvents.PackageEventsCarryPackage | lambda/aftership.js:427-463 | one event per tracking id of the entry, in id order, each with the entry's status and title, on the day timeline from its position, a delivery date only when delivered and an arrival date only when shipped |
| AftershipEvents.QualifiesIff | lambda/aftership.js:412-425 | a package qualifies exactly when it was updated after the last event and is OutForDelivery, Delivered, or InTransit with event number 1 |
| AftershipEvents.EventsFollowIds | lambda/aftership.js:419-464 | the events reference exactly the tracking ids of the qualifying packages, in order |
| AftershipEvents.EventsTimeline | lambda/aftership.js:429-431 | the k-th event is stamped with `now` after k `endOf('day')` calls, and expires after k + 1 |
| AftershipEvents.EventsChained | lambda/aftership.js:429-431 | every event after the first is stamped with the previous event's expiry time |
| AftershipEvents.EventsEndToday | lambda/aftership.js:429-431 | the first event is stamped now; all later ones are stamped with, and all events expire at, the end of today |
| AftershipEvents.EventStatuses | lambda/aftership.js:436-447 | every event is shipped, out for delivery or delivered; `deliveredOn` appears only on delivered ones and `expectedArrival` only on shipped ones |
| AftershipEvents.ShippedArrival | lambda/aftership.js:442-447 | a dated shipped package announces the end of its delivery day as the expected arrival |
| AftershipEvents.NoUpdateNoEvent | lambda/aftership.js:422 | nothing updated since the last event gives no events |
| AftershipEvents.PushPackageEvents | lambda/aftership.js:427-463 | the inner loop appends the package's events and advances `now` once per event |
| AftershipEvents.GetTrackingsProactiveEvents | lambda/aftership.js:407-467 | the emitter loop returns exactly the specified event list |
| Narrative.AddCount | lambda/aftership.js:304 | `summary[key] = (summary[key] or 0) + n` keeps key order, appends a new key, keeps keys distinct, and adds n to that key only |
| Narrative.TallySums | lambda/aftership.js:299-304 | each tallied key holds the sum of its pairs' counts |
| Narrative.TallyKeys | lambda/aftership.js:299-304 | the summary keys are exactly the keys that occur |
| Narrative.TallyFirstSeenOrder | lambda/aftership.js:371 | the summary keys are in first-seen order |
| Narrative.TallyDistinct | lambda/aftership.js:304 | no key is tallied twice |
| Narrative.CountAndUpdate | lambda/aftership.js:299-367 | the loop replaces every element by its update and returns the tally of the original elements' key/count pairs |
| Narrative.SummaryOxford | lambda/aftership.js:371-379 | one item stands alone; two or more are joined with ", " and ", and " before the last |
| Narrative.SummaryBodyEmptyIff | lambda/aftership.js:371-380 | the bucket list is empty exactly when the summary dictionary is |
| Narrative.SummarySentenceShape | lambda/aftership.js:369-383 | the sentence is "Currently, you have " then the fallback and "." with no buckets, or the buckets and ":" otherwise, with the from-part in between |
| Narrative.NonEmptyWordsOne | lambda/aftership.js:366 | one word is kept exactly when it is not empty |
| Narrative.NonEmptyWordsAppend | lambda/aftership.js:366 | the filter of a concatenation is the concatenation of the filters, so the words keep their order and their repetitions |
| Narrative.ComposeNoDetails | lambda/aftership.js:387-398 | with no details the output is the summary paragraph plus footnotes |
| Narrative.ComposeOneDetail | lambda/aftership.js:387-398 | with one detail the output is that detail's paragraph plus footnotes |
| Narrative.ComposeManyDetails | lambda/aftership.js:387-398 | with several details the output is the summary, then the details joined by newlines |
| Narrative.NoFootnotes | lambda/aftership.js:395-397 | missing or empty footnotes add nothing |
| Clocks.IterateIdempotent | lambda/aftership.js:431 | repeating an idempotent `endOf('day')` gives the same instant as applying it once |
| LegacyQuery.UpcaseFirst | lambda/custom/aftership.js:154 | only the first character is changed, to upper case |
| LegacyQuery.DropAllSpaces | lambda/custom/aftership.js:153 | no white space is left and the text does not grow; which characters stay, and in what order, is stated by DropSpaceStep, DropKeepStep and DropAppend |
| LegacyQuery.DropSpaceStep | lambda/custom/aftership.js:153 | a leading white-space character is removed |
| LegacyQuery.DropKeepStep | lambda/custom/aftership.js:153 | a leading character that is not white space is kept |
| LegacyQuery.DropAppend | lambda/custom/aftership.js:153 | removal distributes over concatenation, so the other characters stay, in order |
| LegacyQuery.PascalCaseHasNoSpaces | lambda/custom/aftership.js:151-154 | the PascalCased keyword contains no white space |
| LegacyQuery.PascalCaseWords | lambda/custom/aftership.js:151-154 | a keyword of single-space-separated words becomes those words lowercased, capitalised and run together |
| LegacyQuery.LegacyKeysNonEmpty | lambda/custom/aftership.js:12-24 | "" is not a status key, so an empty keyword never becomes a tag |
| LegacyQuery.LegacyQueryPrecedence | lambda/custom/aftership.js:138-172 | the query string is the stripped keyword (null for a falsy one). A slug option exactly when a courier matches. A tag option (the PascalCased keyword) exactly when none matches and it is a status key. Otherwise the keyword option, even holding null. |
| LegacyRecords.FirstWithTag | lambda/custom/aftership.js:212-233 | `some` stops at the first checkpoint with the package's tag, or at none |
| LegacyRecords.LegacyNewEntry | lambda/custom/aftership.js:210-241 | the entry keeps tag, slug and title with count 1. For OutForDelivery and Delivered, date (start of day), time and location come from the first same-tag checkpoint. Other tags take the expected delivery day. `last_updated` is the start of the update day only when no date exists. |
| LegacyRecords.LegacyStaleOnlyDelivered | lambda/custom/aftership.js:243-254 | only Delivered records are stale; any other record is kept exactly when its note passes; with no note tagging configured it is always kept |
| LegacyRecords.LastUpdatedOnlyUndated | lambda/custom/aftership.js:238-241 | `last_updated` is set only on undated entries of records with an update time |
| LegacyRecords.LegacySurvivors | lambda/custom/aftership.js:204-254 | the survivors are never more than the records |
| LegacyRecords.LegacySurvivorsAreKept | lambda/custom/aftership.js:204-254 | every survivor is the new entry of a listed record whose note passes and which is not stale |
| LegacyRecords.LegacyKeptAreSurvivors | lambda/custom/aftership.js:204-254 | every listed record whose note passes and which is not stale survives |
| LegacyRecords.LegacySurvivorsCountOne | lambda/custom/aftership.js:276-285 | every new entry starts with count 1 |
| LegacyRecords.LegacyBucketIsIndex | lambda/custom/aftership.js:261-263 | the bucket is the tag's index in [AttemptFail, Exception, Delivered, OutForDelivery], with -1 for all others (AvailableForPickup included) |
| LegacyRecords.LegacyFindMatch | lambda/custom/aftership.js:257-275 | the index found is the first entry whose whole key matches, or -1 |
| LegacyRecords.LegacyAddShape | lambda/custom/aftership.js:257-285 | adding keeps every entry's key; it either appends the new entry or bumps the count of exactly one entry |
| LegacyRecords.LegacyAddKeeps | lambda/custom/aftership.js:272-285 | adding keeps counts positive and keeps any later entry from matching an earlier one, and adds one to the total count |
| LegacyRecords.LegacyGroupInvariants | lambda/custom/aftership.js:257-285 | after grouping, counts are positive, no entry matches a later one, the counts sum to the number of survivors, and there are no more entries than survivors |
| LegacyRecords.LegacyGroupPlacesEvery | lambda/custom/aftership.js:257-285 | every survivor sits in an entry it matches |
| LegacyRecords.MatchesItself | lambda/custom/aftership.js:257-271 | an entry matches itself when a moment is zero days from itself |
| LegacyRecords.LastUpdatedSeparates | lambda/custom/aftership.js:264-267 | entries whose `last_updated` days differ never group, unlike in the current version |
| LegacyRecords.LegacyFindMultiPackage | lambda/custom/aftership.js:257-275 | the `some` loop returns the first matching index |
| LegacyRecords.LegacyAddTracking | lambda/custom/aftership.js:204-285 | one loop body: a dropped record leaves the response unchanged, and a kept one is grouped into it |
| LegacyRecords.LegacyCollect | lambda/custom/aftership.js:202-286 | the loop builds exactly the grouping of the survivors |
| LegacyRecords.LegacyCompareIsRank | lambda/custom/aftership.js:302-324 | the comparator is negative exactly when the first entry ranks before the second (dated first, then smaller absolute days from `device.today`, then the larger index in [Delivered, AttemptFail, Exception, OutForDelivery]), and positive exactly for the reverse or two undated entries |
| LegacyRecords.LegacyTieBreak | lambda/custom/aftership.js:317-322 | at equal distance, a listed tag comes before an unlisted one, and Exception before AttemptFail |
| LegacyRecords.LegacySort | lambda/custom/aftership.js:299-328 | the in-place sort leaves no entry strictly before an earlier one and permutes the array |
| LegacyRecords.LegacyTrackingsInformation | lambda/custom/aftership.js:195-290 | the result holds `min(limit, n)` grouped survivors. They are sorted, drawn from the grouping, and none left out sorts before one kept. |
| LegacyRecords.LegacySelectedByRank | lambda/custom/aftership.js:289 | a sorted arrangement cut at the limit is a valid selection |
| LegacySpeech.LegacyGeocodedNoneIff | lambda/custom/aftership.js:28-33 | an entry gets no location exactly when it has no truthy location or the ignored request failed, and a non-empty response gives the first result's lat/lng |
| LegacySpeech.LegacyAddressedChangesOnlyAddress | lambda/custom/aftership.js:34-47 | the address pass changes only `address`, and sets it by the decision table when a geocode exists |
| LegacySpeech.LegacyEmptyGeocodeIsHere | lambda/custom/aftership.js:35-40 | an empty geocode result reads "here" |
| LegacySpeech.FormatTrackingsAddress | lambda/custom/aftership.js:27-52 | the array becomes the addressed entries |
| LegacySpeech.LegacySummaryKey | lambda/custom/aftership.js:60-61 | the four bucket tags are their own key, and everything else (AvailableForPickup included) is ExpectedDelivery |
| LegacySpeech.LegacyCarrierName | lambda/custom/aftership.js:67 | the courier name from the table when the slug is listed with a non-empty name, the slug when not listed |
| LegacySpeech.LegacyHeadCount | lambda/custom/aftership.js:65-70 | "A … package" for one package, a cardinal say-as count and "packages" otherwise |
| LegacySpeech.LegacyStatusCases | lambda/custom/aftership.js:71-106 | Delivered, OutForDelivery and unlisted tags take their own branches |
| LegacySpeech.LegacyDeliveredWithoutDate | lambda/custom/aftership.js:84-91 | an undated delivery reads "marked as" and the calendar day of `last_updated` |
| LegacySpeech.LegacyDeliveredWithTime | lambda/custom/aftership.js:84-91 | a dated delivery with a time reads its calendar day and "at <time>" |
| LegacySpeech.LegacyHereWording | lambda/custom/aftership.js:88-96 | "here" for deliveries and "towards here" out for delivery |
| LegacySpeech.LegacyPickupWording | lambda/custom/aftership.js:100-104 | AvailableForPickup has no case, no bucket and no phrase here, so undated it reads "is undefined" |
| LegacySpeech.LegacyExpectedWording | lambda/custom/aftership.js:101-103 | a dated default package reads "should arrive" (on or after today) or "should have arrived", then the calendar date |
| LegacySpeech.LegacySummaryKeysPhrased | lambda/custom/aftership.js:58-62 | every summary key is one of the four grouped tags or "ExpectedDelivery", and each is a key of `trackingStatus`, so no summary phrase is `undefined` |
| LegacySpeech.LegacySummaryTotals | lambda/custom/aftership.js:62 | each summary count is the sum of its bucket's counts |
| LegacySpeech.LegacyFallbackNamesStatus | lambda/custom/aftership.js:118 | for the query `formatTrackingsQuery` builds, the fallback names a status exactly under the tag option, and then with that status's own phrase |
| LegacySpeech.LegacyFromPartIff | lambda/custom/aftership.js:119 | " from <keyword>" appears exactly under a non-empty slug option or a truthy keyword option, and names the query string |
| LegacySpeech.LegacyTextWithoutTrackings | lambda/custom/aftership.js:111-134 | with no entries the text is the fallback summary ending in "." plus footnotes |
| LegacySpeech.LegacyTextWithOneTracking | lambda/custom/aftership.js:128-134 | with one entry the text is only its detail |
| LegacySpeech.FormatTrackingsList | lambda/custom/aftership.js:55-135 | the loop writes each message in place, and the text is the composed list for the query |
| LegacySpeech.GenerateTrackingsList | lambda/custom/aftership.js:331-346 | the text lists the selected grouped survivors, addressed, for the query built from the keyword |

## Left out

- The AfterShip and Google Maps requests are inputs, not computations. This covers
  `getCourierNames`/`getCourierNameList`, `listTrackings`/`/trackings` and the geocoder.
  Their promise plumbing and the `Promise.all` fan-out over entries are not modelled.
  In particular, the model does not capture that requests run concurrently.
- The `created_at_min` and `fields` query parameters are left out. They depend on the clock
  and on constants, and no other step reads them.
- Moment operations are uninterpreted. This covers `setTimezone`, `toISOString`, `calendar()`,
  `format('LT')`, day and hour differences, `startOf` and `endOf`. ISO timestamps are the
  instants themselves.
- The note-tagging `RegExp` is an abstract predicate.
- The number, fraction and unit regular expressions of `formatSpeechMarkup` are one abstract
  function. It is applied only when the encoded text has a digit. The digit-free case is exact.
- Speech.Format: only the digit-free case is stated. `\b` word-boundary semantics are not modelled.
- Case-insensitive comparison and `toLowerCase`/`toUpperCase` act on ASCII letters only. Unicode
  case mapping is not modelled.
- The courier names are a sequence of (slug, name) pairs, not an object built by `reduce`. The model
  does not require the slugs to be distinct. With a repeated slug, `Tracking.Lookup` takes the first
  pair, whereas the object would hold the later name, and `AftershipQuery.MatchingSlugs` may list the
  slug twice. AfterShip identifies couriers by slug, so its list is not expected to repeat one.
- `key in object` and `object[key]` use only the table's own keys. A key inherited from
  `Object.prototype` is not modelled. Such a key is, for example, "__proto__", which the legacy
  PascalCase conversion leaves as it is.
- AftershipRecords.SortTrackingsInformation: the model is an insertion sort. It is proved sorted with
  respect to the comparator and proved to be a permutation. The engine's own order among ties, or
  when two undated entries compare inconsistently, is not claimed.
- LegacyRecords.LegacySort: the same as for the current sort.
- The limits `AFTERSHIP_TRACKING_COUNT_LIMIT` and `AFTERSHIP_DAYS_PAST_DELIVERED` and the
  `DEFAULT_COUNTRY` are given values of settings. The model does not capture an undefined count
  limit (treated as "keep all" by `slice`).
- An unset `AFTERSHIP_DAYS_PAST_DELIVERED` is not modelled. In the code the staleness test then
  compares with `NaN` and nothing is ever stale; the model always has a number of days.
- A negative count limit is not modelled. The limit is a `nat`, so `slice(0, -k)`, which would drop
  the last k entries, cannot be expressed.
- The constant parts of an event are not modelled. These are the event name, the seller-name
  localisation and the locale. The model keeps only the status, reference id, timestamps and
  optional dates.
- `getTrackingsProactiveEvents` and `sortTrackingsInformation` read no client state. They are
  modelled as module-level methods rather than methods of `AftershipClient.AftershipClient`.
- The packages of both variants are datatype values. The model writes a changed copy back into the
  array, instead of mutating the shared object. Aliasing between the trackings list and the response
  is therefore not modelled.
- Failures outside the modelled error policy are not modelled:
  - a geocode result without `address_components` raises a TypeError;
  - a geocode result without `geometry.location` raises a TypeError, in both geocoders;
  - an undefined `this.query` in `getTrackingsSpeechOutput` raises a TypeError.
  The client method requires a stored query instead.
- The `pkg.date.endOf('day')` in a shipped event writes the end of day back into the entry's date.
  Only the announced value is modelled; the later state of the entry is not.
- The older geocoder's address check uses loose `==`. On the string and undefined fields it
  compares, this agrees with strict equality, so both variants share `Tracking.ClassifyAddress`.
- Logging, `DEBUG_MODE` branches and the catch-and-rethrow wrappers of the exported functions are
  not modelled.
- The Alexa handlers, AWS deployment, event delivery and device lookups are not part of this model.

## Findings

| source | as written | input that shows it | evidently intended | confidence | as-written member | corrected member |
|---|---|---|---|---|---|---|
| lambda/location.js:26 | the sublocality branch reads `result.city`, but no `result` exists in that function, so it throws a ReferenceError; the catch then turns the whole geocode into undefined (the address pipeline passes `ignoreError = true`) | a geocode whose first result has a component of type `sublocality` | `location.city` or else `component.long_name`, as in lambda/custom/location.js:47: keep an earlier locality, else use the sublocality | not executed | Location.SublocalityFault | LegacyLocation.CityPrecedence |

The current pipeline's model (`AftershipSpeech.Geocoded`) keeps the as-written
geocoder, so `AftershipSpeech.SublocalityLeavesNoAddress` shows the
consequence: such an entry gets no address. `Location.AgreesWithLegacy` proves
that, away from sublocality components, the two extractions coincide.
