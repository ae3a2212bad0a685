# A verified model of the public-project collection pipeline

`search_public.py` collects public construction and facility projects from
the USAspending award search API. It searches each keyword for contracts and
then for grants, and keeps only the awards whose description or recipient
looks public. For the first N of those awards it fetches the award details and
turns each into a flat, database-ready record. That step geocodes the place of
performance with a two-tier Mapbox lookup: a street address first, then the
city centre. Only records with two truthy coordinates are kept. At the end
the pipeline counts geocoding successes and failures, and projects per state
and per agency.

This Dafny project models those decision procedures and proves what they
promise. Every network call is a function parameter that maps the request to
its reply:

- `search: SearchPayload -> SearchResponse` for the award search (the reply's
  status and its optional `results` list);
- `fetch: string -> DetailResponse` for the award detail request, keyed by URL;
- `geo: GeoQuery -> GeoResponse` for one geocoding lookup (an exception, or a
  status and a list of features).

The modules follow the program's stages:

| module | file | models |
|---|---|---|
| `Records` | records.dfy | the records passed between stages, Python truthiness, `s[:n]` |
| `Seqs` | seqs.dfy | order-preserving filter and concatenation, as the loops build them |
| `Text` | text.dfy | `str.lower()` and `sub in s` |
| `Search` | search.dfy | `search_public_projects`, `search_all_award_types` |
| `Geocoder` | geocoder.dfy | `geocode_address`, `geocode_address_fallback` |
| `Normalizer` | normalizer.dfy | `get_award_details`, `prepare_project_data` |
| `Pipeline` | pipeline.dfy | `collect_and_prepare_data` |
| `Summary` | summary.dfy | the counters of `save_to_json` |

The loops of the source are methods with loop invariants. Each is proved
equal to a specification function that recursion defines on prefixes:

- the relevance filter (`Search.SearchPublicProjects`, specified by `Search.SearchedPublic`);
- the nested collection loops (`Pipeline.CollectAndPrepareData` and `Pipeline.ProcessAwards`, specified by `Pipeline.Collected`);
- the state and agency counters (`Summary.SummaryStatistics`, specified by `Summary.Tally`).

The lemmas then prove the promised properties about those functions.

The relevance filter is on the collection path. `collect_and_prepare_data`
calls `search_all_award_types`, which calls `search_public_projects`, and that
function filters. The truncation to N therefore applies to awards that have
already been filtered, even though one might expect the orchestrator to see
the raw search results. The model follows the code.

## Model

| member | source | states |
|---|---|---|
| Records.PyTake | search_public.py:281 | `results[:n]` is a prefix of the results: all of them when there are fewer than n, exactly n otherwise; Python's negative-n slice is included |
| Text.Lower | search_public.py:70-71 | lower-casing turns each upper-case ASCII letter into its lower-case letter (code point + 32), leaves no upper-case ASCII letter and keeps every other character in place |
| Text.IsSubstring | search_public.py:81-82 | the scan answers true exactly when the term occurs contiguously somewhere in the text |
| Text.AnyTermIn | search_public.py:81-82 | `any(kw in text for kw in terms)` is true exactly when some term occurs in the text |
| Search.IsPublicAward | search_public.py:68-85 | an award is kept if and only if its lower-cased description contains one of the ten include terms, or its lower-cased recipient contains one of the seven public-recipient phrases; an absent description or recipient reads as "" |
| Search.PublicOnlyMembers | search_public.py:68-85 | an award is in the filtered list exactly when it is in the results and passes the test; there is no exclusion list |
| Search.PublicOnlyIsSubsequence | search_public.py:68-93 | the filtered list is an order-preserving subsequence of the results, given by strictly increasing positions, so it is never longer |
| Search.PublicOnlyKeepsAll | search_public.py:68-85 | the filter returns its input unchanged exactly when every result passes the test |
| Search.PublicOnlyIdempotent | search_public.py:68-85 | filtering the filtered list again changes nothing |
| Search.AwardTypeCodes | search_public.py:27-31 | the code table: contracts A, B, C, D; grants 02 to 05; other 06 and 10 |
| Search.SearchPayloadFor | search_public.py:33-47 | the request for one keyword and group: that keyword alone, the group's codes, the period 2015-01-01 to 2024-12-31, the six fields, the limit, page 1, sorted by award amount descending |
| Search.GroupRequestsDifferOnlyInCodes | search_public.py:102-109 | the contract and grant requests of a keyword differ in their award-type codes and in nothing else, and so are different requests |
| Search.SearchedPublic | search_public.py:49-54 | a non-200 search reply yields the empty list |
| Search.SearchPublicProjects | search_public.py:24-93 | the loop sends the request for the keyword and group, and returns the results that pass the test in their order, or [] on a non-200 reply |
| Search.SearchedPublicMembers | search_public.py:49-85 | an award is returned for a group exactly when the reply is 200, the award is among its `results` and it passes the test |
| Search.SearchAllAwardTypes | search_public.py:96-112 | contract results followed by grant results, each filtered |
| Search.SearchedAllArePublic | search_public.py:96-112 | every award from the combined search passes the relevance test |
| Search.AwardTypeGroupsAreDisjoint | search_public.py:27-31 | no award-type code belongs to two groups |
| Search.CityRecipientIsPublic | search_public.py:70-84 | a raw recipient with a seven-character window that lower-cases to "city of" (any ASCII case) makes an award public whatever its description |
| Search.CapitalCityRecipientIsPublic | search_public.py:70-84 | the recipient "CITY OF AUSTIN" makes an award public |
| Search.AcmeCorpIsNotPublic | search_public.py:70-84 | an award with no description and recipient "Acme Corp" is rejected |
| Geocoder.FirstFeatureLatLon | search_public.py:151-160 | a lookup yields a coordinate exactly when the reply is 200, `features` is non-empty and the first pair has two values; the wire pair `[lon, lat]` is swapped to `(lat, lon)` |
| Geocoder.AddressQueryFor | search_public.py:134-145 | the street query carries the address, city, state, country "US" and limit 1; `postcode` is sent exactly when the zip is truthy |
| Geocoder.PlaceQueryFor | search_public.py:172-178 | the city query: `q` is `"{city}, {state}, USA"`, the token, limit 1, type "place", country "US" |
| Geocoder.GeocodeFallback | search_public.py:168-195 | exactly one lookup, the city query; the coordinate is the swapped first feature of its reply, present exactly when the reply is usable, otherwise `(None, None)` and never an error |
| Geocoder.GeocodeAddress | search_public.py:126-166 | a falsy city or state gives no coordinate and makes no lookup; otherwise the street lookup comes first exactly when the address is truthy; with no address the city query is the only lookup; a usable street reply is the answer with no further lookup; an unusable one is followed by exactly one city lookup; a missing address or an unusable street reply (non-200, no features, exception) falls through to the city lookup, which comes last and decides; any coordinate returned is the swapped first feature of one of the lookups |
| Normalizer.DetailUrl | search_public.py:117 | the detail URL is the awards endpoint, the identifier (an absent one formatted as "None") and a closing "/", and the identifier can be read back from it |
| Normalizer.DetailUrlDecides | search_public.py:114-117 | two awards are fetched from the same URL exactly when their identifiers format alike, so a missing identifier fetches the award named "None" |
| Normalizer.GetAwardDetails | search_public.py:114-123 | details exist exactly when the reply is 200 with a non-empty body, and they are that body |
| Normalizer.Title | search_public.py:213 | `(description or 'N/A')[:255]`: at most 255 characters, a prefix of a truthy description of length min(len, 255), otherwise "N/A" |
| Normalizer.ShouldGeocode | search_public.py:233 | `address or city and state and zip_code`: a truthy address always triggers; without one, city, state and zip must all be truthy; without a zip only the address triggers |
| Normalizer.PreparedProject | search_public.py:200-254 | the fields are copied from the detail record; the title is `Title(description)`; `category` is None; the two coordinates are both present or both absent; without the trigger `address or (city and state and zip)` they stay None; with it they are the geocoder's answer |
| Normalizer.PrepareProjectData | search_public.py:200-254 | building the record with empty coordinates and then overwriting both with the geocoder's answer yields `PreparedProject` |
| Normalizer.AddressAloneTriggersGeocoding | search_public.py:233 | `and` binds tighter than `or`: a truthy address triggers geocoding even without a zip, where the looser reading `(address or city and state) and zip` would not |
| Normalizer.NoCityOrStateNoCoordinates | search_public.py:233-245 | without a city or a state the record is never geocoded, even when the address triggers the geocoder |
| Pipeline.ProjectFor | search_public.py:282-293 | an award yields a project exactly when its detail reply is 200 with a body, and the project is the one prepared from that body |
| Pipeline.KeepIfGeocoded | search_public.py:296-297 | an award contributes something exactly when it yields a project with two truthy coordinates, and then exactly that project |
| Pipeline.AwardsFor | search_public.py:274-281 | the awards processed per keyword are a prefix of the filtered contract-then-grant results, of length n or all of them when there are fewer |
| Pipeline.ProcessAwards | search_public.py:281-297 | the inner loop skips awards without details and appends, in order, exactly the prepared projects with two truthy coordinates |
| Pipeline.CollectAndPrepareData | search_public.py:256-306 | the nested loops produce `Collected`: for each keyword in order, the kept projects of its first n filtered awards |
| Pipeline.KeptProjectsMembers | search_public.py:281-297 | a project is kept exactly when some processed award's details yield it and both its coordinates are truthy, so a zero coordinate drops it |
| Pipeline.CollectedBound | search_public.py:271-297 | at most `len(keywords) * n` projects are collected |
| Pipeline.CollectedAreGeocoded | search_public.py:296-297 | every collected project has two truthy coordinates |
| Pipeline.CollectedAppend | search_public.py:271-306 | keywords are independent: collecting two keyword lists gives the concatenation of the two collections |
| Pipeline.KeywordProvenance | search_public.py:274-297 | each project of one keyword comes from an award among its first n filtered results, that passed the relevance test and whose details yield exactly that project |
| Pipeline.CollectedProvenance | search_public.py:271-297 | every collected project comes from an award that is among the first n filtered results of one keyword, passed the relevance test and whose details yield exactly that project |
| Summary.BumpCounts | search_public.py:334-341 | `d[k] = d.get(k, 0) + 1` adds a new key with count 1 or raises an existing count by one, and leaves every other count alone |
| Summary.TallyCounts | search_public.py:330-341 | a key is counted exactly when it is a non-empty string that occurs among the keys, and its count is its number of occurrences |
| Summary.SumValuesRemove | search_public.py:330-341 | a dictionary's total is any one key's count plus the total of the rest |
| Summary.SumValuesBump | search_public.py:334 | `d[k] = d.get(k, 0) + 1` raises the total by exactly one |
| Summary.TallySum | search_public.py:330-341 | the counts add up to the number of truthy keys |
| Summary.StateCountsSum | search_public.py:330-334 | the per-state counts add up to the number of projects with a truthy state, so never more than the number of projects |
| Summary.SummaryStatistics | search_public.py:323-341 | `successful` counts the projects with a truthy latitude and `successful + failed == len(projects)`; the state and agency dictionaries are the tallies of the truthy states and agencies |
| Summary.CollectedHaveNoFailures | search_public.py:296-325 | on the collection's output every project counts as a geocoding success |

## Left out

- The HTTP session and its retry configuration (search_public.py:9-22), the timeouts and the JSON decoding: each reply is an input to the model.
- An exception raised by the search or detail request: it propagates out of the pipeline and is not modelled. The geocoder's exceptions are caught, and those are modelled as the `Raised` reply.
- Search.SearchedPublic, Normalizer.GetAwardDetails: the session retries statuses 429, 500, 502, 503 and 504 (search_public.py:11-17) and then raises, so the `!= 200` branches at lines 51 and 120 never see those statuses and the run aborts instead. The model gives `[]` or no details for every non-200 status, these included. For the geocoder the outcome is the same either way, because its exception handler also falls back.
- Every reply depends only on its request: identical requests within one run are assumed to get identical replies.
- `time.sleep` pacing (search_public.py:106, 302): it has no effect on the result.
- All console output. That includes the `:,.2f` format of a `None` amount at search_public.py:230, which would raise inside `prepare_project_data`. It also includes the misspelled `'title,'` key at search_public.py:304, which only affects a logged count.
- `total_amount` (search_public.py:327): a float sum used only for printing.
- The sorted top-10 state and top-5 agency printing (search_public.py:349-355): console output only. Insertion order of the count dictionaries is not modelled, because the maps are unordered.
- The JSON file write (search_public.py:318-319), `load_dotenv` and the reading of the token from the environment: I/O and configuration. The token is a parameter.
- Text.Lower: folds ASCII letters only, not Python's full Unicode lower-casing.
- Coordinates are `real` values that are passed through and swapped. Only their zero test is observed, and float semantics are not modelled.
- A `"results": null` in a search reply and a `null` nested object in a detail reply: Python raises on both, and the model reads them as absent. A feature without a usable `geometry` is modelled as a failed lookup, which is what the source's exception handler does.
- A group name other than the three in the table raises `KeyError` in Python. The model's `AwardGroup` type admits only the three groups.
- The structure of a detail reply is flattened: `awarding_agency.toptier_agency.name` and `recipient.recipient_name` are single optional fields.
- test_apy.py and test_geocoding.py: scripts that call the live services and contain no logic of their own.
