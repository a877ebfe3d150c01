# Pelias geocoding plugin: request client, response mapper and batch algorithms

This project is a Dafny model of the sequential core of the `PeliasGeocoding`
QGIS plugin, with proofs about that model. The model covers four parts.

- **Request client** (`RequestClient`, client.dfy):
  - the authenticated query: dict parameters sorted by key, then `api_key` when the key is non-empty;
  - the retry budget check, made before anything is built or sent;
  - classification of HTTP replies into the plugin's typed errors;
  - the window of send times, a deque bounded by the provider limit;
  - the back-off after a 429, and the retry that keeps the original `first_request_time`.

  The clock and the HTTP exchange are inputs. One `Exchange` (time before, reply, time after) stands for each attempt.
- **Response mapper** (`ResponseHandler`, response.dfy):
  - the ordered field map: the id field, 22 standard keys, and optionally 14 debug keys;
  - `get_fields`, with `QgsFields.append` refusing a name already present;
  - the generator that maps a decoded body to records, one per result, stopping at the first `KeyError` of `setAttribute`;
  - the memory layer's name.
- **Parameter helpers**:
  - the float-text trim and `comma_list` (`Convert`, convert.dfy);
  - the `LAYERS` / `SOURCES` vocabularies (`Vocab`, vocab.dfy);
  - the shared request parameters of the algorithms (`QueryParams`, params.dfy).
- **Processing algorithms**:
  - the per-feature loop they share (`Batch`, batch.dfy);
  - per-feature parameters (`FeatureParams`, items.dfy);
  - the free-text, structured and reverse algorithms (freetext.dfy, structured.dfy, reverse.dfy).

  Inside the loop the client is a function from the feature number, the endpoint path and the parameters to a body or a classified error.

The supporting modules are:

- `Wrappers`: `Option` and `Result`.
- `Strings`: `join`, `split`, `rstrip`, `capitalize`, `str(int)` and Python string order.
- `PyDict`: an insertion-ordered dict. `d[k] = v` is `Set`, `{**a, **b}` is `Merge`, and `sorted(d.items())` is `SortItems`.
- `Payload`: Python scalars with their truthiness, and the decoded response body.

Where the plugin's design description differs from its code, the model follows the code:

- The sixth layer is `"localadmin\t"`, with a tab.
- Debug mode adds `source_id` before the thirteen `*_gid` keys.
- An id field named "name" or "neighborhood" loses its map entry to that standard key, whose output name differs, so no output field carries the id's name. `setAttribute` on it raises `KeyError` at the first result, and the loop does not catch it: the run stops.
- Progress is `int(100.0 / count * num)` with 0-based `num`, reported only after a successful feature, so 100 is never reported.
- A batch run is aborted by any error other than `ApiError`, `GenericServerError` and `InvalidKey`. That includes `Timeout` and the `KeyError` of a missing attribute or endpoint.

## Model

| member | source | states |
|---|---|---|
| RequestClient.NewClient | PeliasGeocoding/core/client.py:41-74 | a new client copies the provider's key, base URL, limit and unit, has an empty send window, no URL and no warnings, and a 60 s budget unless one is given |
| RequestClient.AuthQuery | PeliasGeocoding/core/client.py:234-242 | the query has one pair per parameter plus one more exactly when the key is non-empty, and that extra pair is `("api_key", key)` at the end; a pair list passed in comes back extended, a dict does not |
| RequestClient.AuthQueryContents | PeliasGeocoding/core/client.py:234-240 | a dict's pairs are sorted by key and are a permutation of the dict's items; a pair list keeps the caller's order |
| RequestClient.AuthQueryCanonical | PeliasGeocoding/core/client.py:235 | two dicts with the same key-to-value lookup give the same query, whatever their insertion order |
| RequestClient.PairsRetryRepeatsKey | PeliasGeocoding/core/client.py:234-240 | a pair list that goes through the URL builder twice, as on a retry, carries `api_key` twice |
| RequestClient.GetBody | PeliasGeocoding/core/client.py:191-218 | the body is returned exactly for status 200 and is the reply's body unchanged |
| RequestClient.GetBodyClassifies | PeliasGeocoding/core/client.py:194-218 | 429 gives `OverQueryLimit` and 400 gives `ApiError`, each with the error list joined by newlines (or `KeyError` when the list is absent); 403 gives `InvalidKey` with the fixed message; any other non-200 gives `GenericServerError` with the raw status and whole body |
| RequestClient.OverQueryLimitOnlyFor429 | PeliasGeocoding/core/client.py:194-198 | the retry path is taken exactly for a 429 reply whose body carries `geocoding.errors` |
| RequestClient.Push | PeliasGeocoding/core/client.py:150 | appending a send time grows the window by one until it holds `limit` entries, and then keeps it at `limit` |
| RequestClient.PushKeepsNewest | PeliasGeocoding/core/client.py:70 | after appending, the window ends with the new time, preceded by the newest earlier times in order (the oldest is evicted) |
| RequestClient.BackoffAsWritten | PeliasGeocoding/core/client.py:153-155 | the wait plus the time since the oldest send equals the interval (60 for "minute", else 1); an empty window raises `IndexError` |
| RequestClient.SleepAsWritten | PeliasGeocoding/core/client.py:161 | sleeping fails with `ValueError` exactly for a negative duration |
| RequestClient.Backoff | PeliasGeocoding/core/client.py:153-161 | the corrected wait is never negative, is the full interval for an empty window, never exceeds the interval, and agrees with the wait as written whenever that is defined and non-negative |
| RequestClient.BackoffAsWrittenFails | PeliasGeocoding/core/client.py:153-161 | concrete windows: the empty window raises `IndexError` where the corrected wait is 1 s; an old send gives a wait of -1 s, which `time.sleep` rejects, where the corrected wait is 0 s |
| RequestClient.BackoffScenario | PeliasGeocoding/core/client.py:153-155 | with three sends in the window, the wait is `1 - (now - first send)` for unit "second" and `60 - (now - first send)` for "minute" |
| RequestClient.Attempt | PeliasGeocoding/core/client.py:109-172 | one attempt: nothing is sent exactly when the budget is exceeded (then `Timeout` and an unchanged client); otherwise the URL is recorded before dispatch, a POST is used exactly when JSON is given, only a 429 with errors retries (after the corrected wait), only a 200 records a send time, and warnings change only on success |
| RequestClient.RequestAsWritten | PeliasGeocoding/core/client.py:152-163 | as written, a 429 never retries: it raises `IndexError` on an empty window and otherwise `AttributeError` on the misspelt `overQuerylimit` signal; every other reply behaves as one attempt |
| RequestClient.Request | PeliasGeocoding/core/client.py:77-172 | the corrected request keeps its configuration and a valid window, sends at most one request per exchange, announces one wait per retry and sends at most one request beyond them, and is left unfinished exactly when every exchange ended in a retry |
| RequestClient.RequestWithinBudget | PeliasGeocoding/core/client.py:109-114 | every request put on the wire was sent at a time within the budget measured from the first request time |
| RequestClient.RequestTimeout | PeliasGeocoding/core/client.py:112-114 | the run raises `Timeout` exactly when every earlier attempt was retried and the next attempt's clock reading exceeds the budget; nothing is sent for that attempt |
| RequestClient.RequestRetriesOnlyOverLimit | PeliasGeocoding/core/client.py:152-167 | the j-th announced wait follows an over-query-limit reply to the j-th exchange and equals the back-off computed from the client's window at that reply's time |
| RequestClient.RequestDispatches | PeliasGeocoding/core/client.py:116-144 | every dispatched request is a POST exactly when JSON is given, and for dict parameters goes to the base URL plus path with the authenticated query built from them |
| RequestClient.RequestLastUrl | PeliasGeocoding/core/client.py:119 | after the run the client holds the URL of the last request sent, or its old URL when nothing was sent |
| RequestClient.RequestWindow | PeliasGeocoding/core/client.py:148-150 | the send window changes only when the run ends on a 200 reply, and then gains that reply's receive time; retries leave it as it was |
| RequestClient.RequestOutcome | PeliasGeocoding/core/client.py:165-172 | a returned body is that of the last reply, a 200, and the client records its warnings; an error other than `Timeout` is the last reply's classified error (`KeyError('geocoding')` for a 200 without it); warnings change only when a body is returned |
| Strings.IntTextRoundTrip | PeliasGeocoding/proc/freetext_proc.py:259 | `str(n)` reads back as `n`: digits for n >= 0, a minus sign followed by the digits of -n otherwise |
| Strings.Capitalize | PeliasGeocoding/core/response_handler.py:89 | capitalising keeps the length, upper-cases the first letter and lower-cases the rest |
| PyDict.MergeGet | PeliasGeocoding/proc/freetext_proc.py:276 | in `{**a, **b}` a key of `b` takes `b`'s value and any other key keeps `a`'s |
| PyDict.SortItemsCanonical | PeliasGeocoding/core/client.py:235 | sorting the items of two dicts with the same contents gives the same list |
| Convert.TrimFloatText | PeliasGeocoding/utils/convert.py:45 | the trimmed text is a prefix of the input and never ends in `.` |
| Convert.TrimDecimal | PeliasGeocoding/utils/convert.py:45 | for `whole.frac`, trailing zeros of the fraction go, and the point goes too when the fraction is all zeros; the digits before the point are untouched |
| Convert.TrimExamples | PeliasGeocoding/utils/convert.py:34-38 | the documented examples: "40.0" gives "40", "40.1" stays, "40.001" stays |
| Convert.TrimIdempotentOnFractions | PeliasGeocoding/utils/convert.py:45 | trimming twice equals trimming once when the fraction is not all zeros |
| Convert.TrimNotIdempotentOnWholeNumbers | PeliasGeocoding/utils/convert.py:45 | trimming twice is not trimming once for a whole number: "40.0" gives "40", and "40" gives "4" |
| Convert.CommaList | PeliasGeocoding/utils/convert.py:48-65 | a `str` or `dict` argument raises `TypeError` naming its type; any other argument is joined exactly when it has `__iter__`, or `__getitem__` without `strip`; no elements give "" and one element gives that element |
| Convert.CommaListRoundTrip | PeliasGeocoding/utils/convert.py:54 | splitting the output on ',' gives back the elements when there is at least one and none contains ',' |
| Vocab.VocabularyContents | PeliasGeocoding/core/__init__.py:24-45 | 13 layers and 4 sources, the sources being osm, oa, wof, gn in order |
| Vocab.LayersSeparable | PeliasGeocoding/core/__init__.py:24-38 | the layer names are non-empty, pairwise distinct and free of ',' |
| Vocab.SourcesSeparable | PeliasGeocoding/core/__init__.py:40-45 | the source names are non-empty, pairwise distinct and free of ',' |
| Vocab.SelectionDeterminesIndices | PeliasGeocoding/proc/freetext_proc.py:255-258 | two selections that give the same `layers` / `sources` text are the same index list |
| Vocab.SelectionSplits | PeliasGeocoding/proc/freetext_proc.py:256 | splitting a selection's text on ',' gives the selected names in order |
| Vocab.LayersLackPlainLocaladmin | PeliasGeocoding/core/__init__.py:30 | no layer is the plain ten-letter "localadmin" |
| Vocab.LocaladminCarriesTab | PeliasGeocoding/core/__init__.py:30 | a selection that includes index 5 sends "localadmin" followed by a tab as one of its names, and never plain "localadmin" |
| ResponseHandler.BuildMappingGet | PeliasGeocoding/core/response_handler.py:123-167 | the map built by `OrderedDict` and `update` looks a key up in the debug entries first, then the standard ones, then the id field |
| ResponseHandler.StandardEntriesShape | PeliasGeocoding/core/response_handler.py:123-147 | 22 standard entries from "name" to "continent"; each has its nice name ("name" becomes "nice_name", "neighborhood" becomes "neighbourhood") and type (Double only for "confidence") |
| ResponseHandler.DebugEntriesShape | PeliasGeocoding/core/response_handler.py:149-167 | 14 debug entries, from `source_id` to `continent_gid` (shown as `continent_id`), all String; every entry after `source_id` is shown under a name other than its key |
| ResponseHandler.KeysDistinct | PeliasGeocoding/core/response_handler.py:123-167 | the standard keys are distinct, the debug keys are distinct, and no key is in both lists |
| ResponseHandler.FieldsMappingShape | PeliasGeocoding/core/response_handler.py:110-169 | when the id field is named unlike every fixed key, the map is the id entry, the 22 standard entries, then the 14 debug entries in debug mode (23 or 37 entries) |
| ResponseHandler.IdShadowedByStandardKey | PeliasGeocoding/core/response_handler.py:123-125 | an id field named like a standard key takes that key's place and spec, and the map has 22 entries |
| ResponseHandler.FieldsMappingGet | PeliasGeocoding/core/response_handler.py:110-169 | looking a property key up in the field map gives its debug, standard or id spec, in that priority, or nothing |
| ResponseHandler.UnknownKeyUnmapped | PeliasGeocoding/core/response_handler.py:69-72 | a property key outside the fixed lists and unlike the id field is not in the map |
| ResponseHandler.StandardKeyMapped | PeliasGeocoding/core/response_handler.py:69-72 | every standard key maps to its own spec, whatever the id field and debug mode |
| ResponseHandler.PositionsOfSpellings | PeliasGeocoding/core/response_handler.py:136 | "neighborhood" is the 12th standard key; "neighbourhood" is not a key |
| ResponseHandler.NeighbourhoodPropertyUnmapped | PeliasGeocoding/core/response_handler.py:136 | a property spelt "neighbourhood" is dropped, and one spelt "neighborhood" fills the `neighbourhood` attribute |
| ResponseHandler.GetFields | PeliasGeocoding/core/response_handler.py:98-108 | the earlier fields stay as a prefix; afterwards a name is present exactly when it was before or is the output name of some map entry; names stay unique |
| ResponseHandler.AppendEntriesFresh | PeliasGeocoding/core/response_handler.py:105-106 | map entries with pairwise distinct output names, none present yet, are appended one field each, in map order, with their output name and type |
| ResponseHandler.GetFieldsIdempotent | PeliasGeocoding/core/response_handler.py:105-106 | a second call changes nothing, because every name it would append is already present and `append` refuses it |
| ResponseHandler.FreshHandlerFields | PeliasGeocoding/core/response_handler.py:121-167 | for an id field named like no key and no output name, a fresh handler's fields are the id field, then the 22 standard fields in order, then in debug mode the 14 debug fields (23 or 37 in all) |
| ResponseHandler.SetAttribute | PeliasGeocoding/core/response_handler.py:67 | setting an attribute succeeds exactly when the name is one of the feature's fields, sets that name and leaves every other; otherwise it raises `KeyError` of the name |
| ResponseHandler.ApplyPropertiesFails | PeliasGeocoding/core/response_handler.py:69-72 | the properties loop raises exactly when a mapped property's output name is not a field, with the `KeyError` of the first such property's output name |
| ResponseHandler.ApplyPropertiesGet | PeliasGeocoding/core/response_handler.py:69-72 | when the loop raises nothing, an attribute holds the value of the last property mapped to it, if any, and otherwise keeps its value |
| ResponseHandler.OutFeatureFails | PeliasGeocoding/core/response_handler.py:61-72 | building a feature raises exactly when the id's name is not a field (then with its `KeyError`, before any property) or some property is misplaced; a built feature lies at the result's coordinates |
| ResponseHandler.Generate | PeliasGeocoding/core/response_handler.py:61-74 | the generator yields at most one record per result, and exactly one per result when it raises nothing |
| ResponseHandler.GenerateStops | PeliasGeocoding/core/response_handler.py:61-74 | the i-th record yielded is the i-th result's feature; the generator raises exactly when some result's feature fails, and then with the first failing result's error, right after the records before it |
| ResponseHandler.GeneratedAttributes | PeliasGeocoding/core/response_handler.py:61-74 | a yielded record lies at its result's coordinates; its attribute is the mapped property value if there is one, else the id value for the id field, else null; names outside the handler's fields are never set |
| ResponseHandler.GenerateOutcome | PeliasGeocoding/core/response_handler.py:61-74 | when the fields hold the id's name and every output name, the generator yields one record per result and raises nothing; when they lack the id's name, it raises that `KeyError` at the first result, having yielded nothing |
| ResponseHandler.FreshHandlerFits | PeliasGeocoding/core/response_handler.py:98-125 | after `get_fields`, a fresh handler's fields hold every name it sets exactly when the id's name is an output name of its map |
| ResponseHandler.UnshadowedIdFits | PeliasGeocoding/core/response_handler.py:121-125 | an id field named like no key keeps its own entry, so the fresh handler's fields hold every name it sets |
| ResponseHandler.ShadowedIdUnfit | PeliasGeocoding/core/response_handler.py:123-125 | an id field named like a standard key whose output name differs ("name", "neighborhood") is the name of no field of the fresh handler |
| ResponseHandler.IdNamedNameRaises | PeliasGeocoding/core/response_handler.py:67 | with an id field called "name", the generator raises `KeyError('name')` at the first result of any non-empty reply, yielding nothing |
| ResponseHandler.LayerTitle | PeliasGeocoding/core/response_handler.py:89 | the title is "Pelias ", then the name with its first character upper-cased and the rest lower-cased, then " Geocoding" |
| ResponseHandler.GetLayer | PeliasGeocoding/core/response_handler.py:76-96 | the handler's fields are fetched once more; the layer exists exactly when the generator (id value `None`) raises nothing, and then has the title for the name, those fields and exactly the generated records; otherwise the generator's error is raised |
| ResponseHandler.DialogLayerTitles | PeliasGeocoding/core/response_handler.py:89 | the search and reverse layers are titled "Pelias Search Geocoding" and "Pelias Reverse Geocoding" |
| ResponseHandler.LayerIdIsNull | PeliasGeocoding/core/response_handler.py:89-96 | for a fresh handler whose id field is named like no key, the layer is built with one feature per result, and its id attribute is null unless a property mapped to it overrides it |
| QueryParams.FocusPairsGet | PeliasGeocoding/proc/freetext_proc.py:243 | the focus assignment sets exactly `focus.lon` and `focus.lat` to the formatted coordinates |
| QueryParams.RectPairsGet | PeliasGeocoding/proc/freetext_proc.py:244-248 | the rectangle assignment sets exactly the four `boundary.rect.*` keys to the formatted corner coordinates |
| QueryParams.CirclePairsGet | PeliasGeocoding/proc/freetext_proc.py:249-252 | the circle assignment sets exactly the circle's lon, lat and the radius as text |
| QueryParams.AreaParamsGet | PeliasGeocoding/proc/freetext_proc.py:242-252 | the spatial dict agrees with the reference table for every key; the table includes each focus, rectangle and circle key only when that restriction is given |
| QueryParams.FilterParamsGet | PeliasGeocoding/proc/freetext_proc.py:253-259 | every filter key holds its value from the reference table when the table has one (country, layers and sources only when non-empty, `size` always as text); every other key keeps its previous value |
| QueryParams.AreaFilterApart | PeliasGeocoding/proc/freetext_proc.py:242-259 | no key is both a spatial key and a filter key |
| QueryParams.SearchParamsGet | PeliasGeocoding/proc/freetext_proc.py:240-259 | the shared search parameters form a well-formed dict; each key holds its spatial value if it has one, and otherwise its filter value |
| QueryParams.ReverseParamsGet | PeliasGeocoding/proc/reverse_proc.py:185-193 | the shared reverse parameters hold exactly the filter values and no spatial key |
| QueryParams.FocusOnlyWhenGiven | PeliasGeocoding/proc/freetext_proc.py:242-243 | `focus.lon` / `focus.lat` are present, formatted, exactly when both focus coordinates are non-zero |
| QueryParams.SearchFilterPresence | PeliasGeocoding/proc/freetext_proc.py:253-259 | country, layers and sources are present exactly when non-empty; size is always present as `str(size)` |
| Batch.Attribute | PeliasGeocoding/proc/freetext_proc.py:272 | reading an attribute succeeds exactly when the feature has it, with its value, and otherwise raises `KeyError` of that name |
| Batch.ProgressBounds | PeliasGeocoding/proc/freetext_proc.py:292 | progress is between 0 and 99 and does not decrease as `num` grows |
| Batch.Step | PeliasGeocoding/proc/freetext_proc.py:273-292 | one iteration sends at most one request and has exactly one outcome: it raises, skips the feature, or reports one progress value; when it does not raise, it sent the feature's request to the endpoint |
| Batch.RunSplit | PeliasGeocoding/proc/freetext_proc.py:268 | running a list of features is running a prefix and then, unless it raised, the rest |
| Batch.NoStopNoRaise | PeliasGeocoding/proc/freetext_proc.py:268-292 | when no iteration raises, the run ends normally and sends one request per feature |
| Batch.RaisedByFirstStop | PeliasGeocoding/proc/freetext_proc.py:273-290 | the first iteration that raises ends the run with its error; nothing after it is sent, recorded or reported; the records its generator yielded before raising stay in the sink |
| Batch.SkippedFeatureLeavesNoRecords | PeliasGeocoding/proc/freetext_proc.py:277-286 | a feature whose request fails with `ApiError`, `GenericServerError` or `InvalidKey` adds one skip entry and its request, no records and no progress, and the run goes on |
| Batch.MissingEndpointRaises | PeliasGeocoding/proc/freetext_proc.py:275 | a provider without the endpoint makes the first feature raise `KeyError` of the endpoint key before anything is sent |
| Batch.SucceedingIteration | PeliasGeocoding/proc/freetext_proc.py:288-292 | a successful request sends one request, skips nothing and adds what the generator yields for the reply; it reports `Progress(count, num)` and goes on unless the generator raised, and then it raises the same error |
| Batch.AllSucceed | PeliasGeocoding/proc/freetext_proc.py:288-292 | when every request succeeds and the handler's fields hold every name it sets, the run raises nothing, skips nothing, the sink gets every reply's records in feature order and the i-th progress value is `int(100 * (num + i) / count)` |
| Batch.GenerationErrorRaises | PeliasGeocoding/proc/freetext_proc.py:288-290 | a successful reply whose generator raises ends the run with that error, after the earlier features' records and the ones yielded before the error; no progress is reported for it |
| Batch.UncaughtErrorRaises | PeliasGeocoding/proc/freetext_proc.py:277-286 | a request failing with an error other than `ApiError`, `GenericServerError` and `InvalidKey` ends the run with that error, right after its request is sent; no records, skips or progress are added for it |
| Batch.ProgressMonotone | PeliasGeocoding/proc/freetext_proc.py:292 | reported progress values lie below 100 and never decrease |
| FeatureParams.CollectFails | PeliasGeocoding/proc/structured_proc.py:351-366 | the per-feature block raises exactly when a chosen field is missing from the feature, with the `KeyError` of the first such field |
| FeatureParams.CollectGetAt | PeliasGeocoding/proc/structured_proc.py:351-366 | when the block succeeds, a per-feature key holds the feature's value when its field is chosen and the value is truthy, and otherwise keeps what the dict held before |
| FeatureParams.CollectGetOther | PeliasGeocoding/proc/structured_proc.py:351-366 | keys the block does not name are left alone |
| FeatureParams.JobBroken | PeliasGeocoding/proc/structured_proc.py:351-368 | a feature stops the run exactly when a chosen field or the id field is missing; the chosen fields are read first; otherwise its id value is the feature's |
| FeatureParams.JobParamsAt | PeliasGeocoding/proc/structured_proc.py:371-372 | in `{**params, **params_feat}` a wanted per-feature value wins over the shared parameter of the same key |
| FeatureParams.JobParamsOther | PeliasGeocoding/proc/structured_proc.py:371-372 | every other key carries the shared parameter |
| FreeTextSearch.EndpointKeyOfName | PeliasGeocoding/proc/freetext_proc.py:50-51 | `'pelias_search_free'.split('_')` is pelias, search, free, so the endpoint key is "search" |
| FreeTextSearch.RequestParams | PeliasGeocoding/proc/freetext_proc.py:269-276 | each request carries `text` from the chosen field when truthy, and otherwise exactly the shared search parameters |
| FreeTextSearch.BrokenFeature | PeliasGeocoding/proc/freetext_proc.py:270-272 | a feature stops the run with `KeyError` exactly when the chosen text field or the id field is missing, the text field being reported first |
| FreeTextSearch.IdNamedNameAborts | PeliasGeocoding/proc/freetext_proc.py:261-290 | with an id field called "name", a first reply with any result stops the run with `KeyError('name')` after one request, with no record and no progress |
| FreeTextSearch.MissingSearchEndpoint | PeliasGeocoding/proc/freetext_proc.py:275 | without a `search` endpoint the run raises `KeyError('search')` and sends and records nothing |
| StructuredSearch.EndpointKeyOfName | PeliasGeocoding/proc/structured_proc.py:50-51 | `'pelias_search_structured'.split('_')` has "structured" third, which is the endpoint key |
| StructuredSearch.AddressKeysDistinct | PeliasGeocoding/proc/structured_proc.py:351-366 | the eight address keys are pairwise distinct |
| StructuredSearch.AddressParam | PeliasGeocoding/proc/structured_proc.py:351-372 | each address key of a request is the feature's value of its chosen field when truthy, and otherwise the shared parameter |
| StructuredSearch.OtherParam | PeliasGeocoding/proc/structured_proc.py:371-372 | every other key of a request is the shared spatial or filter parameter |
| StructuredSearch.BrokenFeature | PeliasGeocoding/proc/structured_proc.py:351-368 | a feature stops the run exactly when one of its chosen address fields or the id field is missing |
| ReverseGeocoding.EndpointKeyOfName | PeliasGeocoding/proc/reverse_proc.py:50-51 | `'pelias_reverse'.split('_')` has "reverse" second, which is the endpoint key |
| ReverseGeocoding.RequestsAt | PeliasGeocoding/proc/reverse_proc.py:204-206 | although every feature writes its point into the one shared dict, request n is the shared dict with only feature n's point in it |
| ReverseGeocoding.RequestParams | PeliasGeocoding/proc/reverse_proc.py:185-210 | request n holds feature n's reprojected x and y as raw numbers under `point.lon` / `point.lat`, and otherwise exactly the filter parameters |
| ReverseGeocoding.MissingReverseEndpoint | PeliasGeocoding/proc/reverse_proc.py:210 | without a `reverse` endpoint the run raises `KeyError('reverse')` and sends and records nothing |

## Left out

- HTTP, JSON decoding, the `requests` session, its headers and its own timeouts are left out. A reply is a status and a decoded body.
- Percent-encoding is left out: `urlencode` and `unquote_unreserved` are not modelled. A URL is the base, the path and the ordered query pairs.
- Clocks and `time.sleep` are not performed. Clock readings are inputs, and the wait is returned.
- Qt signals are not emitted. The over-query-limit notice is the list of announced waits.
- Logging (`utils/logger.py`) is left out: it is output only.
- Float formatting is not modelled: the decimal text of `round(x, 6)` is a function parameter. Only the trim after it is modelled.
- Reprojection (`utils/transform.py`) is a function parameter of the reverse algorithm.
- QGIS types are plain data: fields are records, features are attribute dicts (plus a point for the reverse algorithm), and layers are records.
- Reading processing parameters and the provider configuration files is left out. The algorithms take those values as inputs.
- `in_source.fields().field(name)` is left out: the id field is given directly.
- The client in the loop is a function of the feature number, path and parameters. The client state it threads from feature to feature is modelled separately, by `RequestClient.Request`.
- The text of the error reports in the loop is left out; a skip records the feature number, id value and error.
- `Batch.ProgressBounds`: progress uses exact integer arithmetic, `(100 * num) / count`. The float rounding of `int(100.0 / count * num)` is not modelled.
- `ResponseHandler.DebugEntriesShape`: names only the first and last debug entries exactly. For the others it states only that their shown names differ from their keys.
- `Strings.Capitalize`: upper-cases and lower-cases ASCII letters only. Python's `str.capitalize` follows Unicode case mappings: 'ß' becomes "Ss" and the first character is title-cased. The title of a non-ASCII name is therefore not modelled.
- `ResponseHandler.FreshHandlerFields`: also requires the id field's name to be no output name. An id field named, say, "nice_name" makes `append` refuse the standard field of that name, so the list is one shorter. `ResponseHandler.GetFields` still describes which names it holds.
- `Batch.AllSucceed`: covers only a handler whose fields hold the id's name and every output name (`ResponseHandler.Fits`), as after `get_fields` for an id field named like no key. Otherwise the first result raises `KeyError`, which `Batch.GenerationErrorRaises` and `FreeTextSearch.IdNamedNameAborts` state.
- `Convert.CommaListRoundTrip`: needs at least one element, because splitting "" gives `[""]`.
- The GUI, map tools and the `PeliasTools` package are left out: they are widgets and signal wiring.

## Findings

| source | as written | input that shows it | evidently intended | confidence | as-written member | corrected member |
|---|---|---|---|---|---|---|
| PeliasGeocoding/core/client.py:158 | the 429 path emits on `self.overQuerylimit`, but the declared signal is `overQueryLimit`, so it raises `AttributeError` before sleeping and never retries | any 429 reply with an error list and a non-empty send window | emit on `overQueryLimit`, sleep, then retry with the same `first_request_time` | not executed | RequestClient.RequestAsWritten | RequestClient.Request |
| PeliasGeocoding/core/client.py:153 | `sent_times[0]` is read without checking the window, so a 429 before any successful send raises `IndexError` | a 429 on the client's first request (empty window) | wait the full interval when no send is recorded | not executed | RequestClient.BackoffAsWritten | RequestClient.Backoff |
| PeliasGeocoding/core/client.py:155-161 | latent behind the `AttributeError` at line 158, which is raised first: once that is fixed, the wait is `interval - (now - oldest)`, which is negative when the oldest send is older than the interval, and `time.sleep` raises `ValueError` for it | window [0.0] at time 2.0 with unit "second" gives -1.0 | wait `max(0, interval - (now - oldest))` | not executed | RequestClient.BackoffAsWrittenFails | RequestClient.Backoff |
