# Graphite and PRTG backends of slo-generator, in Dafny

This project models the two metrics backends of slo-generator that read Graphite and
PRTG:

- `slo_generator/backends/graphite.py`
- `slo_generator/backends/prtg.py`

Each backend turns a decoded JSON response into the numbers an SLO report is built
from:

- a `(good, bad)` pair of event counts from a threshold;
- a summed event count (Graphite `count`);
- an availability fraction and a bandwidth ratio (PRTG).

The project also models how each client builds the URL it requests.

The decoded response is a JSON value (`Json.Value`). Python's partial operations on
it become total functions that return an `Outcomes.Outcome`: either a value or the
exception Python would raise. These operations are `len`, `v[i]`, `v['k']`,
iteration, `.get`, `<=`, `.strip`, `int()` and `/`. A `try`/`except` becomes
`Outcomes.Except`, which catches exactly the exceptions the source lists, so an
exception the source does not catch stays visible in the result. A Python `for` loop
over a list becomes `Outcomes.Fold`, which stops at the first exception.

The loops and the step-by-step URL building of the source are methods proved against these functions:

- `Graphite.CountThreshold`, `Graphite.FillSeries` and `Graphite.Count`;
- `Prtg.CountAvailability` and `Prtg.CountBandwidth`;
- the `RequestUrl` methods of both client classes.

The properties are lemmas about the functions.

Modules:

- `Outcomes`: exceptions, `Outcome`, `Option`, `Except` (try/except), `Fold` (a `for`
  loop that may raise).
- `Json`: the JSON value and the Python operations the backends apply to it.
- `Text`: `str.strip` with a set of characters, `int()` on a string, decimal rendering.
- `QueryString`: a keyword-argument dict as an ordered list of `(key, value-or-None)`
  pairs, the `"&".join("%s=%s" ...)` rendering, `params[k] = v`, and a decoder used to
  state round trips.
- `Sli`: the `(good, bad)` pair with `NO_DATA` as its own variant, `sum` and the mean.
- `Graphite`: `count_threshold`, `count`, `threshold`, `query`, and `GraphiteClient`.
- `Prtg`: `count_threshold`, `count_availability`, `count_bandwidth`, `retry_http`,
  the parameters of `query_historicdata` and `query_table`, and `PrtgClient`.

## Model

| member | source | states |
|---|---|---|
| Graphite.CountThreshold | slo_generator/backends/graphite.py:118-156 | The `while` loop over the series and the `for` loop over the samples give exactly `ThresholdCounts`, including every exception the loops stop at and the unbound `below` of an empty response |
| Graphite.ThresholdCounts | slo_generator/backends/graphite.py:118-156 | Only an exception outside `(IndexError, KeyError, ZeroDivisionError)` escapes, and a `(good, bad)` pair comes only from a response with at least one series |
| Graphite.FillSeries | slo_generator/backends/graphite.py:137-148 | The inner loop starts both buckets empty and gives the buckets of the series, or the first exception a sample raises |
| Graphite.FillBucketsBounds | slo_generator/backends/graphite.py:141-148 | "below" holds only numbers `<= threshold` (a value equal to the threshold is below) and "above" only numbers `> threshold` |
| Graphite.FillBucketsPartition | slo_generator/backends/graphite.py:139-148 | The two buckets together are a permutation of the series' non-null values, so `len(below) + len(above)` is the number of non-null samples |
| Graphite.AddSamplePartition | slo_generator/backends/graphite.py:141-148 | One sample adds nothing when it is None, and otherwise adds its value to exactly one bucket |
| Graphite.OnlyLastSeriesCounts | slo_generator/backends/graphite.py:133-149 | After well-formed earlier series, the result for all series equals the result for the last series alone, because the buckets are re-created for each series |
| Graphite.ScanSeriesPrefix | slo_generator/backends/graphite.py:133-149 | The first k passes of the outer loop depend only on the first k series |
| Graphite.ScanStopsAtRaise | slo_generator/backends/graphite.py:133-149 | A series that raises ends the outer loop with its exception; later series are not read |
| Graphite.SampleStopsSeries | slo_generator/backends/graphite.py:139-148 | A sample that raises ends its series with its exception |
| Graphite.SeriesRaiseEscapes | slo_generator/backends/graphite.py:133-156 | A raising series decides the result: NO_DATA when its exception is caught, the exception otherwise |
| Graphite.ThresholdFlagSwaps | slo_generator/backends/graphite.py:150-152 | The two flag settings give the same pair in reverse order, and the same NO_DATA or exception |
| Graphite.MissingDatapointsIsNoData | slo_generator/backends/graphite.py:135-156 | A series without a 'datapoints' key gives `(NO_DATA, NO_DATA)` |
| Graphite.BadSampleOutcome | slo_generator/backends/graphite.py:141-156 | An empty sample `[]` gives `(NO_DATA, NO_DATA)`; a str value makes the comparison raise TypeError, which escapes |
| Graphite.DictResponseIsNoData | slo_generator/backends/graphite.py:131-156 | A non-empty dict response gives `(NO_DATA, NO_DATA)`, since `response[0]` is a KeyError |
| Graphite.EmptyResponseEscapes | slo_generator/backends/graphite.py:131-153 | An empty response never runs the loop; the UnboundLocalError on `below` is not caught and escapes |
| Graphite.ExampleBuckets | slo_generator/backends/graphite.py:139-148 | With threshold 50, the samples 10, null, 60, 50 give below = [10, 50] and above = [60] |
| Graphite.ThresholdExample | slo_generator/backends/graphite.py:118-152 | That series gives (2, 1), and (1, 2) with the flag false |
| Graphite.Count | slo_generator/backends/graphite.py:93-115 | The loop extending `values` gives exactly `EventTotal`: the sum of the collected values, or NO_DATA for a caught exception |
| Graphite.EventTotal | slo_generator/backends/graphite.py:93-115 | It raises only exceptions outside `(IndexError, KeyError)`, and it returns a count only when collecting the values raised nothing |
| Graphite.KeptAreAboveZero | slo_generator/backends/graphite.py:106-109 | The comprehension keeps, in order and with repeats, exactly the numbers above zero among the values; None is skipped |
| Graphite.AboveZeroCount | slo_generator/backends/graphite.py:106-109 | Each number above zero is kept as many times as it occurs, and no other number is kept |
| Graphite.AboveZeroAppend | slo_generator/backends/graphite.py:110 | Filtering the values of two lists in turn is filtering their concatenation |
| Graphite.CollectedAreAboveZero | slo_generator/backends/graphite.py:105-110 | After the loop, `values` holds exactly the numbers above zero of every entry's values, entry after entry, repeats included |
| Graphite.CountIsPositiveTotal | slo_generator/backends/graphite.py:102-111 | `count` is the sum of every number above zero in the values of all entries of the first result, each counted as often as it occurs |
| Graphite.CountIsNonNegative | slo_generator/backends/graphite.py:102-111 | The count is never negative, and it is 0 exactly when no positive value was found |
| Graphite.CountNoData | slo_generator/backends/graphite.py:102-115 | A missing 'result' or 'data' key, or an empty result list, gives NO_DATA |
| Graphite.CountMissingValues | slo_generator/backends/graphite.py:105-115 | An entry without 'values', after well-formed entries, gives NO_DATA |
| Graphite.ExamplePositives | slo_generator/backends/graphite.py:106-109 | Of 5, -3, 0, null, 7 the comprehension keeps 5 and 7 |
| Graphite.CountExample | slo_generator/backends/graphite.py:102-111 | Those values count 12 |
| Graphite.GraphiteClient.constructor | slo_generator/backends/graphite.py:165-167 | The client keeps the API URL without its trailing slashes |
| Graphite.GraphiteClient.RequestUrl | slo_generator/backends/graphite.py:185-193 | The URL is the base, `/`, the endpoint, `=`, the metric, `&` and the rendered parameters |
| Graphite.RenderQueryDecode | slo_generator/backends/graphite.py:185-193 | The text after `render?` reads back as `target=<metric>`, then the parameters that are not None, in order |
| Graphite.RenderUrl | slo_generator/backends/graphite.py:185-193 | The render URL: base, `/`, endpoint, `=`, metric, `&`, then the parameters that are not None |
| Graphite.RenderUrlQuery | slo_generator/backends/graphite.py:165-193 | The render URL has a single `/` before `render`, because the base keeps no trailing `/`, and its query string reads back as above |
| Graphite.Pad | slo_generator/backends/graphite.py:83-84 | A zero-padded field is all digits and reads back as its number |
| Graphite.FormatTime | slo_generator/backends/graphite.py:83-84 | `%H:%M_%Y%m%d` has 14 characters |
| Graphite.FormatTimeRoundTrip | slo_generator/backends/graphite.py:83-84 | Each field of the time can be read back from its fixed place in the formatted string |
| Graphite.FormatTimeExample | slo_generator/backends/graphite.py:83-84 | 2021-02-02 05:45 formats as `05:45_20210202` |
| Graphite.QueryParamsRender | slo_generator/backends/graphite.py:82-86 | The query string is `from=…&until=…&format=json`, in that order |
| Graphite.Threshold | slo_generator/backends/graphite.py:44-67 | `threshold` queries the window `[timestamp - window, timestamp]` at the render endpoint and classifies the response; `good_below_threshold` defaults to true |
| Prtg.BelowBucket | slo_generator/backends/prtg.py:211-214 | "below" holds exactly the float values strictly under the threshold, each as often as it occurs |
| Prtg.ThresholdCounts | slo_generator/backends/prtg.py:194-228 | Only an exception outside `(IndexError, KeyError, ZeroDivisionError)` escapes, and a `(good, bad)` pair comes only from a response with 'histdata' |
| Prtg.AboveBucket | slo_generator/backends/prtg.py:215-218 | "above" holds exactly the float values strictly over the threshold, each as often as it occurs |
| Prtg.BucketSizes | slo_generator/backends/prtg.py:211-218 | below + above ≤ the number of floats ≤ the number of round-trip values, with equality in the first exactly when no float equals the threshold |
| Prtg.BucketsAppend | slo_generator/backends/prtg.py:211-218 | The buckets of a concatenation are the concatenated buckets |
| Prtg.NonFloatIgnored | slo_generator/backends/prtg.py:213 | A round-trip time that is not exactly a float changes neither bucket, wherever it appears |
| Prtg.ThresholdFlagSwaps | slo_generator/backends/prtg.py:222-224 | The two flag settings give the same pair in reverse order |
| Prtg.HistdataCases | slo_generator/backends/prtg.py:206-228 | A missing 'histdata' gives `(NO_DATA, NO_DATA)`, an empty one gives (0, 0), and a non-dict response raises TypeError |
| Prtg.MissingRttIsNoData | slo_generator/backends/prtg.py:211-228 | A point without the round-trip key gives `(NO_DATA, NO_DATA)`, even after points that have it |
| Prtg.RttsLength | slo_generator/backends/prtg.py:212 | Reading the round-trip values gives exactly one value per point |
| Prtg.ThresholdBoundedByPoints | slo_generator/backends/prtg.py:206-224 | The good and bad counts together never exceed the number of points in 'histdata' |
| Prtg.RttsOfPoints | slo_generator/backends/prtg.py:212 | Points that each hold a round-trip time read back as those times, in order |
| Prtg.ThresholdExample | slo_generator/backends/prtg.py:206-224 | With threshold 50, the values 12.5, 3, null, 50.0, "", 80.25 give (1, 1) |
| Prtg.CountAvailability | slo_generator/backends/prtg.py:231-255 | The loop appending coverages and the average give exactly `Availability`, including the caught and the escaping exceptions |
| Prtg.Availability | slo_generator/backends/prtg.py:231-255 | Only an exception outside `(IndexError, AttributeError)` escapes, and a result other than 0 comes only from a response with 'histdata' |
| Prtg.CoveragesOf | slo_generator/backends/prtg.py:244-248 | The loop collects one value per point, the k-th being the k-th point's coverage |
| Prtg.AvailabilityIsMean | slo_generator/backends/prtg.py:249-255 | The result is the mean of the coverages, and 0 when there are none |
| Prtg.AvailabilityBounded | slo_generator/backends/prtg.py:251 | When every coverage lies in [lo, hi], so does the result |
| Prtg.AvailabilityFallbacks | slo_generator/backends/prtg.py:241-255 | A missing 'histdata' raises KeyError, which is not caught; a coverage that is not a str gives 0 |
| Prtg.CoverageRoundTrip | slo_generator/backends/prtg.py:245 | A coverage `str(n)` with spaces or `%` around it reads as n / 100 |
| Prtg.ExampleCoverages | slo_generator/backends/prtg.py:245 | "100 %" reads 1.0 and "50 %" reads 0.5 |
| Prtg.AvailabilityExample | slo_generator/backends/prtg.py:241-251 | Coverages 1.0 and 0.5 average to 0.75 |
| Prtg.CountBandwidth | slo_generator/backends/prtg.py:258-278 | The loop overwriting `value` gives exactly `Bandwidth`, including the unbound `value` and division by zero |
| Prtg.Bandwidth | slo_generator/backends/prtg.py:258-278 | Only an exception outside `(IndexError, AttributeError)` escapes, and a result other than 0 needs 'channels' and a capacity other than 0 |
| Prtg.TrafficStepCases | slo_generator/backends/prtg.py:270-273 | A 'Traffic Total' channel sets the value to its parsed 'lastvalue'; any other channel keeps it |
| Prtg.TrafficValuesParse | slo_generator/backends/prtg.py:270-273 | After a complete loop, every 'Traffic Total' channel had a readable 'lastvalue' |
| Prtg.TrafficUnbound | slo_generator/backends/prtg.py:270-274 | `value` stays unbound exactly when no channel is named 'Traffic Total' |
| Prtg.LastTrafficWins | slo_generator/backends/prtg.py:270-273 | A bound `value` is the parsed 'lastvalue' of a 'Traffic Total' channel with no other such channel after it |
| Prtg.NoTrafficTotalEscapes | slo_generator/backends/prtg.py:268-278 | Without a 'Traffic Total' channel the UnboundLocalError escapes |
| Prtg.ZeroCapacityEscapes | slo_generator/backends/prtg.py:274-278 | A capacity of 0 raises ZeroDivisionError, which escapes |
| Prtg.NonStringLastValue | slo_generator/backends/prtg.py:268-278 | A 'Traffic Total' channel whose 'lastvalue' is not a str gives 0 |
| Prtg.LastValueRoundTrip | slo_generator/backends/prtg.py:272 | A 'lastvalue' written `str(n) + " Mbit/s"` reads as n |
| Prtg.KilobitsRejected | slo_generator/backends/prtg.py:272 | The strip removes characters, not the unit: "5 kbit/s" keeps "k", and `int()` raises ValueError |
| Prtg.BandwidthIsRatio | slo_generator/backends/prtg.py:274 | With `value` bound and a capacity other than 0, the result is value / capacity |
| Prtg.ExampleInbound | slo_generator/backends/prtg.py:271 | A channel named "Traffic In" is not the total |
| Prtg.ExampleTotal | slo_generator/backends/prtg.py:271-272 | A "Traffic Total" channel at "250 Mbit/s" is the total and reads 250 |
| Prtg.ExampleTrafficFold | slo_generator/backends/prtg.py:270-273 | After the inbound channel and the total channel, `value` is 250 |
| Prtg.BandwidthOfTwo | slo_generator/backends/prtg.py:268-278 | A channel that leaves the value unbound, then one that binds it, give that value over any non-zero capacity |
| Prtg.BandwidthExample | slo_generator/backends/prtg.py:268-274 | Those channels over a capacity of 1000 give 0.25 |
| Prtg.RetryOnCode | slo_generator/backends/prtg.py:291-293 | For any response whose 'error' dict has a 'code', the result is that code's `int()` compared with 429, or the exception `int()` raises |
| Prtg.RetryOnIntCode | slo_generator/backends/prtg.py:291-293 | An int code retries exactly when it is 429, whatever other keys the response and its 'error' hold |
| Prtg.RetryHttp | slo_generator/backends/prtg.py:280-293 | The predicate raises only AttributeError, TypeError or ValueError, and asks for a retry only when the response has an 'error' |
| Prtg.RetryOnStrCode | slo_generator/backends/prtg.py:292-293 | A code sent as the str of an int retries exactly when it is "429", whatever other keys the response and its 'error' hold |
| Prtg.RetryOnPaddedCode | slo_generator/backends/prtg.py:292-293 | A str code with whitespace around the numeral, U+001C to U+001F included, retries exactly when the numeral is 429 |
| Prtg.RetryOnFloatCode | slo_generator/backends/prtg.py:292-293 | A float code is truncated by `int()`, so it retries exactly when 429 ≤ code < 430 |
| Prtg.RetryDefaults | slo_generator/backends/prtg.py:292 | A missing 'error' or 'code' defaults to 200, so there is no retry |
| Prtg.RetryWithoutGet | slo_generator/backends/prtg.py:292 | A response or an 'error' that is not a dict has no `.get`, so it raises AttributeError |
| Prtg.RetryOnBadCode | slo_generator/backends/prtg.py:292 | A None code raises TypeError, and a non-numeral str raises ValueError, whatever other keys the response and its 'error' hold |
| Prtg.RetryExample | slo_generator/backends/prtg.py:280-293 | A rate-limit error carrying a version and a message beside code 429 asks for a retry |
| Prtg.PrtgClient.constructor | slo_generator/backends/prtg.py:306-309 | The client keeps the API URL without its trailing slashes, and the passhash |
| Prtg.PrtgClient.RequestUrl | slo_generator/backends/prtg.py:336-348 | The URL is base, `/api/`, the endpoint, `/name` only when the name is truthy, `?`, then the parameters after `passhash` is set to the token |
| Prtg.PasshashInjected | slo_generator/backends/prtg.py:338 | Without a caller 'passhash', the token goes last, or is dropped when None; with one, the keys and their order are kept |
| Prtg.ApiUrl | slo_generator/backends/prtg.py:337-348 | The request URL: base, `/api/`, endpoint, `/name` when the name is truthy, `?`, then the parameters that are not None |
| Prtg.PasshashQuery | slo_generator/backends/prtg.py:338-348 | The query string reads back as the caller's parameters that are not None, then the token |
| Prtg.HistoricDataKeys | slo_generator/backends/prtg.py:148-156 | `query_historicdata` passes no 'passhash' of its own |
| Prtg.HistoricDataPresentPairs | slo_generator/backends/prtg.py:148-156 | Its parameters that are not None are the dates, 'json', the probe id when set, and the fixed user and options, in order |
| Prtg.HistoricDataQuery | slo_generator/backends/prtg.py:148-160 | A historic-data request's query string reads back as those pairs with the token last |
| Outcomes.Except | slo_generator/backends/graphite.py:153-156 | An exception in the caught set becomes the fallback value; any other exception passes through unchanged, and a value is kept |
| Outcomes.FoldNext | slo_generator/backends/graphite.py:139-148 | One more pass of a loop applies the loop body to the next element |
| Outcomes.FoldStopsAtRaise | slo_generator/backends/graphite.py:139-148 | Once a pass raises, the loop ends with that exception |
| Outcomes.FoldPrefixOk | slo_generator/backends/prtg.py:244-248 | A loop that completes ran every prefix without an exception |
| Outcomes.FoldLastHit | slo_generator/backends/prtg.py:270-273 | When a pass overwrites the state only at matching elements, the final state is the initial one exactly when nothing matched, and otherwise comes from the last match |
| Json.Lookup | slo_generator/backends/graphite.py:135 | A key is found exactly when some entry has it, and the value found belongs to such an entry |
| Text.StripRight | slo_generator/backends/graphite.py:167 | `rstrip` removes only characters of the set, and the result does not end with one |
| Text.StripLeft | slo_generator/backends/prtg.py:245 | Removes only characters of the set from the front, and the result does not start with one |
| Text.Strip | slo_generator/backends/prtg.py:245 | The result neither starts nor ends with a character of the set |
| Text.StripLeftSlice | slo_generator/backends/prtg.py:245 | The left strip is a suffix of the input |
| Text.StripRightSlice | slo_generator/backends/graphite.py:167 | The right strip is a prefix of the input |
| Text.StripSlice | slo_generator/backends/prtg.py:245 | The strip is a contiguous slice of the input |
| Text.StripCutsOnlyChars | slo_generator/backends/prtg.py:245 | Everything cut off at either end is in the set |
| Text.StripKeeps | slo_generator/backends/prtg.py:245 | A string whose ends are not in the set is unchanged |
| Text.StripAround | slo_generator/backends/prtg.py:245 | Characters of the set around a core are removed, and the core is kept intact |
| Text.StripLeftPrefix | slo_generator/backends/prtg.py:245 | A prefix made of set characters is removed exactly |
| Text.StripRightSuffix | slo_generator/backends/prtg.py:272 | A suffix made of set characters is removed exactly |
| Text.Decimal | slo_generator/backends/graphite.py:83-84 | The decimal form is all digits, with no leading zero |
| Text.DigitsOfDecimal | slo_generator/backends/graphite.py:83-84 | The decimal form reads back as its number |
| Text.DigitsLeadingZeros | slo_generator/backends/graphite.py:83-84 | Leading zeros do not change the number a digit string reads as |
| Text.ParseInt | slo_generator/backends/prtg.py:245 | `int()` on a str fails only with ValueError |
| Text.ParseIntRoundTrip | slo_generator/backends/prtg.py:272 | `int(str(n)) == n` for every integer n |
| Text.ParseIntPadded | slo_generator/backends/prtg.py:292 | `int()` ignores Python's ASCII whitespace around `str(n)`, the separators U+001C to U+001F included |
| Text.SeparatorPaddedExample | slo_generator/backends/prtg.py:292 | A numeral preceded by U+001C and followed by a newline parses as its value |
| Text.ParseUnsigned | slo_generator/backends/prtg.py:245 | A digit string parses as its decimal value |
| Text.ParseSigned | slo_generator/backends/prtg.py:245 | A `-` followed by digits parses as the negated value |
| QueryString.Set | slo_generator/backends/prtg.py:338 | `params[k] = v` updates an existing key in place or appends a new one, and leaves every other key as it was |
| QueryString.PresentAppend | slo_generator/backends/prtg.py:346-347 | Dropping None values distributes over concatenation |
| QueryString.SplitFieldOf | slo_generator/backends/graphite.py:191-192 | A `k=v` field splits back into its key and value when the key has no `=` |
| QueryString.DecodeEncode | slo_generator/backends/graphite.py:191-192 | The `&`-joined `k=v` string reads back as its pairs, in order, when no key or value holds `&` and no key holds `=` |
| Sli.SumOfPositives | slo_generator/backends/graphite.py:111 | A sum of positive values is non-negative, and zero exactly when there are none |
| Sli.SumBetween | slo_generator/backends/prtg.py:251 | A sum of n values in [lo, hi] lies in [n·lo, n·hi] |
| Sli.MeanBetween | slo_generator/backends/prtg.py:251 | The mean of values in [lo, hi] lies in [lo, hi] |

## Left out

- HTTP transport is not modelled. This covers `requests.Session`, the `getattr` method dispatch, headers, the GET itself and `to_json`. The client methods return the URL they would request, and `Graphite.Threshold` takes the fetch as a function parameter from URL to decoded JSON.
- EventTotal (Graphite.EventTotal): its own contract states only which exceptions escape and when a count is produced. The value of the count is stated by `Graphite.CountIsPositiveTotal`, and its sign by `Graphite.CountIsNonNegative`.
- The put/post branch of `GraphiteClient.request` is not modelled. It refers to an undefined `post_data` and no caller takes it.
- The `@retry` decorator's exponential back-off is not modelled, because it is library timing; only its `retry_http` predicate is.
- `datetime.fromtimestamp` depends on the host time zone. `Graphite.Threshold` takes the conversion to broken-down local time as a parameter, and only the `strftime("%H:%M_%Y%m%d")` formatting of the fields is modelled.
- The PRTG entry points `latency`, `availability` and `bandwidth` (slo_generator/backends/prtg.py:45-128) are not modelled. They read the clock with `time.time()`, format dates with `strftime`, and read the SLO configuration. Their arithmetic is the `count_*` functions that are modelled.
- `query_table` is modelled only as its parameter list, `Prtg.TableParams`; the query-string properties are proved for `query_historicdata`. The `ENDPOINT_KEYS` constant and the unused `version` and `key` arguments of `PrtgClient.request` are not modelled.
- The put/post branch of `PrtgClient.request`, which sends `post_data` as the JSON body, is not modelled, because every caller in the backend requests with 'get'. `PrtgClient.RequestUrl` models the URL, which both branches build the same way.
- The backends' constructors are not modelled: they only inject a client, or create their backend's client (`GraphiteClient` or `PrtgClient`).
- Logging and `pprint` calls are not modelled. Their arguments repeat reads the following line makes anyway (`response[target]`, `point[0]`), so they raise nothing new.
- Numbers are not IEEE floats:
  - Python floats and ints in comparisons, `/ 100`, the mean and the bandwidth division are modelled as exact reals.
  - Rounding, NaN, infinities and OverflowError are not modelled.
  - The PRTG `type(...) is float` test is kept as the `Float` variant of the JSON value.
- `int()` on a str is modelled for the ASCII characters Python counts as whitespace (space, `\t`, `\n`, `\r`, `\v`, `\f` and U+001C to U+001F), an optional sign and ASCII digits only; non-ASCII whitespace such as U+00A0, underscores, Unicode digits and other bases are left out.
- Parameter values are modelled as strings already converted with `%s`; `str()` of other types is not modelled; `probe_id` comes from the SLO configuration and may be an int there.
- A JSON object is modelled as its list of entries in order. Lookup takes the first entry with the key; decoded JSON with duplicate keys (where Python keeps the last) is not considered.
- The dead `if value is None: continue` in `count_availability` is omitted, because `int(...) / 100` is never None.
- Graphite.Threshold: the `slo_config['backend']['measurement']` dictionary reads are modelled as an already-extracted `Measurement` record, so a missing configuration key (a KeyError) is not modelled.
- Prtg.AvailabilityExample, Prtg.BandwidthExample: they take the parsed coverages and channels as hypotheses; the parsing of the concrete strings is stated separately by Prtg.ExampleCoverages and Prtg.ExampleTotal.
