/** The Graphite backend (slo_generator/backends/graphite.py): the threshold SLI that
    splits the samples of a render response into a "below" and an "above" bucket, the
    counter SLI that sums positive values, and the render URL the client requests. */
module Graphite {
  import opened Outcomes
  import opened Json
  import opened Sli
  import Text
  import opened QueryString

  // ---------------------------------------------------------------------------
  // count_threshold
  // ---------------------------------------------------------------------------

  /** The exceptions `count_threshold` turns into `(NO_DATA, NO_DATA)`. */
  const ThresholdCaught: set<Exc> := {IndexError, KeyError, ZeroDivisionError}

  /** The `below` and `above` lists of one series. */
  datatype Buckets = Buckets(below: seq<Value>, above: seq<Value>)

  /** One pass of `for point in datapoints`: `point[0]` is the value; None is skipped,
      `value <= threshold` goes below, anything else above. */
  function AddSample(b: Buckets, point: Value, threshold: real): Outcome<Buckets> {
    var value :- Index(point, 0);
    if value.Null? then Ok(b)
    else
      var isBelow :- LessEq(value, threshold);
      if isBelow then Ok(b.(below := b.below + [value])) else Ok(b.(above := b.above + [value]))
  }

  function AddSampleAt(threshold: real): (Buckets, Value) -> Outcome<Buckets> {
    (b, point) => AddSample(b, point, threshold)
  }

  /** The buckets of one series, filled from empty lists. */
  function FillBuckets(points: seq<Value>, threshold: real): Outcome<Buckets> {
    Fold(points, Buckets([], []), AddSampleAt(threshold))
  }

  /** `response[target]['datapoints']`, iterated and bucketed. */
  function SeriesBuckets(response: Value, target: nat, threshold: real): Outcome<Buckets> {
    var series :- Index(response, target);
    var datapoints :- Subscript(series, "datapoints");
    var points :- Iterate(datapoints);
    FillBuckets(points, threshold)
  }

  /** The `while target < x` loop after `count` passes: the buckets of the series read
      last (they are re-created for every series), None while no series has been read. */
  function ScanSeries(response: Value, count: nat, threshold: real): Outcome<Option<Buckets>>
    decreases count
  {
    if count == 0 then Ok(None)
    else
      var earlier :- ScanSeries(response, count - 1, threshold);
      var b :- SeriesBuckets(response, count - 1, threshold);
      Ok(Some(b))
  }

  /** The `try` block of `count_threshold`. Reading `below` when the loop never ran is
      an UnboundLocalError. */
  function ThresholdBody(response: Value, threshold: real, goodBelowThreshold: bool): Outcome<Counts> {
    var n :- Len(response);
    var last :- ScanSeries(response, n, threshold);
    if last.None? then Raise(UnboundLocalError)
    else Ok(Ordered(|last.value.below|, |last.value.above|, goodBelowThreshold))
  }

  /** `GraphiteBackend.count_threshold(response, threshold, good_below_threshold)` */
  function ThresholdCounts(response: Value, threshold: real, goodBelowThreshold: bool): (r: Outcome<Counts>)
    ensures r.Raise? ==> r.exc !in ThresholdCaught
    ensures r.Ok? && r.value.Pair? ==> Len(response).Ok? && Len(response).value > 0
  {
    Except(ThresholdBody(response, threshold, goodBelowThreshold), ThresholdCaught, NoDataPair)
  }

  /** A series that raises ends the outer loop with its exception. */
  lemma {:induction false} ScanStopsAtRaise(response: Value, k: nat, n: nat, threshold: real)
    requires k < n
    requires ScanSeries(response, k, threshold).Ok?
    requires SeriesBuckets(response, k, threshold).Raise?
    ensures ScanSeries(response, n, threshold) == SeriesBuckets(response, k, threshold).PropagateFailure()
    decreases n
  {
    if k + 1 < n {
      ScanStopsAtRaise(response, k, n - 1, threshold);
    }
  }

  /** A sample that raises ends the series with its exception. */
  lemma SampleStopsSeries(points: seq<Value>, i: nat, threshold: real, b: Buckets)
    requires i < |points|
    requires FillBuckets(points[..i], threshold) == Ok(b)
    requires AddSample(b, points[i], threshold).Raise?
    ensures FillBuckets(points, threshold) == AddSample(b, points[i], threshold)
  {
    FoldNext(points, i, Buckets([], []), AddSampleAt(threshold));
    FoldStopsAtRaise(points, i + 1, Buckets([], []), AddSampleAt(threshold));
  }

  /** The inner loop of `count_threshold`: `below` and `above` start empty and each
      sample goes to one of them, or the loop stops at the first sample that raises. */
  method FillSeries(points: seq<Value>, threshold: real) returns (r: Outcome<Buckets>)
    ensures r == FillBuckets(points, threshold)
  {
    var below: seq<Value>, above: seq<Value> := [], [];
    for i := 0 to |points|
      invariant FillBuckets(points[..i], threshold) == Ok(Buckets(below, above))
    {
      var value := Index(points[i], 0);
      if value.Raise? {
        SampleStopsSeries(points, i, threshold, Buckets(below, above));
        return Raise(value.exc);
      }
      if !value.value.Null? {
        var isBelow := LessEq(value.value, threshold);
        if isBelow.Raise? {
          SampleStopsSeries(points, i, threshold, Buckets(below, above));
          return Raise(isBelow.exc);
        }
        if isBelow.value {
          below := below + [value.value];
        } else {
          above := above + [value.value];
        }
      }
      FoldNext(points, i, Buckets([], []), AddSampleAt(threshold));
    }
    assert points[..|points|] == points;
    r := Ok(Buckets(below, above));
  }

  /** A series that raises decides the result of `count_threshold`. */
  lemma SeriesRaiseEscapes(response: Value, k: nat, n: nat, threshold: real, goodBelowThreshold: bool)
    requires Len(response) == Ok(n) && k < n
    requires ScanSeries(response, k, threshold).Ok?
    requires SeriesBuckets(response, k, threshold).Raise?
    ensures ThresholdCounts(response, threshold, goodBelowThreshold)
         == Except(Raise(SeriesBuckets(response, k, threshold).exc), ThresholdCaught, NoDataPair)
  {
    ScanStopsAtRaise(response, k, n, threshold);
  }

  /** `count_threshold`: the outer loop walks the series by index, the inner loop fills
      `below`/`above`, which are re-created for each series. */
  method CountThreshold(response: Value, threshold: real, goodBelowThreshold: bool)
    returns (r: Outcome<Counts>)
    ensures r == ThresholdCounts(response, threshold, goodBelowThreshold)
  {
    var x := Len(response);
    if x.Raise? {
      return Except(Raise(x.exc), ThresholdCaught, NoDataPair);
    }
    var below: seq<Value>, above: seq<Value>, bound := [], [], false;
    var target := 0;
    while target < x.value
      invariant 0 <= target <= x.value
      invariant ScanSeries(response, target, threshold)
             == Ok(if bound then Some(Buckets(below, above)) else None)
    {
      var series := Index(response, target);
      if series.Raise? {
        SeriesRaiseEscapes(response, target, x.value, threshold, goodBelowThreshold);
        return Except(Raise(series.exc), ThresholdCaught, NoDataPair);
      }
      var datapoints := Subscript(series.value, "datapoints");
      if datapoints.Raise? {
        SeriesRaiseEscapes(response, target, x.value, threshold, goodBelowThreshold);
        return Except(Raise(datapoints.exc), ThresholdCaught, NoDataPair);
      }
      var points := Iterate(datapoints.value);
      if points.Raise? {
        SeriesRaiseEscapes(response, target, x.value, threshold, goodBelowThreshold);
        return Except(Raise(points.exc), ThresholdCaught, NoDataPair);
      }
      var filled := FillSeries(points.value, threshold);
      if filled.Raise? {
        SeriesRaiseEscapes(response, target, x.value, threshold, goodBelowThreshold);
        return Except(Raise(filled.exc), ThresholdCaught, NoDataPair);
      }
      assert SeriesBuckets(response, target, threshold) == filled;
      below, above, bound := filled.value.below, filled.value.above, true;
      target := target + 1;
    }
    if !bound {
      return Except(Raise(UnboundLocalError), ThresholdCaught, NoDataPair);
    }
    assert ThresholdBody(response, threshold, goodBelowThreshold) == Ok(Ordered(|below|, |above|, goodBelowThreshold));
    if goodBelowThreshold {
      r := Ok(Pair(|below|, |above|));
    } else {
      r := Ok(Pair(|above|, |below|));
    }
  }

  /** The non-null `point[0]` values of a series, in order. */
  function PresentValues(points: seq<Value>): seq<Value>
    decreases |points|
  {
    if points == [] then []
    else
      var value := Index(points[|points| - 1], 0);
      PresentValues(points[..|points| - 1])
      + (if value.Ok? && !value.value.Null? then [value.value] else [])
  }

  /** `below` holds only values `<= threshold` (so a value equal to the threshold is
      below) and `above` only values `> threshold`. */
  lemma {:induction false} FillBucketsBounds(points: seq<Value>, threshold: real)
    requires FillBuckets(points, threshold).Ok?
    ensures var b := FillBuckets(points, threshold).value;
      (forall v :: v in b.below ==> Number(v).Some? && Number(v).value <= threshold)
      && (forall v :: v in b.above ==> Number(v).Some? && Number(v).value > threshold)
    decreases |points|
  {
    if points != [] {
      var init, last := points[..|points| - 1], points[|points| - 1];
      FillBucketsBounds(init, threshold);
      var b := FillBuckets(init, threshold).value;
      assert FillBuckets(points, threshold) == AddSample(b, last, threshold);
    }
  }

  /** Every non-null sample lands in exactly one bucket: together the buckets are a
      permutation of the series' non-null values, so `len(below) + len(above)` is the
      number of non-null samples. */
  lemma {:induction false} FillBucketsPartition(points: seq<Value>, threshold: real)
    requires FillBuckets(points, threshold).Ok?
    ensures var b := FillBuckets(points, threshold).value;
      multiset(b.below + b.above) == multiset(PresentValues(points))
      && |b.below| + |b.above| == |PresentValues(points)|
    decreases |points|
  {
    if points != [] {
      var init, last := points[..|points| - 1], points[|points| - 1];
      FillBucketsPartition(init, threshold);
      var b := FillBuckets(init, threshold).value;
      var b' := FillBuckets(points, threshold).value;
      assert FillBuckets(points, threshold) == AddSample(b, last, threshold);
      AddSamplePartition(b, last, threshold);
      assert |multiset(b'.below + b'.above)| == |b'.below + b'.above|;
      assert |multiset(PresentValues(points))| == |PresentValues(points)|;
    }
  }

  /** One sample adds its value, when it is not None, to exactly one bucket. */
  lemma AddSamplePartition(b: Buckets, point: Value, threshold: real)
    requires AddSample(b, point, threshold).Ok?
    ensures var b' := AddSample(b, point, threshold).value;
      var value := Index(point, 0).value;
      b'.below + b'.above
        == if value.Null? then b.below + b.above
           else if LessEq(value, threshold).value then b.below + [value] + b.above
           else (b.below + b.above) + [value]
  {
  }

  lemma {:induction false} ScanSeriesPrefix(earlier: seq<Value>, later: seq<Value>, k: nat, threshold: real)
    requires k <= |earlier|
    ensures ScanSeries(List(earlier + later), k, threshold) == ScanSeries(List(earlier), k, threshold)
    decreases k
  {
    if k > 0 {
      ScanSeriesPrefix(earlier, later, k - 1, threshold);
      assert (earlier + later)[k - 1] == earlier[k - 1];
    }
  }

  /** All series are read, and any of them can raise, but only the last one is counted:
      after well-formed earlier series the result is that of the last series alone. */
  lemma OnlyLastSeriesCounts(earlier: seq<Value>, last: Value, threshold: real, goodBelowThreshold: bool)
    requires ScanSeries(List(earlier), |earlier|, threshold).Ok?
    ensures ThresholdCounts(List(earlier + [last]), threshold, goodBelowThreshold)
         == ThresholdCounts(List([last]), threshold, goodBelowThreshold)
  {
    var n := |earlier|;
    var all, alone := List(earlier + [last]), List([last]);
    ScanSeriesPrefix(earlier, [last], n, threshold);
    assert (earlier + [last])[n] == last;
    assert Index(all, n) == Index(alone, 0) == Ok(last);
    assert SeriesBuckets(all, n, threshold) == SeriesBuckets(alone, 0, threshold);
    assert ScanSeries(all, n + 1, threshold) == ScanSeries(alone, 1, threshold);
    assert ThresholdBody(all, threshold, goodBelowThreshold) == ThresholdBody(alone, threshold, goodBelowThreshold);
  }

  /** The flag only orders the pair: the two settings give the same pair reversed,
      and the same NO_DATA or exception. */
  lemma ThresholdFlagSwaps(response: Value, threshold: real)
    ensures var c := ThresholdCounts(response, threshold, true);
      ThresholdCounts(response, threshold, false) == (if c.Ok? then Ok(Swapped(c.value)) else c)
  {
  }

  /** A series without a 'datapoints' key (KeyError) gives `(NO_DATA, NO_DATA)`. */
  lemma MissingDatapointsIsNoData(series: seq<Value>, k: nat, threshold: real, goodBelowThreshold: bool)
    requires k < |series| && ScanSeries(List(series), k, threshold).Ok?
    requires series[k].Dict? && Lookup(series[k].fields, "datapoints").None?
    ensures ThresholdCounts(List(series), threshold, goodBelowThreshold) == Ok(NoDataPair)
  {
    ScanStopsAtRaise(List(series), k, |series|, threshold);
  }

  /** An empty sample `[]` (IndexError on `point[0]`) gives `(NO_DATA, NO_DATA)`; a sample
      whose value is a str raises TypeError on the comparison, which is not caught. */
  lemma BadSampleOutcome(series: seq<Value>, k: nat, points: seq<Value>, j: nat, threshold: real, goodBelowThreshold: bool)
    requires k < |series| && ScanSeries(List(series), k, threshold).Ok?
    requires Subscript(series[k], "datapoints") == Ok(List(points))
    requires j < |points| && FillBuckets(points[..j], threshold).Ok?
    ensures points[j] == List([])
      ==> ThresholdCounts(List(series), threshold, goodBelowThreshold) == Ok(NoDataPair)
    ensures points[j].List? && points[j].items != [] && points[j].items[0].Str?
      ==> ThresholdCounts(List(series), threshold, goodBelowThreshold) == Raise(TypeError)
  {
    if points[j] == List([]) || (points[j].List? && points[j].items != [] && points[j].items[0].Str?) {
      SampleStopsSeries(points, j, threshold, FillBuckets(points[..j], threshold).value);
      ScanStopsAtRaise(List(series), k, |series|, threshold);
    }
  }

  /** A non-empty dict response: `response[0]` is a KeyError, so `(NO_DATA, NO_DATA)`. */
  lemma DictResponseIsNoData(fields: seq<(string, Value)>, threshold: real, goodBelowThreshold: bool)
    requires fields != []
    ensures ThresholdCounts(Dict(fields), threshold, goodBelowThreshold) == Ok(NoDataPair)
  {
    ScanStopsAtRaise(Dict(fields), 0, |fields|, threshold);
  }

  /** An empty response never enters the loop, so `len(below)` reads an unbound local:
      the UnboundLocalError is not among the caught exceptions and escapes. */
  lemma EmptyResponseEscapes(response: Value, threshold: real, goodBelowThreshold: bool)
    requires Len(response) == Ok(0)
    ensures ThresholdCounts(response, threshold, goodBelowThreshold) == Raise(UnboundLocalError)
  {
  }

  /** The samples 10, null, 60, 50 (each `[value, timestamp]`). */
  const ExampleSamples: seq<Value> :=
    [List([Int(10), Int(1)]), List([Null, Int(2)]), List([Int(60), Int(3)]), List([Int(50), Int(4)])]

  lemma ExampleBuckets()
    ensures FillBuckets(ExampleSamples, 50.0) == Ok(Buckets([Int(10), Int(50)], [Int(60)]))
  {
    var points, step := ExampleSamples, AddSampleAt(50.0);
    assert [] + [Int(10)] == [Int(10)] && [] + [Int(60)] == [Int(60)] && [Int(10)] + [Int(50)] == [Int(10), Int(50)];
    assert points[..0] == [] && points[..4] == points;
    FoldNext(points, 0, Buckets([], []), step);
    assert FillBuckets(points[..1], 50.0) == Ok(Buckets([Int(10)], []));
    FoldNext(points, 1, Buckets([], []), step);
    assert FillBuckets(points[..2], 50.0) == Ok(Buckets([Int(10)], []));
    FoldNext(points, 2, Buckets([], []), step);
    assert FillBuckets(points[..3], 50.0) == Ok(Buckets([Int(10)], [Int(60)]));
    FoldNext(points, 3, Buckets([], []), step);
  }

  /** Threshold 50 over the samples 10, null, 60, 50: good 2 (10 and 50), bad 1 (60);
      with `good_below_threshold` false, good 1 and bad 2. */
  lemma ThresholdExample()
    ensures var response := List([Dict([("target", Str("a.b.c")), ("datapoints", List(ExampleSamples))])]);
      ThresholdCounts(response, 50.0, true) == Ok(Pair(2, 1))
      && ThresholdCounts(response, 50.0, false) == Ok(Pair(1, 2))
  {
    var series := Dict([("target", Str("a.b.c")), ("datapoints", List(ExampleSamples))]);
    ExampleBuckets();
    var rest := [("datapoints", List(ExampleSamples))];
    assert "target" != "datapoints" by { assert |"target"| != |"datapoints"|; }
    assert series.fields[0].0 != "datapoints" && series.fields[1..] == rest;
    assert Lookup(rest, "datapoints") == Some(List(ExampleSamples));
    assert Subscript(series, "datapoints") == Ok(List(ExampleSamples));
    assert SeriesBuckets(List([series]), 0, 50.0) == Ok(Buckets([Int(10), Int(50)], [Int(60)]));
    assert ScanSeries(List([series]), 1, 50.0) == Ok(Some(Buckets([Int(10), Int(50)], [Int(60)])));
  }

  // ---------------------------------------------------------------------------
  // count
  // ---------------------------------------------------------------------------

  /** The exceptions `count` turns into NO_DATA. */
  const CountCaught: set<Exc> := {IndexError, KeyError}

  /** One value of an entry's 'values' list in the filtering comprehension: None is
      skipped, a number is kept when it is above zero, and comparing anything else
      with zero raises TypeError. */
  function KeepPositive(kept: seq<real>, item: Value): Outcome<seq<real>> {
    if item.Null? then Ok(kept)
    else
      match Number(item)
      case None => Raise(TypeError)
      case Some(x) => Ok(if x > 0.0 then kept + [x] else kept)
  }

  /** The comprehension over one entry's `values`. */
  function PositiveValues(entry: Value): Outcome<seq<real>> {
    var values :- Subscript(entry, "values");
    var items :- Iterate(values);
    Fold(items, [], KeepPositive)
  }

  /** One pass of `for point in datapoints`: `values.extend(point_values)`. */
  function ExtendPositive(values: seq<real>, entry: Value): Outcome<seq<real>> {
    var more :- PositiveValues(entry);
    Ok(values + more)
  }

  /** The entries of `response['result'][0]['data']`. */
  function DataEntries(response: Value): Outcome<seq<Value>> {
    var result :- Subscript(response, "result");
    var first :- Index(result, 0);
    var data :- Subscript(first, "data");
    Iterate(data)
  }

  /** The positive values `count` collects from the entries. */
  function CollectedValues(response: Value): Outcome<seq<real>> {
    var entries :- DataEntries(response);
    Fold(entries, [], ExtendPositive)
  }

  /** `GraphiteBackend.count(response)` */
  function EventTotal(response: Value): (r: Outcome<EventCount>)
    ensures r.Raise? ==> r.exc !in CountCaught
    ensures r.Ok? && r.value.Events? ==> CollectedValues(response).Ok?
  {
    var body: Outcome<EventCount> := var values :- CollectedValues(response); Ok(Events(Sum(values)));
    Except(body, CountCaught, NoData)
  }

  /** `count`: the loop extends `values` with the positive values of each entry. */
  method Count(response: Value) returns (r: Outcome<EventCount>)
    ensures r == EventTotal(response)
  {
    var result := Subscript(response, "result");
    if result.Raise? {
      return Except(Raise(result.exc), CountCaught, NoData);
    }
    var first := Index(result.value, 0);
    if first.Raise? {
      return Except(Raise(first.exc), CountCaught, NoData);
    }
    var data := Subscript(first.value, "data");
    if data.Raise? {
      return Except(Raise(data.exc), CountCaught, NoData);
    }
    var datapoints := Iterate(data.value);
    if datapoints.Raise? {
      return Except(Raise(datapoints.exc), CountCaught, NoData);
    }
    var values: seq<real> := [];
    for i := 0 to |datapoints.value|
      invariant Fold(datapoints.value[..i], [], ExtendPositive) == Ok(values)
    {
      var pointValues := PositiveValues(datapoints.value[i]);
      FoldNext(datapoints.value, i, [], ExtendPositive);
      if pointValues.Raise? {
        FoldStopsAtRaise(datapoints.value, i + 1, [], ExtendPositive);
        return Except(Raise(pointValues.exc), CountCaught, NoData);
      }
      values := values + pointValues.value;
    }
    assert datapoints.value[..|datapoints.value|] == datapoints.value;
    r := Ok(Events(Sum(values)));
  }

  /** The numbers among some values, in order: None, str, list and dict are not numbers. */
  function Numbers(items: seq<Value>): seq<real>
    decreases |items|
  {
    if items == [] then []
    else
      var x := Number(items[|items| - 1]);
      Numbers(items[..|items| - 1]) + (if x.Some? then [x.value] else [])
  }

  /** The numbers of a list that are above zero, in order. */
  function AboveZero(xs: seq<real>): seq<real>
    decreases |xs|
  {
    if xs == [] then []
    else AboveZero(xs[..|xs| - 1]) + (if xs[|xs| - 1] > 0.0 then [xs[|xs| - 1]] else [])
  }

  /** The items of an entry's 'values', none when it has no such list. */
  function EntryItems(entry: Value): seq<Value> {
    var values := Subscript(entry, "values");
    if values.Ok? && Iterate(values.value).Ok? then Iterate(values.value).value else []
  }

  /** The numbers of every entry's values, entry after entry. */
  function AllNumbers(entries: seq<Value>): seq<real>
    decreases |entries|
  {
    if entries == [] then []
    else AllNumbers(entries[..|entries| - 1]) + Numbers(EntryItems(entries[|entries| - 1]))
  }

  /** Every number above zero is kept as often as it occurs, and nothing else is. */
  lemma {:induction false} AboveZeroCount(xs: seq<real>)
    ensures forall x :: multiset(AboveZero(xs))[x] == (if x > 0.0 then multiset(xs)[x] else 0)
    decreases |xs|
  {
    if xs != [] {
      var init, last := xs[..|xs| - 1], xs[|xs| - 1];
      AboveZeroCount(init);
      assert xs == init + [last];
      assert multiset(xs) == multiset(init) + multiset([last]);
      var kept := if last > 0.0 then [last] else [];
      assert multiset(AboveZero(xs)) == multiset(AboveZero(init)) + multiset(kept);
    }
  }

  lemma {:induction false} AboveZeroAppend(a: seq<real>, b: seq<real>)
    ensures AboveZero(a + b) == AboveZero(a) + AboveZero(b)
    decreases |b|
  {
    if b == [] {
      assert a + b == a;
    } else {
      var shorter := b[..|b| - 1];
      assert (a + b)[..|a + b| - 1] == a + shorter && (a + b)[|a + b| - 1] == b[|b| - 1];
      AboveZeroAppend(a, shorter);
    }
  }

  /** The comprehension of one entry keeps, in order and with repeats, exactly the
      numbers above zero among its values. */
  lemma {:induction false} KeptAreAboveZero(items: seq<Value>)
    requires Fold(items, [], KeepPositive).Ok?
    ensures Fold(items, [], KeepPositive).value == AboveZero(Numbers(items))
    decreases |items|
  {
    if items != [] {
      var init, last := items[..|items| - 1], items[|items| - 1];
      FoldPrefixOk(items, |items| - 1, [], KeepPositive);
      KeptAreAboveZero(init);
      var kept := Fold(init, [], KeepPositive).value;
      assert Fold(items, [], KeepPositive) == KeepPositive(kept, last);
      if Number(last).None? {
        assert Numbers(items) == Numbers(init) + [];
        assert Numbers(init) + [] == Numbers(init);
      } else {
        var x := Number(last).value;
        assert Numbers(items) == Numbers(init) + [x];
        AboveZeroSnoc(Numbers(init), x);
      }
    }
  }

  lemma AboveZeroSnoc(xs: seq<real>, x: real)
    ensures AboveZero(xs + [x]) == AboveZero(xs) + (if x > 0.0 then [x] else [])
  {
    assert (xs + [x])[..|xs|] == xs;
  }

  /** The loop collects, entry after entry, exactly the numbers above zero of every
      entry's values, repeats included. */
  lemma {:induction false} CollectedAreAboveZero(entries: seq<Value>)
    requires Fold(entries, [], ExtendPositive).Ok?
    ensures Fold(entries, [], ExtendPositive).value == AboveZero(AllNumbers(entries))
    decreases |entries|
  {
    if entries != [] {
      var init, last := entries[..|entries| - 1], entries[|entries| - 1];
      FoldPrefixOk(entries, |entries| - 1, [], ExtendPositive);
      CollectedAreAboveZero(init);
      var values := Fold(init, [], ExtendPositive).value;
      assert Fold(entries, [], ExtendPositive) == ExtendPositive(values, last);
      var lastValues :- assert Subscript(last, "values");
      var items :- assert Iterate(lastValues);
      assert EntryItems(last) == items;
      KeptAreAboveZero(items);
      AboveZeroAppend(AllNumbers(init), Numbers(items));
    }
  }

  /** `count` is the sum of every number above zero in the values of all entries of
      the first result, each counted as often as it occurs. */
  lemma CountIsPositiveTotal(response: Value, entries: seq<Value>)
    requires DataEntries(response) == Ok(entries)
    requires Fold(entries, [], ExtendPositive).Ok?
    ensures EventTotal(response) == Ok(Events(Sum(AboveZero(AllNumbers(entries)))))
  {
    CollectedAreAboveZero(entries);
  }

  /** `count` sums positive values only: its result is never negative, and it is zero
      exactly when no positive value was found. */
  lemma CountIsNonNegative(response: Value)
    requires EventTotal(response).Ok? && EventTotal(response).value.Events?
    ensures CollectedValues(response).Ok?
    ensures var values := CollectedValues(response).value;
      var total := EventTotal(response).value.total;
      total >= 0.0 && (total == 0.0 <==> values == [])
  {
    var values := CollectedValues(response).value;
    var entries :- assert DataEntries(response);
    CollectedAreAboveZero(entries);
    AboveZeroCount(AllNumbers(entries));
    forall k | 0 <= k < |values|
      ensures values[k] > 0.0
    {
      assert values[k] in multiset(values);
    }
    SumOfPositives(values);
  }

  /** A missing 'result' or 'data' key, or an empty result list, gives NO_DATA. */
  lemma CountNoData(response: Value)
    ensures response.Dict? && Lookup(response.fields, "result").None? ==> EventTotal(response) == Ok(NoData)
    ensures Subscript(response, "result") == Ok(List([])) ==> EventTotal(response) == Ok(NoData)
    ensures Subscript(response, "result").Ok? && Index(Subscript(response, "result").value, 0).Ok?
            && Index(Subscript(response, "result").value, 0).value.Dict?
            && Lookup(Index(Subscript(response, "result").value, 0).value.fields, "data").None?
        ==> EventTotal(response) == Ok(NoData)
  {
  }

  /** An entry without 'values', after well-formed entries, gives NO_DATA. */
  lemma CountMissingValues(entries: seq<Value>, k: nat, response: Value)
    requires Subscript(response, "result").Ok? && Index(Subscript(response, "result").value, 0).Ok?
    requires Subscript(Index(Subscript(response, "result").value, 0).value, "data") == Ok(List(entries))
    requires k < |entries| && Fold(entries[..k], [], ExtendPositive).Ok?
    requires entries[k].Dict? && Lookup(entries[k].fields, "values").None?
    ensures EventTotal(response) == Ok(NoData)
  {
    FoldNext(entries, k, [], ExtendPositive);
    FoldStopsAtRaise(entries, k + 1, [], ExtendPositive);
  }

  const ExampleValues: seq<Value> := [Int(5), Int(-3), Int(0), Null, Int(7)]

  /** Of 5, -3, 0, null, 7 the comprehension keeps 5 and 7. */
  lemma ExamplePositives()
    ensures Fold(ExampleValues, [], KeepPositive) == Ok([5.0, 7.0])
  {
    var items := ExampleValues;
    assert items[..0] == [] && items[..5] == items;
    assert [] + [5.0] == [5.0] && [5.0] + [7.0] == [5.0, 7.0];
    FoldNext(items, 0, [], KeepPositive);
    assert Fold(items[..1], [], KeepPositive) == Ok([5.0]);
    FoldNext(items, 1, [], KeepPositive);
    assert Fold(items[..2], [], KeepPositive) == Ok([5.0]);
    FoldNext(items, 2, [], KeepPositive);
    assert Fold(items[..3], [], KeepPositive) == Ok([5.0]);
    FoldNext(items, 3, [], KeepPositive);
    assert Fold(items[..4], [], KeepPositive) == Ok([5.0]);
    FoldNext(items, 4, [], KeepPositive);
  }

  /** The values 5, -3, 0, null, 7 count 12. */
  lemma CountExample()
    ensures var entry := Dict([("values", List(ExampleValues))]);
      EventTotal(Dict([("result", List([Dict([("data", List([entry]))])]))])) == Ok(Events(12.0))
  {
    var entry := Dict([("values", List(ExampleValues))]);
    ExamplePositives();
    assert PositiveValues(entry) == Ok([5.0, 7.0]);
    assert [entry][..0] == [] && [entry][..1] == [entry];
    assert [] + [5.0, 7.0] == [5.0, 7.0];
    FoldNext([entry], 0, [], ExtendPositive);
    assert Fold([entry], [], ExtendPositive) == Ok([5.0, 7.0]);
    var response := Dict([("result", List([Dict([("data", List([entry]))])]))]);
    assert CollectedValues(response) == Ok([5.0, 7.0]);
    assert Sum([5.0, 7.0]) == 12.0 by {
      assert [5.0, 7.0][..1] == [5.0] && [5.0][..0] == [];
    }
  }

  // ---------------------------------------------------------------------------
  // The render request: GraphiteClient, query and threshold
  // ---------------------------------------------------------------------------

  /** The request URL: the base URL, `/`, the endpoint, `=`, the metric, `&` and the
      query string (a trailing `&` stays when no parameter is set). */
  function RenderUrl(base: string, endpoint: string, metric: string, params: Params): string {
    base + "/" + endpoint + "=" + metric + "&" + Render(params)
  }

  class GraphiteClient {
    var url: string

    /** `GraphiteClient(api_url)`: the URL without its trailing slashes. */
    constructor (apiUrl: string)
      ensures url == Text.StripRight(apiUrl, {'/'})
    {
      url := Text.StripRight(apiUrl, {'/'});
    }

    /** The URL `request(method, endpoint, metric, **params)` sends its GET to. */
    method RequestUrl(endpoint: string, metric: string, params: Params) returns (u: string)
      ensures u == RenderUrl(url, endpoint, metric, params)
    {
      u := url + "/" + endpoint + "=" + metric;
      var paramsStr := Render(params);
      u := u + "&" + paramsStr;
    }
  }

  /** The query string after `render?` reads back as `target=<metric>` followed by the
      parameters that are not None, in order. */
  lemma RenderQueryDecode(metric: string, params: Params)
    requires Present(params) != []
    requires Plain([("target", metric)] + Present(params))
    ensures Decode("target=" + metric + "&" + Render(params)) == [("target", metric)] + Present(params)
  {
    var pairs := [("target", metric)] + Present(params);
    assert pairs[0] == ("target", metric) && pairs[1..] == Present(params);
    assert Encode(pairs) == "target=" + metric + "&" + Render(params);
    DecodeEncode(pairs);
  }

  /** The render URL for a metric: the base keeps no trailing `/`, so the path has a
      single `/` before `render`, and the query string after `render?` reads back as
      `target=<metric>` followed by the parameters that are not None, in order. */
  lemma RenderUrlQuery(apiUrl: string, metric: string, params: Params)
    requires Present(params) != []
    requires Plain([("target", metric)] + Present(params))
    ensures var base := Text.StripRight(apiUrl, {'/'});
      var query := "target=" + metric + "&" + Render(params);
      RenderUrl(base, "render?target", metric, params) == base + "/render?" + query
      && (base == "" || base[|base| - 1] != '/')
      && Decode(query) == [("target", metric)] + Present(params)
  {
    var base := Text.StripRight(apiUrl, {'/'});
    RenderQueryDecode(metric, params);
    assert base + "/" + "render?target" + "=" + metric == base + "/render?" + ("target=" + metric);
  }

  /** The time fields `datetime.fromtimestamp` breaks a timestamp into. */
  datatype DateTime = DateTime(year: int, month: int, day: int, hour: int, minute: int) {
    predicate Valid() {
      1 <= year <= 9999 && 1 <= month <= 12 && 1 <= day <= 31 && 0 <= hour < 24 && 0 <= minute < 60
    }
  }

  type LocalTime = t: DateTime | t.Valid() witness DateTime(1970, 1, 1, 0, 0)

  /** `n` in decimal, zero-padded on the left to `width` digits. */
  function Pad(n: nat, width: nat): (s: string)
    ensures Text.AllDigits(s) && Text.Digits(s) == n
  {
    var d := Text.Decimal(n);
    var zeros := seq(if width > |d| then width - |d| else 0, _ => '0');
    Text.DigitsOfDecimal(n);
    Text.DigitsLeadingZeros(zeros, d);
    zeros + d
  }

  lemma {:induction false} DecimalWidth(n: nat, width: nat)
    requires 1 <= width && n < Power10(width)
    ensures |Text.Decimal(n)| <= width
    decreases width
  {
    if n >= 10 {
      DecimalWidth(n / 10, width - 1);
    }
  }

  function Power10(k: nat): nat {
    if k == 0 then 1 else 10 * Power10(k - 1)
  }

  /** `strftime("%H:%M_%Y%m%d")` */
  function FormatTime(t: LocalTime): (s: string)
    ensures |s| == 14
  {
    DecimalWidth(t.hour, 2);
    DecimalWidth(t.minute, 2);
    DecimalWidth(t.year, 4);
    DecimalWidth(t.month, 2);
    DecimalWidth(t.day, 2);
    Pad(t.hour, 2) + ":" + Pad(t.minute, 2) + "_" + Pad(t.year, 4) + Pad(t.month, 2) + Pad(t.day, 2)
  }

  /** Reads `HH:MM_YYYYmmdd` back into its fields. */
  function ParseTime(s: string): Option<DateTime> {
    if |s| == 14 && s[2] == ':' && s[5] == '_'
       && Text.AllDigits(s[0..2]) && Text.AllDigits(s[3..5]) && Text.AllDigits(s[6..10])
       && Text.AllDigits(s[10..12]) && Text.AllDigits(s[12..14])
    then Some(DateTime(Text.Digits(s[6..10]), Text.Digits(s[10..12]), Text.Digits(s[12..14]),
                       Text.Digits(s[0..2]), Text.Digits(s[3..5])))
    else None
  }

  /** The formatted time holds every field, each at its fixed place. */
  lemma FormatTimeRoundTrip(t: LocalTime)
    ensures ParseTime(FormatTime(t)) == Some(t)
  {
    var s := FormatTime(t);
    var h, m, y, mo, d := Pad(t.hour, 2), Pad(t.minute, 2), Pad(t.year, 4), Pad(t.month, 2), Pad(t.day, 2);
    assert s == h + ":" + m + "_" + y + mo + d;
    assert s[0..2] == h && s[3..5] == m && s[6..10] == y && s[10..12] == mo && s[12..14] == d;
  }

  lemma FormatTimeExample()
    ensures FormatTime(DateTime(2021, 2, 2, 5, 45)) == "05:45_20210202"
  {
    ExamplePads();
    assert "05" + ":" + "45" + "_" + "2021" + "02" + "02" == "05:45_20210202";
  }

  lemma ExamplePads()
    ensures Pad(5, 2) == "05" && Pad(45, 2) == "45" && Pad(2021, 4) == "2021" && Pad(2, 2) == "02"
  {
    assert Text.Decimal(5) == "5" && Text.Decimal(2) == "2";
    PadOf(5, 2, "5");
    PadOf(2, 2, "2");
    assert Text.Decimal(45) == "45" by { assert Text.Decimal(4) == "4"; }
    PadOf(45, 2, "45");
    assert Text.Decimal(2021) == "2021" by {
      assert Text.Decimal(202) == "202" by { assert Text.Decimal(20) == "20"; }
    }
    PadOf(2021, 4, "2021");
  }

  /** Padding puts just enough zeros in front of the decimal digits. */
  lemma PadOf(n: nat, width: nat, d: string)
    requires Text.Decimal(n) == d && |d| <= width
    ensures Pad(n, width) == seq(width - |d|, _ => '0') + d
  {
  }

  /** `query(start, end, metric)`: the parameters of the render request. */
  function QueryParams(start: int, end: int, localTime: int -> LocalTime): Params {
    [("from", Some(FormatTime(localTime(start)))),
     ("until", Some(FormatTime(localTime(end)))),
     ("format", Some("json"))]
  }

  /** The part of the SLO configuration `threshold` reads. */
  datatype Measurement = Measurement(metric: string, threshold: real, goodBelowThreshold: Option<bool>)

  /** The query string of a render request for the window from `start` to `end`. */
  lemma QueryParamsRender(start: int, end: int, localTime: int -> LocalTime)
    ensures Render(QueryParams(start, end, localTime))
      == "from=" + FormatTime(localTime(start)) + "&until=" + FormatTime(localTime(end)) + "&format=json"
  {
    WindowRender(FormatTime(localTime(start)), FormatTime(localTime(end)));
  }

  lemma WindowRender(from: string, until: string)
    ensures Render([("from", Some(from)), ("until", Some(until)), ("format", Some("json"))])
      == "from=" + from + "&until=" + until + "&format=json"
  {
    var pairs := [("from", from), ("until", until), ("format", "json")];
    var params := [("from", Some(from)), ("until", Some(until)), ("format", Some("json"))];
    assert params[1..][1..][1..] == [];
    assert Present(params[1..][1..]) == [("format", "json")];
    assert Present(params[1..]) == pairs[1..];
    assert Present(params) == pairs;
    assert pairs[1..][1..] == [("format", "json")];
    assert Encode(pairs[1..]) == "until=" + until + "&format=json";
  }

  /** `GraphiteBackend.threshold(timestamp, window, slo_config)`: queries the window
      `[timestamp - window, timestamp]` and classifies the response; `good_below_threshold`
      defaults to true. The local-time conversion and the HTTP GET are parameters. */
  method Threshold(client: GraphiteClient, timestamp: int, window: int, measurement: Measurement,
                   localTime: int -> LocalTime, fetch: string -> Value)
    returns (r: Outcome<Counts>)
    ensures r == ThresholdCounts(
      fetch(RenderUrl(client.url, "render?target", measurement.metric,
                      QueryParams(timestamp - window, timestamp, localTime))),
      measurement.threshold, measurement.goodBelowThreshold.GetOr(true))
  {
    var goodBelowThreshold := measurement.goodBelowThreshold.GetOr(true);
    var params := QueryParams(timestamp - window, timestamp, localTime);
    var url := client.RequestUrl("render?target", measurement.metric, params);
    var response := fetch(url);
    r := CountThreshold(response, measurement.threshold, goodBelowThreshold);
  }
}
