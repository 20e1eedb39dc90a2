/** The PRTG backend: the latency classifier `count_threshold`, the `count_availability`
    and `count_bandwidth` reducers, the `retry_http` predicate and the URL `PrtgClient`
    requests. */
module Prtg {
  import opened Outcomes
  import opened Json
  import opened Sli
  import opened QueryString
  import Text

  // ---------------------------------------------------------------------------
  // count_threshold
  // ---------------------------------------------------------------------------

  const RttKey: string := "Avg. Round Trip Time (RTT)"

  /** The exceptions `count_threshold` turns into `(NO_DATA, NO_DATA)`. */
  const ThresholdCaught: set<Exc> := {IndexError, KeyError, ZeroDivisionError}

  /** One point of the comprehensions: `point['Avg. Round Trip Time (RTT)']` is read for
      every point, before any of the filters. */
  function AddRtt(rtts: seq<Value>, point: Value): Outcome<seq<Value>> {
    var rtt :- Subscript(point, RttKey);
    Ok(rtts + [rtt])
  }

  /** The round-trip values of all points, or the first exception reading one raises. */
  function Rtts(points: seq<Value>): Outcome<seq<Value>> {
    Fold(points, [], AddRtt)
  }

  /** Reading the round-trip values gives one value per point. */
  lemma {:induction false} RttsLength(points: seq<Value>)
    requires Rtts(points).Ok?
    ensures |Rtts(points).value| == |points|
    decreases |points|
  {
    if points != [] {
      FoldPrefixOk(points, |points| - 1, [], AddRtt);
      RttsLength(points[..|points| - 1]);
    }
  }

  /** The values whose type is exactly float. */
  function Floats(rtts: seq<Value>): seq<real>
    decreases |rtts|
  {
    if rtts == [] then []
    else Floats(rtts[..|rtts| - 1]) + (if rtts[|rtts| - 1].Float? then [rtts[|rtts| - 1].f] else [])
  }

  /** `points_below`: float values strictly below the threshold. */
  function FloatsBelow(rtts: seq<Value>, threshold: real): seq<real>
    decreases |rtts|
  {
    if rtts == [] then []
    else
      var v := rtts[|rtts| - 1];
      FloatsBelow(rtts[..|rtts| - 1], threshold) + (if v.Float? && v.f < threshold then [v.f] else [])
  }

  /** `points_above`: float values strictly above the threshold. */
  function FloatsAbove(rtts: seq<Value>, threshold: real): seq<real>
    decreases |rtts|
  {
    if rtts == [] then []
    else
      var v := rtts[|rtts| - 1];
      FloatsAbove(rtts[..|rtts| - 1], threshold) + (if v.Float? && v.f > threshold then [v.f] else [])
  }

  /** `PrtgBackend.count_threshold(response, threshold, good_below_threshold)` */
  function ThresholdCounts(response: Value, threshold: real, goodBelowThreshold: bool): (r: Outcome<Counts>)
    ensures r.Raise? ==> r.exc !in ThresholdCaught
    ensures r.Ok? && r.value.Pair? ==> Subscript(response, "histdata").Ok?
  {
    var body: Outcome<Counts> :=
      var datapoints :- Subscript(response, "histdata");
      var points :- Iterate(datapoints);
      var rtts :- Rtts(points);
      Ok(Ordered(|FloatsBelow(rtts, threshold)|, |FloatsAbove(rtts, threshold)|, goodBelowThreshold));
    Except(body, ThresholdCaught, NoDataPair)
  }

  /** "below" holds exactly the float values under the threshold, each as often as it
      occurs. */
  lemma {:induction false} BelowBucket(rtts: seq<Value>, threshold: real)
    ensures forall x ::
      multiset(FloatsBelow(rtts, threshold))[x] == (if x < threshold then multiset(Floats(rtts))[x] else 0)
    decreases |rtts|
  {
    if rtts != [] {
      var init := rtts[..|rtts| - 1];
      var v := rtts[|rtts| - 1];
      BelowBucket(init, threshold);
      var last := if v.Float? then [v.f] else [];
      assert Floats(rtts) == Floats(init) + last;
      assert multiset(Floats(rtts)) == multiset(Floats(init)) + multiset(last);
      var kept := if v.Float? && v.f < threshold then [v.f] else [];
      assert multiset(FloatsBelow(rtts, threshold)) == multiset(FloatsBelow(init, threshold)) + multiset(kept);
    }
  }

  /** "above" holds exactly the float values over the threshold, each as often as it
      occurs. */
  lemma {:induction false} AboveBucket(rtts: seq<Value>, threshold: real)
    ensures forall x ::
      multiset(FloatsAbove(rtts, threshold))[x] == (if x > threshold then multiset(Floats(rtts))[x] else 0)
    decreases |rtts|
  {
    if rtts != [] {
      var init := rtts[..|rtts| - 1];
      var v := rtts[|rtts| - 1];
      AboveBucket(init, threshold);
      var last := if v.Float? then [v.f] else [];
      assert Floats(rtts) == Floats(init) + last;
      assert multiset(Floats(rtts)) == multiset(Floats(init)) + multiset(last);
      var kept := if v.Float? && v.f > threshold then [v.f] else [];
      assert multiset(FloatsAbove(rtts, threshold)) == multiset(FloatsAbove(init, threshold)) + multiset(kept);
    }
  }

  /** A float equal to the threshold is in neither bucket, so the buckets together hold
      at most all the floats, and all of them exactly when none equals the threshold. */
  lemma {:induction false} BucketSizes(rtts: seq<Value>, threshold: real)
    ensures |FloatsBelow(rtts, threshold)| + |FloatsAbove(rtts, threshold)| <= |Floats(rtts)| <= |rtts|
    ensures |FloatsBelow(rtts, threshold)| + |FloatsAbove(rtts, threshold)| == |Floats(rtts)|
      <==> threshold !in Floats(rtts)
    decreases |rtts|
  {
    if rtts != [] {
      var init := rtts[..|rtts| - 1];
      BucketSizes(init, threshold);
      var v := rtts[|rtts| - 1];
      if v.Float? {
        assert Floats(rtts) == Floats(init) + [v.f];
        assert threshold in Floats(rtts) <==> threshold in Floats(init) || v.f == threshold;
      } else {
        assert Floats(rtts) == Floats(init) + [];
      }
    }
  }

  /** The filters look at a value alone, so the buckets of a concatenation are the
      concatenated buckets. */
  lemma {:induction false} BucketsAppend(a: seq<Value>, b: seq<Value>, threshold: real)
    ensures FloatsBelow(a + b, threshold) == FloatsBelow(a, threshold) + FloatsBelow(b, threshold)
    ensures FloatsAbove(a + b, threshold) == FloatsAbove(a, threshold) + FloatsAbove(b, threshold)
    decreases |b|
  {
    if b == [] {
      assert a + b == a;
    } else {
      var shorter := b[..|b| - 1];
      assert (a + b)[..|a + b| - 1] == a + shorter && (a + b)[|a + b| - 1] == b[|b| - 1];
      BucketsAppend(a, shorter, threshold);
    }
  }

  /** Only exact floats count: a round-trip time that is None, an int, a str or anything
      else but a float changes neither bucket, wherever it appears. */
  lemma NonFloatIgnored(a: seq<Value>, v: Value, b: seq<Value>, threshold: real)
    requires !v.Float?
    ensures FloatsBelow(a + [v] + b, threshold) == FloatsBelow(a + b, threshold)
    ensures FloatsAbove(a + [v] + b, threshold) == FloatsAbove(a + b, threshold)
  {
    BucketsAppend(a + [v], b, threshold);
    BucketsAppend(a, [v], threshold);
    BucketsAppend(a, b, threshold);
    assert [v][..0] == [];
  }

  /** The two flag settings give the same pair in reverse order. */
  lemma ThresholdFlagSwaps(response: Value, threshold: real)
    ensures var c := ThresholdCounts(response, threshold, true);
      ThresholdCounts(response, threshold, false) == (if c.Ok? then Ok(Swapped(c.value)) else c)
  {
  }

  /** A response without 'histdata' gives `(NO_DATA, NO_DATA)`, an empty 'histdata' list
      gives `(0, 0)`, and a response that is not a dict raises TypeError. */
  lemma HistdataCases(response: Value, threshold: real, goodBelowThreshold: bool)
    ensures response.Dict? && Lookup(response.fields, "histdata").None?
      ==> ThresholdCounts(response, threshold, goodBelowThreshold) == Ok(NoDataPair)
    ensures Subscript(response, "histdata") == Ok(List([]))
      ==> ThresholdCounts(response, threshold, goodBelowThreshold) == Ok(Pair(0, 0))
    ensures !response.Dict? ==> ThresholdCounts(response, threshold, goodBelowThreshold) == Raise(TypeError)
  {
  }

  /** The two counts together never exceed the number of points in 'histdata'. */
  lemma ThresholdBoundedByPoints(response: Value, points: seq<Value>, threshold: real, goodBelowThreshold: bool,
                                 good: nat, bad: nat)
    requires Subscript(response, "histdata") == Ok(List(points))
    requires ThresholdCounts(response, threshold, goodBelowThreshold) == Ok(Pair(good, bad))
    ensures good + bad <= |points|
  {
    var rtts := Rtts(points);
    if rtts.Ok? {
      RttsLength(points);
      BucketSizes(rtts.value, threshold);
    }
  }

  /** A point without the round-trip key gives `(NO_DATA, NO_DATA)`, even after points
      that had it. */
  lemma MissingRttIsNoData(response: Value, points: seq<Value>, k: nat, threshold: real, goodBelowThreshold: bool)
    requires Subscript(response, "histdata") == Ok(List(points))
    requires k < |points| && Rtts(points[..k]).Ok?
    requires points[k].Dict? && Lookup(points[k].fields, RttKey).None?
    ensures ThresholdCounts(response, threshold, goodBelowThreshold) == Ok(NoDataPair)
  {
    FoldNext(points, k, [], AddRtt);
    FoldStopsAtRaise(points, k + 1, [], AddRtt);
  }

  /** A point holding only its round-trip time. */
  function Point(rtt: Value): Value {
    Dict([(RttKey, rtt)])
  }

  function Points(rtts: seq<Value>): seq<Value> {
    seq(|rtts|, k requires 0 <= k < |rtts| => Point(rtts[k]))
  }

  /** Points that each hold a round-trip time read back as those times, in order. */
  lemma {:induction false} RttsOfPoints(rtts: seq<Value>)
    ensures Rtts(Points(rtts)) == Ok(rtts)
    decreases |rtts|
  {
    if rtts != [] {
      var n := |rtts| - 1;
      var points := Points(rtts);
      assert points[..n] == Points(rtts[..n]);
      RttsOfPoints(rtts[..n]);
      assert Subscript(points[n], RttKey) == Ok(rtts[n]);
      assert rtts[..n] + [rtts[n]] == rtts;
    }
  }

  const ExampleRtts: seq<Value> := [Float(12.5), Int(3), Null, Float(50.0), Str(""), Float(80.25)]

  /** Threshold 50 over 12.5, 3, null, 50.0, "", 80.25: only 12.5 is below and only 80.25
      above; the int, the null and the str are ignored and 50.0 is in neither bucket. */
  lemma ThresholdExample()
    ensures ThresholdCounts(Dict([("histdata", List(Points(ExampleRtts)))]), 50.0, true) == Ok(Pair(1, 1))
  {
    RttsOfPoints(ExampleRtts);
    var r := ExampleRtts;
    assert r[..1][..0] == [] && r[..2][..1] == r[..1] && r[..3][..2] == r[..2];
    assert r[..4][..3] == r[..3] && r[..5][..4] == r[..4] && r[..6] == r && r[..5] == r[..|r| - 1];
    assert FloatsBelow(r[..1], 50.0) == [12.5] && FloatsAbove(r[..1], 50.0) == [];
    assert FloatsBelow(r[..2], 50.0) == [12.5] && FloatsAbove(r[..2], 50.0) == [];
    assert FloatsBelow(r[..3], 50.0) == [12.5] && FloatsAbove(r[..3], 50.0) == [];
    assert FloatsBelow(r[..4], 50.0) == [12.5] && FloatsAbove(r[..4], 50.0) == [];
    assert FloatsBelow(r[..5], 50.0) == [12.5] && FloatsAbove(r[..5], 50.0) == [];
    assert FloatsBelow(r, 50.0) == [12.5] && FloatsAbove(r, 50.0) == [80.25];
  }

  // ---------------------------------------------------------------------------
  // count_availability
  // ---------------------------------------------------------------------------

  /** The exceptions `count_availability` turns into 0. */
  const AvailabilityCaught: set<Exc> := {IndexError, AttributeError}

  const CoverageStrip: set<char> := {' ', '%'}

  /** A point's 'coverage' text, stripped of spaces and `%` at both ends, read as an
      integer percentage and turned into a fraction. */
  function CoverageOf(point: Value): Outcome<real> {
    var coverage :- Subscript(point, "coverage");
    var text :- StripStr(coverage, CoverageStrip);
    var n :- Text.ParseInt(text);
    Ok(n as real / 100.0)
  }

  /** One pass of the loop: `values.append(value)`. */
  function AddCoverage(values: seq<real>, point: Value): Outcome<seq<real>> {
    var value :- CoverageOf(point);
    Ok(values + [value])
  }

  /** `PrtgBackend.count_availability(response)`: the mean coverage as a fraction. */
  function Availability(response: Value): (r: Outcome<real>)
    ensures r.Raise? ==> r.exc !in AvailabilityCaught
    ensures r.Ok? && r.value != 0.0 ==> Subscript(response, "histdata").Ok?
  {
    var body: Outcome<real> :=
      var datapoints :- Subscript(response, "histdata");
      var points :- Iterate(datapoints);
      var values :- Fold(points, [], AddCoverage);
      if values == [] then Raise(IndexError) else Ok(Mean(values));
    Except(body, AvailabilityCaught, 0.0)
  }

  /** `count_availability`: the loop appends each point's coverage, then averages. */
  method CountAvailability(response: Value) returns (r: Outcome<real>)
    ensures r == Availability(response)
  {
    var values: seq<real> := [];
    var datapoints := Subscript(response, "histdata");
    if datapoints.Raise? {
      return Except(Raise(datapoints.exc), AvailabilityCaught, 0.0);
    }
    var points := Iterate(datapoints.value);
    if points.Raise? {
      return Except(Raise(points.exc), AvailabilityCaught, 0.0);
    }
    for i := 0 to |points.value|
      invariant Fold(points.value[..i], [], AddCoverage) == Ok(values)
    {
      var value := CoverageOf(points.value[i]);
      FoldNext(points.value, i, [], AddCoverage);
      if value.Raise? {
        FoldStopsAtRaise(points.value, i + 1, [], AddCoverage);
        return Except(Raise(value.exc), AvailabilityCaught, 0.0);
      }
      values := values + [value.value];
    }
    assert points.value[..|points.value|] == points.value;
    if values == [] {
      return Except(Raise(IndexError), AvailabilityCaught, 0.0);
    }
    r := Ok(Mean(values));
  }

  lemma {:induction false} CoveragesOf(points: seq<Value>)
    requires Fold(points, [], AddCoverage).Ok?
    ensures var values := Fold(points, [], AddCoverage).value;
      |values| == |points| && forall k :: 0 <= k < |points| ==> CoverageOf(points[k]) == Ok(values[k])
    decreases |points|
  {
    if points != [] {
      var init := points[..|points| - 1];
      FoldPrefixOk(points, |points| - 1, [], AddCoverage);
      CoveragesOf(init);
      forall k | 0 <= k < |points| - 1
        ensures points[k] == init[k]
      {
      }
    }
  }

  /** The result is the mean of the coverages the loop collects, and 0 when there is
      none (the IndexError raised for an empty list is caught). */
  lemma AvailabilityIsMean(response: Value, points: seq<Value>, values: seq<real>)
    requires Subscript(response, "histdata") == Ok(List(points))
    requires Fold(points, [], AddCoverage) == Ok(values)
    ensures values == [] ==> Availability(response) == Ok(0.0)
    ensures values != [] ==> Availability(response) == Ok(Mean(values))
  {
  }

  /** When every coverage lies between `lo` and `hi` (0 and 1 for percentages up to
      100 %), so does the result. */
  lemma AvailabilityBounded(response: Value, points: seq<Value>, values: seq<real>, lo: real, hi: real)
    requires Subscript(response, "histdata") == Ok(List(points))
    requires Fold(points, [], AddCoverage) == Ok(values)
    requires values != [] && forall k :: 0 <= k < |values| ==> lo <= values[k] <= hi
    ensures Availability(response).Ok? && lo <= Availability(response).value <= hi
  {
    AvailabilityIsMean(response, points, values);
    MeanBetween(values, lo, hi);
  }

  /** A coverage that is not a str (AttributeError on `.strip`) gives 0, once the points
      before it read fine; a missing 'histdata' key is not caught. */
  lemma AvailabilityFallbacks(response: Value, points: seq<Value>, k: nat)
    ensures response.Dict? && Lookup(response.fields, "histdata").None? ==> Availability(response) == Raise(KeyError)
    ensures Subscript(response, "histdata") == Ok(List(points)) && k < |points|
      && Fold(points[..k], [], AddCoverage).Ok?
      && Subscript(points[k], "coverage").Ok? && !Subscript(points[k], "coverage").value.Str?
      ==> Availability(response) == Ok(0.0)
  {
    if Subscript(response, "histdata") == Ok(List(points)) && k < |points|
      && Fold(points[..k], [], AddCoverage).Ok?
      && Subscript(points[k], "coverage").Ok? && !Subscript(points[k], "coverage").value.Str? {
      FoldNext(points, k, [], AddCoverage);
      FoldStopsAtRaise(points, k + 1, [], AddCoverage);
    }
  }

  /** A coverage written `str(n) + " %"`, with any spaces or `%` around it, reads as n / 100. */
  lemma CoverageRoundTrip(n: int, pre: string, post: string)
    requires forall k :: 0 <= k < |pre| ==> pre[k] in CoverageStrip
    requires forall k :: 0 <= k < |post| ==> post[k] in CoverageStrip
    ensures CoverageOf(CoveragePoint(pre + Text.IntToString(n) + post)) == Ok(n as real / 100.0)
  {
    var core := Text.IntToString(n);
    Text.StripAround(pre, core, post, CoverageStrip);
    Text.ParseIntRoundTrip(n);
    CoverageOfText(CoveragePoint(pre + core + post), pre + core + post, n);
  }

  lemma CoverageOfText(point: Value, text: string, n: int)
    requires Subscript(point, "coverage") == Ok(Str(text))
    requires Text.ParseInt(Text.Strip(text, CoverageStrip)) == Ok(n)
    ensures CoverageOf(point) == Ok(n as real / 100.0)
  {
  }

  function CoveragePoint(coverage: string): Value {
    Dict([("coverage", Str(coverage))])
  }

  lemma ExampleCoverages()
    ensures CoverageOf(CoveragePoint("100 %")) == Ok(1.0)
    ensures CoverageOf(CoveragePoint("50 %")) == Ok(0.5)
  {
    assert Text.IntToString(100) == "100" && Text.IntToString(50) == "50" by {
      assert Text.Decimal(100) == "100" by { assert Text.Decimal(10) == "10"; }
    }
    assert "" + "100" + " %" == "100 %" && "" + "50" + " %" == "50 %";
    CoverageRoundTrip(100, "", " %");
    CoverageRoundTrip(50, "", " %");
  }

  /** Two points whose coverages read 1.0 and 0.5 (as "100 %" and "50 %" do) average
      to 0.75. */
  lemma AvailabilityExample(full: Value, half: Value)
    requires CoverageOf(full) == Ok(1.0) && CoverageOf(half) == Ok(0.5)
    ensures Availability(Dict([("histdata", List([full, half]))])) == Ok(0.75)
  {
    var points := [full, half];
    var values := [1.0, 0.5];
    assert points[..0] == [] && points[..2] == points;
    assert [] + [1.0] == [1.0] && [1.0] + [0.5] == values;
    FoldNext(points, 0, [], AddCoverage);
    assert Fold(points[..1], [], AddCoverage) == Ok([1.0]);
    FoldNext(points, 1, [], AddCoverage);
    ExampleMean();
    AvailabilityIsMean(Dict([("histdata", List(points))]), points, values);
  }

  lemma ExampleMean()
    ensures Mean([1.0, 0.5]) == 0.75
  {
    var values := [1.0, 0.5];
    assert Sum(values) == 1.5 by {
      assert values[..1] == [1.0] && [1.0][..0] == [];
    }
  }

  // ---------------------------------------------------------------------------
  // count_bandwidth
  // ---------------------------------------------------------------------------

  /** The exceptions `count_bandwidth` turns into 0. */
  const BandwidthCaught: set<Exc> := {IndexError, AttributeError}

  const TrafficTotal: string := "Traffic Total"

  /** `.strip(' Mbit/s')` strips any of these characters, not the unit as a word. */
  const LastValueStrip: set<char> := {' ', 'M', 'b', 'i', 't', '/', 's'}

  /** A channel's 'lastvalue' text, stripped at both ends of the characters of
      " Mbit/s", read as an integer. */
  function LastValueOf(point: Value): Outcome<int> {
    var lastValue :- Subscript(point, "lastvalue");
    var text :- StripStr(lastValue, LastValueStrip);
    Text.ParseInt(text)
  }

  predicate IsTrafficTotal(point: Value) {
    Subscript(point, "name") == Ok(Str(TrafficTotal))
  }

  /** One pass of the loop; `value` is None while the Python variable is unbound. */
  function TrafficStep(value: Option<int>, point: Value): Outcome<Option<int>> {
    var name :- Subscript(point, "name");
    if name == Str(TrafficTotal) then
      var v :- LastValueOf(point);
      Ok(Some(v))
    else Ok(value)
  }

  /** `PrtgBackend.count_bandwidth(response, bandwidth_capacity)` */
  function Bandwidth(response: Value, capacity: real): (r: Outcome<real>)
    ensures r.Raise? ==> r.exc !in BandwidthCaught
    ensures r.Ok? && r.value != 0.0 ==> capacity != 0.0 && Subscript(response, "channels").Ok?
  {
    var body: Outcome<real> :=
      var datapoints :- Subscript(response, "channels");
      var points :- Iterate(datapoints);
      var value :- Fold(points, None, TrafficStep);
      if value.None? then Raise(UnboundLocalError)
      else if capacity == 0.0 then Raise(ZeroDivisionError)
      else Ok(value.value as real / capacity);
    Except(body, BandwidthCaught, 0.0)
  }

  /** `count_bandwidth`: the loop overwrites `value` at each 'Traffic Total' channel. */
  method CountBandwidth(response: Value, capacity: real) returns (r: Outcome<real>)
    ensures r == Bandwidth(response, capacity)
  {
    var datapoints := Subscript(response, "channels");
    if datapoints.Raise? {
      return Except(Raise(datapoints.exc), BandwidthCaught, 0.0);
    }
    var points := Iterate(datapoints.value);
    if points.Raise? {
      return Except(Raise(points.exc), BandwidthCaught, 0.0);
    }
    var value: int := 0;
    var bound := false;
    for i := 0 to |points.value|
      invariant Fold(points.value[..i], None, TrafficStep) == Ok(if bound then Some(value) else None)
    {
      var point := points.value[i];
      FoldNext(points.value, i, None, TrafficStep);
      var name := Subscript(point, "name");
      if name.Raise? {
        FoldStopsAtRaise(points.value, i + 1, None, TrafficStep);
        return Except(Raise(name.exc), BandwidthCaught, 0.0);
      }
      if name.value == Str(TrafficTotal) {
        var parsed := LastValueOf(point);
        if parsed.Raise? {
          FoldStopsAtRaise(points.value, i + 1, None, TrafficStep);
          return Except(Raise(parsed.exc), BandwidthCaught, 0.0);
        }
        value, bound := parsed.value, true;
      }
    }
    assert points.value[..|points.value|] == points.value;
    if !bound {
      return Except(Raise(UnboundLocalError), BandwidthCaught, 0.0);
    }
    if capacity == 0.0 {
      return Except(Raise(ZeroDivisionError), BandwidthCaught, 0.0);
    }
    r := Ok(value as real / capacity);
  }

  /** One pass either takes the value of a 'Traffic Total' channel or keeps the old one. */
  lemma TrafficStepCases(before: Option<int>, point: Value)
    requires TrafficStep(before, point).Ok?
    ensures IsTrafficTotal(point) ==>
      LastValueOf(point).Ok? && TrafficStep(before, point).value == Some(LastValueOf(point).value)
    ensures !IsTrafficTotal(point) ==> TrafficStep(before, point).value == before
  {
  }

  /** Once the loop has run to the end, every 'Traffic Total' channel it met had a
      readable 'lastvalue'. */
  lemma TrafficValuesParse(points: seq<Value>)
    requires Fold(points, None, TrafficStep).Ok?
    ensures forall k :: 0 <= k < |points| && IsTrafficTotal(points[k]) ==> LastValueOf(points[k]).Ok?
  {
    forall k | 0 <= k < |points| && IsTrafficTotal(points[k])
      ensures LastValueOf(points[k]).Ok?
    {
      FoldPrefixOk(points, k + 1, None, TrafficStep);
      FoldNext(points, k, None, TrafficStep);
      TrafficStepCases(Fold(points[..k], None, TrafficStep).value, points[k]);
    }
  }

  /** After the loop `value` is unbound exactly when no channel is named 'Traffic Total'. */
  lemma TrafficUnbound(points: seq<Value>)
    requires Fold(points, None, TrafficStep).Ok?
    ensures Fold(points, None, TrafficStep).value.None?
      <==> forall k :: 0 <= k < |points| ==> !IsTrafficTotal(points[k])
  {
    var hit := (x: Value) => IsTrafficTotal(x);
    var pick := (x: Value) => Some(if LastValueOf(x).Ok? then LastValueOf(x).value else 0);
    forall v, x | TrafficStep(v, x).Ok?
      ensures TrafficStep(v, x).value == (if hit(x) then pick(x) else v)
    {
      TrafficStepCases(v, x);
    }
    FoldLastHit(points, None, TrafficStep, hit, pick);
  }

  /** The last 'Traffic Total' channel supplies the value: when `value` is bound it is
      the parsed 'lastvalue' of a channel so named after which no other is. */
  lemma LastTrafficWins(points: seq<Value>)
    requires Fold(points, None, TrafficStep).Ok?
    ensures var value := Fold(points, None, TrafficStep).value;
      value.Some? ==> exists k :: (0 <= k < |points| && IsTrafficTotal(points[k])
            && LastValueOf(points[k]) == Ok(value.value)
            && forall j :: k < j < |points| ==> !IsTrafficTotal(points[j]))
  {
    var hit := (x: Value) => IsTrafficTotal(x);
    var pick := (x: Value) => Some(if LastValueOf(x).Ok? then LastValueOf(x).value else 0);
    forall v, x | TrafficStep(v, x).Ok?
      ensures TrafficStep(v, x).value == (if hit(x) then pick(x) else v)
    {
      TrafficStepCases(v, x);
    }
    FoldLastHit(points, None, TrafficStep, hit, pick);
    TrafficValuesParse(points);
  }

  /** Without a 'Traffic Total' channel `value` is never bound, and the
      UnboundLocalError escapes. */
  lemma NoTrafficTotalEscapes(response: Value, points: seq<Value>, capacity: real)
    requires Subscript(response, "channels") == Ok(List(points))
    requires Fold(points, None, TrafficStep).Ok?
    requires forall k :: 0 <= k < |points| ==> !IsTrafficTotal(points[k])
    ensures Bandwidth(response, capacity) == Raise(UnboundLocalError)
  {
    TrafficUnbound(points);
    assert Fold(points, None, TrafficStep) == Ok(None);
  }

  /** A capacity of 0 raises ZeroDivisionError, which is not caught. */
  lemma ZeroCapacityEscapes(response: Value, points: seq<Value>, k: nat)
    requires Subscript(response, "channels") == Ok(List(points))
    requires Fold(points, None, TrafficStep).Ok?
    requires k < |points| && IsTrafficTotal(points[k])
    ensures Bandwidth(response, 0.0) == Raise(ZeroDivisionError)
  {
    TrafficUnbound(points);
    assert Fold(points, None, TrafficStep).value.Some?;
  }

  /** A 'Traffic Total' channel whose 'lastvalue' is not a str gives 0, once the channels
      before it read fine. */
  lemma NonStringLastValue(response: Value, points: seq<Value>, k: nat, capacity: real)
    requires Subscript(response, "channels") == Ok(List(points))
    requires k < |points| && Fold(points[..k], None, TrafficStep).Ok?
    requires IsTrafficTotal(points[k])
    requires Subscript(points[k], "lastvalue").Ok? && !Subscript(points[k], "lastvalue").value.Str?
    ensures Bandwidth(response, capacity) == Ok(0.0)
  {
    FoldNext(points, k, None, TrafficStep);
    FoldStopsAtRaise(points, k + 1, None, TrafficStep);
  }

  /** A 'lastvalue' written `str(n) + " Mbit/s"` reads as n. */
  lemma LastValueRoundTrip(point: Value, n: int)
    requires Subscript(point, "lastvalue") == Ok(Str(Text.IntToString(n) + " Mbit/s"))
    ensures LastValueOf(point) == Ok(n)
  {
    var core := Text.IntToString(n);
    Text.StripAround("", core, " Mbit/s", LastValueStrip);
    assert "" + core + " Mbit/s" == core + " Mbit/s";
    Text.ParseIntRoundTrip(n);
    LastValueOfText(point, core + " Mbit/s", n);
  }

  lemma LastValueOfText(point: Value, text: string, n: int)
    requires Subscript(point, "lastvalue") == Ok(Str(text))
    requires Text.ParseInt(Text.Strip(text, LastValueStrip)) == Ok(n)
    ensures LastValueOf(point) == Ok(n)
  {
  }

  /** The strip takes characters, not a unit: "5 kbit/s" keeps its "k" and `int()`
      raises ValueError, which escapes. */
  lemma KilobitsRejected()
    ensures LastValueOf(Dict([("lastvalue", Str("5 kbit/s"))])) == Raise(ValueError)
  {
    Text.StripAround("", "5 k", "bit/s", LastValueStrip);
    assert "" + "5 k" + "bit/s" == "5 kbit/s";
    Text.StripKeeps("5 k", Text.AsciiWhitespace);
    assert Text.ParseNumeral("5 k") == Raise(ValueError);
  }

  /** Once the loop has bound `value` and the capacity is not 0, the result is the
      bandwidth used over the capacity. */
  lemma BandwidthIsRatio(response: Value, points: seq<Value>, value: int, capacity: real)
    requires Subscript(response, "channels") == Ok(List(points))
    requires Fold(points, None, TrafficStep) == Ok(Some(value)) && capacity != 0.0
    ensures Bandwidth(response, capacity) == Ok(value as real / capacity)
  {
  }

  /** A channel named "Traffic In" is not the total. */
  lemma ExampleInbound()
    ensures var inbound := Dict([("name", Str("Traffic In")), ("lastvalue", Str("100 Mbit/s"))]);
      Subscript(inbound, "name") == Ok(Str("Traffic In")) && !IsTrafficTotal(inbound)
  {
    assert Str("Traffic In") != Str(TrafficTotal) by {
      assert "Traffic In"[8] != TrafficTotal[8];
    }
  }

  /** A channel named "Traffic Total" at "250 Mbit/s" is the total, at 250. */
  lemma ExampleTotal()
    ensures var total := Dict([("name", Str(TrafficTotal)), ("lastvalue", Str("250 Mbit/s"))]);
      IsTrafficTotal(total) && LastValueOf(total) == Ok(250)
  {
    var total := Dict([("name", Str(TrafficTotal)), ("lastvalue", Str("250 Mbit/s"))]);
    assert Text.IntToString(250) == "250" by {
      assert Text.Decimal(250) == "250" by { assert Text.Decimal(25) == "25"; }
    }
    assert "name" != "lastvalue" by { assert |"name"| != |"lastvalue"|; }
    var rest := [("lastvalue", Str("250 Mbit/s"))];
    assert total.fields[0].0 != "lastvalue" && total.fields[1..] == rest;
    assert Lookup(rest, "lastvalue") == Some(Str("250 Mbit/s"));
    assert Lookup(total.fields, "lastvalue") == Some(Str("250 Mbit/s"));
    assert "250" + " Mbit/s" == "250 Mbit/s";
    LastValueRoundTrip(total, 250);
  }

  /** With a channel that is not the total before one that is at 250, over a capacity of
      1000 the result is 0.25. */
  lemma BandwidthExample(inbound: Value, total: Value)
    requires Subscript(inbound, "name").Ok? && !IsTrafficTotal(inbound)
    requires IsTrafficTotal(total) && LastValueOf(total) == Ok(250)
    ensures Bandwidth(Dict([("channels", List([inbound, total]))]), 1000.0) == Ok(0.25)
  {
    TrafficStepCases(None, inbound);
    TrafficStepCases(None, total);
    BandwidthOfTwo(inbound, total, 250, 1000.0);
    Quarter(250, 1000.0);
  }

  /** The division of the example, stated over parameters so that its terms match those
      of `BandwidthOfTwo`. */
  lemma Quarter(value: int, capacity: real)
    requires value == 250 && capacity == 1000.0
    ensures value as real / capacity == 0.25
  {
  }

  /** Two channels whose passes keep the value unbound and then bind it: the result is
      that value over the capacity. */
  lemma BandwidthOfTwo(inbound: Value, total: Value, value: int, capacity: real)
    requires TrafficStep(None, inbound) == Ok(None) && TrafficStep(None, total) == Ok(Some(value))
    requires capacity != 0.0
    ensures Bandwidth(Dict([("channels", List([inbound, total]))]), capacity) == Ok(value as real / capacity)
  {
    var points := [inbound, total];
    assert points[..0] == [] && points[..2] == points;
    FoldNext(points, 0, None, TrafficStep);
    FoldNext(points, 1, None, TrafficStep);
    BandwidthIsRatio(Dict([("channels", List(points))]), points, value, capacity);
  }

  lemma ExampleTrafficFold(inbound: Value, total: Value)
    requires Subscript(inbound, "name").Ok? && !IsTrafficTotal(inbound)
    requires IsTrafficTotal(total) && LastValueOf(total) == Ok(250)
    ensures Fold([inbound, total], None, TrafficStep) == Ok(Some(250))
  {
    var points := [inbound, total];
    assert points[..0] == [] && points[..2] == points;
    assert TrafficStep(None, inbound) == Ok(None);
    assert TrafficStep(None, total) == Ok(Some(250));
    FoldNext(points, 0, None, TrafficStep);
    FoldNext(points, 1, None, TrafficStep);
  }

  // ---------------------------------------------------------------------------
  // retry_http
  // ---------------------------------------------------------------------------

  const RetryCodes: seq<int> := [429]

  /** `retry_http`: the response's error code, 200 when there is no 'error' or no
      'code', converted with `int()` and looked up among the retry codes. */
  function RetryHttp(response: Value): (r: Outcome<bool>)
    ensures r.Raise? ==> r.exc in {AttributeError, TypeError, ValueError}
    ensures r == Ok(true) ==> response.Dict? && Lookup(response.fields, "error").Some?
  {
    var error :- Get(response, "error", Dict([]));
    var code :- Get(error, "code", Int(200));
    var n :- ToInt(code);
    Ok(n in RetryCodes)
  }

  /** The response carries an 'error' dict whose 'code' is `code`, whatever other keys
      either of them has. */
  predicate HasCode(response: Value, code: Value) {
    response.Dict? && Lookup(response.fields, "error").Some?
    && Lookup(response.fields, "error").value.Dict?
    && Lookup(Lookup(response.fields, "error").value.fields, "code") == Some(code)
  }

  /** With an error code present, the predicate is the code's `int()` compared with 429,
      or the exception `int()` raises on it. */
  lemma RetryOnCode(response: Value, code: Value)
    requires HasCode(response, code)
    ensures ToInt(code).Ok? ==> RetryHttp(response) == Ok(ToInt(code).value == 429)
    ensures ToInt(code).Raise? ==> RetryHttp(response) == Raise(ToInt(code).exc)
  {
  }

  /** An int code: retry exactly on 429. */
  lemma RetryOnIntCode(response: Value, n: int)
    requires HasCode(response, Int(n))
    ensures RetryHttp(response) == Ok(n == 429)
  {
    RetryOnCode(response, Int(n));
  }

  /** A code sent as the str of an int: `int()` parses it, so retry exactly on "429". */
  lemma RetryOnStrCode(response: Value, n: int)
    requires HasCode(response, Str(Text.IntToString(n)))
    ensures RetryHttp(response) == Ok(n == 429)
  {
    Text.ParseIntRoundTrip(n);
    RetryOnCode(response, Str(Text.IntToString(n)));
  }

  /** Whitespace around a str code, the separators U+001C to U+001F included, is ignored
      by `int()`. */
  lemma RetryOnPaddedCode(response: Value, pre: string, n: int, post: string)
    requires forall k :: 0 <= k < |pre| ==> pre[k] in Text.AsciiWhitespace
    requires forall k :: 0 <= k < |post| ==> post[k] in Text.AsciiWhitespace
    requires HasCode(response, Str(pre + Text.IntToString(n) + post))
    ensures RetryHttp(response) == Ok(n == 429)
  {
    Text.ParseIntPadded(pre, n, post);
    RetryOnCode(response, Str(pre + Text.IntToString(n) + post));
  }

  /** A float code: `int()` truncates it toward zero, so retry exactly on 429 <= code < 430. */
  lemma RetryOnFloatCode(response: Value, f: real)
    requires HasCode(response, Float(f))
    ensures RetryHttp(response) == Ok(429.0 <= f < 430.0)
  {
    RetryOnCode(response, Float(f));
    if f >= 0.0 {
      assert Truncate(f) == 429 <==> 429.0 <= f < 430.0;
    } else {
      assert Truncate(f) <= 0;
    }
  }

  /** A code `int()` cannot convert raises: None gives TypeError, a str that is not a
      numeral gives ValueError. */
  lemma RetryOnBadCode(response: Value, code: Value)
    requires HasCode(response, code)
    ensures code == Null ==> RetryHttp(response) == Raise(TypeError)
    ensures code == Str("Too Many Requests") ==> RetryHttp(response) == Raise(ValueError)
  {
    RetryOnCode(response, code);
    var s := "Too Many Requests";
    Text.StripKeeps(s, Text.AsciiWhitespace);
    assert Text.ParseNumeral(s) == Raise(ValueError);
  }

  /** A rate-limit error as PRTG sends it, with a version and a message beside the code,
      asks for a retry. */
  lemma RetryExample()
    ensures var error := Dict([("message", Str("Too Many Requests")), ("code", Int(429))]);
      RetryHttp(Dict([("prtg-version", Str("21.1")), ("error", error)])) == Ok(true)
  {
    var error := Dict([("message", Str("Too Many Requests")), ("code", Int(429))]);
    var response := Dict([("prtg-version", Str("21.1")), ("error", error)]);
    assert "prtg-version" != "error" by { assert |"prtg-version"| != |"error"|; }
    assert "message" != "code" by { assert |"message"| != |"code"|; }
    assert response.fields[1..] == [("error", error)] && error.fields[1..] == [("code", Int(429))];
    assert Lookup(response.fields, "error") == Some(error);
    assert Lookup(error.fields, "code") == Some(Int(429));
    RetryOnIntCode(response, 429);
  }

  /** A missing 'error' or 'code' defaults to 200 and gives no retry. */
  lemma RetryDefaults(response: Value, error: Value)
    ensures response.Dict? && Lookup(response.fields, "error").None? ==> RetryHttp(response) == Ok(false)
    ensures error.Dict? && Lookup(error.fields, "code").None?
      ==> RetryHttp(Dict([("error", error)])) == Ok(false)
  {
  }

  /** A response or an 'error' that is not a dict has no `.get`: AttributeError. */
  lemma RetryWithoutGet(response: Value, error: Value)
    ensures !response.Dict? ==> RetryHttp(response) == Raise(AttributeError)
    ensures !error.Dict? ==> RetryHttp(Dict([("error", error)])) == Raise(AttributeError)
  {
  }

  // ---------------------------------------------------------------------------
  // PrtgClient
  // ---------------------------------------------------------------------------

  /** `name` is appended only when it is truthy: set and not empty. */
  function NamePart(name: Option<string>): string {
    if name.Some? && name.value != "" then "/" + name.value else ""
  }

  /** The URL of a request: base, `/api/`, the endpoint, the name part, `?` and the
      query string. */
  function ApiUrl(base: string, endpoint: string, name: Option<string>, params: Params): string {
    base + "/api/" + endpoint + NamePart(name) + "?" + Render(params)
  }

  class PrtgClient {
    var url: string
    var token: Option<string>

    /** `PrtgClient(api_url, api_passhash)` */
    constructor (apiUrl: string, apiPasshash: Option<string>)
      ensures url == Text.StripRight(apiUrl, {'/'}) && token == apiPasshash
    {
      url := Text.StripRight(apiUrl, {'/'});
      token := apiPasshash;
    }

    /** The URL `request(method, endpoint, name, **params)` sends to, and the parameters
        after `params['passhash'] = self.token`. */
    method RequestUrl(endpoint: string, name: Option<string>, params: Params) returns (u: string, sent: Params)
      ensures sent == Set(params, "passhash", token)
      ensures u == ApiUrl(url, endpoint, name, sent)
    {
      u := url + "/api/" + endpoint;
      sent := Set(params, "passhash", token);
      if name.Some? && name.value != "" {
        u := u + "/" + name.value;
      }
      var paramsStr := Render(sent);
      u := u + "?" + paramsStr;
    }
  }

  /** Without a 'passhash' of the caller's, the token goes last in the query string, or
      is left out when it is None; with one, only its value changes and every other key
      keeps its value. */
  lemma PasshashInjected(params: Params, token: Option<string>)
    ensures "passhash" !in Keys(params) && token.Some?
      ==> Present(Set(params, "passhash", token)) == Present(params) + [("passhash", token.value)]
    ensures "passhash" !in Keys(params) && token.None?
      ==> Render(Set(params, "passhash", token)) == Render(params)
    ensures "passhash" in Keys(params) ==> Keys(Set(params, "passhash", token)) == Keys(params)
  {
    if "passhash" !in Keys(params) {
      var added := [("passhash", token)];
      assert added[1..] == [];
      PresentAppend(params, added);
      if token.None? {
        assert Present(params) + [] == Present(params);
      }
    }
  }

  /** The query string of a request without a 'passhash' of the caller's reads back as
      the caller's parameters that are not None, then the token. */
  lemma PasshashQuery(params: Params, token: string)
    requires "passhash" !in Keys(params)
    requires Plain(Present(params) + [("passhash", token)])
    ensures Decode(Render(Set(params, "passhash", Some(token)))) == Present(params) + [("passhash", token)]
  {
    PasshashInjected(params, Some(token));
    DecodeEncode(Present(params) + [("passhash", token)]);
  }

  /** `query_historicdata`'s parameters. */
  function HistoricDataParams(start: string, end: string, probeId: Option<string>): Params {
    [("sdate", Some(start)), ("edate", Some(end)), ("output", Some("json")), ("id", probeId),
     ("username", Some("slogenerator")), ("avg", Some("0")), ("usecaption", Some("1"))]
  }

  /** `query_table`'s parameters (it too requests 'historicdata.json'). */
  function TableParams(start: string, end: string, probeId: Option<string>): Params {
    [("sdate", Some(start)), ("edate", Some(end)), ("output", Some("json")), ("id", probeId),
     ("username", Some("slogenerator")), ("content", Some("channels")), ("columns", Some("name,lastvalue_"))]
  }

  /** The parameters `query_historicdata` sends that are not None, in order. */
  function HistoricDataPresent(start: string, end: string, probeId: Option<string>): seq<(string, string)> {
    [("sdate", start), ("edate", end), ("output", "json")]
      + (if probeId.Some? then [("id", probeId.value)] else [])
      + [("username", "slogenerator"), ("avg", "0"), ("usecaption", "1")]
  }

  lemma HistoricDataKeys(start: string, end: string, probeId: Option<string>)
    ensures "passhash" !in Keys(HistoricDataParams(start, end, probeId))
  {
    var p := HistoricDataParams(start, end, probeId);
    assert Keys(p[1..][1..][1..][1..][1..][1..][1..]) == [];
    assert Keys(p[1..][1..][1..][1..][1..][1..]) == ["usecaption"];
    assert Keys(p[1..][1..][1..][1..][1..]) == ["avg", "usecaption"];
    assert Keys(p[1..][1..][1..][1..]) == ["username", "avg", "usecaption"];
    assert Keys(p[1..][1..][1..]) == ["id", "username", "avg", "usecaption"];
    assert Keys(p[1..][1..]) == ["output", "id", "username", "avg", "usecaption"];
    assert Keys(p[1..]) == ["edate", "output", "id", "username", "avg", "usecaption"];
    assert Keys(p) == ["sdate", "edate", "output", "id", "username", "avg", "usecaption"];
    assert "passhash"[0] != "username"[0];
  }

  lemma HistoricDataPresentPairs(start: string, end: string, probeId: Option<string>)
    ensures Present(HistoricDataParams(start, end, probeId)) == HistoricDataPresent(start, end, probeId)
  {
    var p := HistoricDataParams(start, end, probeId);
    var fixed := [("username", "slogenerator"), ("avg", "0"), ("usecaption", "1")];
    assert Present(p[1..][1..][1..][1..][1..][1..][1..]) == [];
    assert Present(p[1..][1..][1..][1..][1..][1..]) == fixed[2..];
    assert Present(p[1..][1..][1..][1..][1..]) == fixed[1..];
    assert Present(p[1..][1..][1..][1..]) == fixed;
    var id := if probeId.Some? then [("id", probeId.value)] else [];
    assert Present(p[1..][1..][1..]) == id + fixed;
    assert Present(p[1..][1..]) == [("output", "json")] + (id + fixed);
    assert Present(p[1..]) == [("edate", end)] + ([("output", "json")] + (id + fixed));
    assert Present(p) == [("sdate", start)] + ([("edate", end)] + ([("output", "json")] + (id + fixed)));
  }

  /** The query string of a historic-data request reads back as its dates, 'json', the
      probe id when there is one, the fixed user and options, and the token last. */
  lemma HistoricDataQuery(start: string, end: string, probeId: Option<string>, token: string)
    requires '&' !in start && '&' !in end && '&' !in token
    requires probeId.Some? ==> '&' !in probeId.value
    ensures Decode(Render(Set(HistoricDataParams(start, end, probeId), "passhash", Some(token))))
      == HistoricDataPresent(start, end, probeId) + [("passhash", token)]
  {
    HistoricDataKeys(start, end, probeId);
    HistoricDataPresentPairs(start, end, probeId);
    var all := HistoricDataPresent(start, end, probeId) + [("passhash", token)];
    assert Plain(all) by {
      forall k | 0 <= k < |all|
        ensures '&' !in all[k].0 && '=' !in all[k].0 && '&' !in all[k].1
      {
      }
    }
    PasshashQuery(HistoricDataParams(start, end, probeId), token);
  }
}
