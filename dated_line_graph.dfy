/**
 * The dated line graph: the labels and values inside the selected date
 * range, the week span that picks the time axis unit, and the trend line's
 * length.
 */
module DatedLineGraph {
  import opened Wrappers
  import opened TrackerTypes
  import opened TrackerUtils
  import opened Js

  /** `arr.slice(start, end)`, with `None` for an omitted (undefined) index. */
  function JsSlice<T>(arr: seq<T>, start: Option<int>, end: Option<int>): (r: seq<T>)
    ensures |r| <= |arr|
    ensures start.None? && end.None? ==> r == arr
    ensures end.Some? && end.value <= -|arr| ==> r == []
  {
    var s := ClampIndex(start.GetOr(0), |arr|);
    var e := ClampIndex(end.GetOr(|arr|), |arr|);
    if s < e then arr[s..e] else []
  }

  /** `getSubslice`: nothing when both bounds are undefined, else the slice. */
  function GetSubslice<T>(arr: seq<T>, lower: Option<int>, upper: Option<int>): (r: seq<T>)
    ensures |r| <= |arr|
    ensures lower.Some? && upper.None? && 0 <= lower.value <= |arr| ==> r == arr[lower.value..]
  {
    if lower.None? && upper.None? then [] else JsSlice(arr, lower, upper)
  }

  /**
   * A window is a contiguous run of the array, and cutting two arrays of
   * the same length with the same bounds gives runs that start at the same
   * place and have the same length, so labels and values stay paired.
   */
  lemma {:induction false} SubslicesPair<S, T>(a: seq<S>, b: seq<T>, lower: Option<int>, upper: Option<int>)
    returns (s: nat)
    requires |a| == |b|
    ensures |GetSubslice(a, lower, upper)| == |GetSubslice(b, lower, upper)|
    ensures s + |GetSubslice(a, lower, upper)| <= |a|
    ensures GetSubslice(a, lower, upper) == a[s..s + |GetSubslice(a, lower, upper)|]
    ensures GetSubslice(b, lower, upper) == b[s..s + |GetSubslice(b, lower, upper)|]
  {
    if lower.None? && upper.None? {
      s := 0;
    } else {
      var st := ClampIndex(lower.GetOr(0), |a|);
      var e := ClampIndex(upper.GetOr(|a|), |a|);
      s := if st < e then st else 0;
    }
  }

  /** The two bounds of the window as the component computes them. */
  method WindowAsWritten(labels: seq<DateTime>, values: seq<real>, minDate: DateTime, maxDate: DateTime)
    returns (lower: Option<nat>, upper: Option<nat>, windowLabels: seq<DateTime>, windowValues: seq<real>)
    ensures IsLowerBoundIndex(labels, minDate, lower) && IsUpperBoundIndex(labels, maxDate, upper)
    ensures windowLabels == GetSubslice(labels, lower, upper)
    ensures windowValues == GetSubslice(values, lower, upper)
  {
    lower := FindLowerBoundIndex(labels, minDate);
    upper := FindUpperBoundIndex(labels, maxDate);
    windowLabels := GetSubslice(labels, lower, upper);
    windowValues := GetSubslice(values, lower, upper);
  }

  /**
   * A range that ends before the first label: the upper search answers
   * undefined, which the slice reads as "to the end", so the window is the
   * whole series although no label lies in the range.
   */
  lemma {:induction false} RangeBeforeSeriesShowsAll(labels: seq<DateTime>, minDate: DateTime, maxDate: DateTime,
                                                      lower: Option<nat>, upper: Option<nat>)
    requires |labels| > 0 && StrictlyAscending(labels)
    requires maxDate.millis < labels[0].millis && minDate.millis <= maxDate.millis
    requires IsLowerBoundIndex(labels, minDate, lower) && IsUpperBoundIndex(labels, maxDate, upper)
    ensures GetSubslice(labels, lower, upper) == labels
    ensures forall x :: x in labels ==> maxDate.millis < x.millis
  {
    assert lower == Some(0);
  }

  /** The upper bound with a range ending before the first label read as an empty window. */
  function CorrectedUpper(labels: seq<DateTime>, maxDate: DateTime, upper: Option<nat>): Option<nat> {
    if |labels| > 0 && maxDate.millis < labels[0].millis then Some(0) else upper
  }

  /** The window of labels and values between two dates, with the corrected upper bound. */
  method Window(labels: seq<DateTime>, values: seq<real>, minDate: DateTime, maxDate: DateTime)
    returns (windowLabels: seq<DateTime>, windowValues: seq<real>)
    ensures StrictlyAscending(labels) && minDate.millis <= maxDate.millis ==>
      forall x :: x in windowLabels <==> x in labels && minDate.millis <= x.millis <= maxDate.millis
    ensures |labels| == |values| ==> |windowLabels| == |windowValues|
  {
    var lower, upper, _, _ := WindowAsWritten(labels, values, minDate, maxDate);
    var corrected := CorrectedUpper(labels, maxDate, upper);
    windowLabels := GetSubslice(labels, lower, corrected);
    windowValues := GetSubslice(values, lower, corrected);
    if StrictlyAscending(labels) && minDate.millis <= maxDate.millis {
      WindowIsRange(labels, minDate, maxDate, lower, upper);
    }
    if |labels| == |values| {
      var _ := SubslicesPair(labels, values, lower, corrected);
    }
  }

  /** With the corrected upper bound, the window holds exactly the labels inside the range. */
  lemma {:induction false} WindowIsRange(labels: seq<DateTime>, minDate: DateTime, maxDate: DateTime,
                                         lower: Option<nat>, upper: Option<nat>)
    requires StrictlyAscending(labels) && minDate.millis <= maxDate.millis
    requires IsLowerBoundIndex(labels, minDate, lower) && IsUpperBoundIndex(labels, maxDate, upper)
    ensures var w := GetSubslice(labels, lower, CorrectedUpper(labels, maxDate, upper));
      forall x :: x in w <==> x in labels && minDate.millis <= x.millis <= maxDate.millis
  {
    var w := GetSubslice(labels, lower, CorrectedUpper(labels, maxDate, upper));
    if |labels| > 0 && maxDate.millis < labels[0].millis {
      assert w == [];
    } else if |labels| > 0 {
      UpperBoundSplits(labels, maxDate, upper);
      var e := upper.GetOr(|labels|);
      match lower {
        case None =>
          assert w == [];
        case Some(i) =>
          LowerBoundSplits(labels, minDate, i);
          assert w == if i < e then labels[i..e] else [];
          RunIsRange(labels, i, e, minDate, maxDate);
      }
    }
  }

  /** The run from the first label not before the range to the last one not after it is the range. */
  lemma RunIsRange(labels: seq<DateTime>, i: nat, e: nat, minDate: DateTime, maxDate: DateTime)
    requires i < |labels| && e <= |labels|
    requires forall j :: 0 <= j < |labels| ==> (minDate.millis <= labels[j].millis <==> i <= j)
    requires forall j :: 0 <= j < |labels| ==> (labels[j].millis <= maxDate.millis <==> j < e)
    ensures var w := if i < e then labels[i..e] else [];
      forall x :: x in w <==> x in labels && minDate.millis <= x.millis <= maxDate.millis
  {
    var w := if i < e then labels[i..e] else [];
    forall x | x in labels
      ensures x in w <==> minDate.millis <= x.millis <= maxDate.millis
    {
      var j :| 0 <= j < |labels| && labels[j] == x;
      if x in w {
        var k :| 0 <= k < |w| && w[k] == x;
        assert labels[i + k] == x;
      }
      if minDate.millis <= x.millis <= maxDate.millis {
        assert w[j - i] == x;
      }
    }
  }

  /** `computeNumberOfWeeksInRange`: the span from the first to the last label in weeks, if there are two labels. */
  function WeeksInRange(labels: seq<DateTime>): (r: Option<real>)
    ensures r.None? <==> |labels| < 2
  {
    if |labels| < 2 then None
    else Some((labels[|labels| - 1].millis - labels[0].millis) as real / 604800000.0)
  }

  /** The time axis unit: days for a missing or short span, weeks from four weeks on. */
  function AxisUnit(weeks: Option<real>): (unit: string)
    ensures unit == "day" || unit == "week"
    ensures unit == "week" <==> weeks.Some? && weeks.value >= 4.0
  {
    if weeks.None? || weeks.value < 4.0 then "day" else "week"
  }

  /** `computePredictions`: the trend `m * t + b` at every label's time in seconds, or nothing for two labels or fewer. */
  function Predictions(labels: seq<DateTime>, m: real, b: real): (r: seq<real>)
    ensures |labels| <= 2 ==> r == []
    ensures |labels| > 2 ==> |r| == |labels|
  {
    if |labels| <= 2 then []
    else seq(|labels|, i requires 0 <= i < |labels| => m * (labels[i].millis as real / 1000.0) + b)
  }

  /** What the graph area shows. */
  datatype View =
    | NoData(message: string)
    | Chart(labels: seq<DateTime>, data: seq<real>, unit: string, trend: seq<real>)

  /** The graph for a window; the trend coefficients `m` and `b` come from the least-squares fit. */
  function ViewOf(windowLabels: seq<DateTime>, windowValues: seq<real>, m: real, b: real): (v: View)
    ensures v.NoData? <==> windowValues == []
    ensures v.NoData? ==> v.message == "No historical data to show"
    ensures v.Chart? ==> v.labels == windowLabels && v.data == windowValues
  {
    if |windowValues| > 0 then
      Chart(windowLabels, windowValues, AxisUnit(WeeksInRange(windowLabels)), Predictions(windowLabels, m, b))
    else NoData("No historical data to show")
  }

  /** A chart of one point or none is drawn by day and without a trend line. */
  lemma ShortSeriesByDay(windowLabels: seq<DateTime>, windowValues: seq<real>, m: real, b: real)
    requires |windowLabels| <= 1 && windowValues != []
    ensures ViewOf(windowLabels, windowValues, m, b).unit == "day"
    ensures ViewOf(windowLabels, windowValues, m, b).trend == []
  {
  }

  /** Which date range applies: the preset start up to now, or the custom start and end. */
  datatype TimePeriodMode = Fixed | Custom

  function ResolvedRange(mode: TimePeriodMode, minDate: DateTime, customMinDate: DateTime,
                         customMaxDate: DateTime, now: DateTime): (r: (DateTime, DateTime))
    ensures mode == Fixed ==> r == (minDate, now)
    ensures mode == Custom ==> r == (customMinDate, customMaxDate)
  {
    match mode
    case Fixed => (minDate, now)
    case Custom => (customMinDate, customMaxDate)
  }
}
