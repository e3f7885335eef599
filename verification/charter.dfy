/** Chart bucketing parameters (`Charter.getStartAndStep`) and the bucket a
    snapshot falls into under `GROUP BY TRUNCATE((ts - offset) / step, 0)`. */
module Charter {
  import opened Common

  const MsPerDay: int := 24 * 60 * 60 * 1000
  const Hour: nat := 60 * 60
  const Day: nat := 24 * 60 * 60
  const Week: nat := 7 * 24 * 60 * 60

  datatype ChartType = WeekChart | MonthChart | YearChart | AllTimeChart

  /** The string the REST layer passes for each chart type. */
  function ChartTypeName(t: ChartType): string
  {
    match t
    case WeekChart => "week"
    case MonthChart => "month"
    case YearChart => "year"
    case AllTimeChart => "all-time"
  }

  /** The `switch (chartType)`: the four known names, anything else throws. */
  function ParseChartType(s: string): (r: Result<ChartType>)
    ensures r.Ok? <==> s in {"week", "month", "year", "all-time"}
    ensures r.Ok? ==> ChartTypeName(r.value) == s
    ensures r.Err? ==> r.error == UnknownChartType(s)
  {
    if s == "week" then Ok(WeekChart)
    else if s == "month" then Ok(MonthChart)
    else if s == "year" then Ok(YearChart)
    else if s == "all-time" then Ok(AllTimeChart)
    else Err(UnknownChartType(s))
  }

  lemma ParseNameRoundTrip(t: ChartType)
    ensures ParseChartType(ChartTypeName(t)) == Ok(t)
  {
  }

  /** Start time (ms), bucket width (s) and bucket offset (s) of a chart. */
  datatype ChartWindow = ChartWindow(start: int, step: nat, offset: int)

  /** `getStartAndStep`. `maxTimestamp`/`maxUnix` are the newest FundValue
      snapshot (None when the table is empty), `now` the clock reading used
      in that case, `timeAdded` the fund's creation time. A chart spans whole
      days back from the newest snapshot: 7 (hourly buckets), 30 (hourly) or
      365 (daily); the all-time chart starts when the fund was added and uses
      weekly buckets. The offset aligns bucket boundaries on the newest
      snapshot. */
  function GetStartAndStep(chartType: string, maxTimestamp: Option<int>, maxUnix: Option<nat>, now: int, timeAdded: int)
    : (r: Result<ChartWindow>)
    ensures r.Ok? <==> chartType in {"week", "month", "year", "all-time"}
    ensures r.Err? ==> r.error == UnknownChartType(chartType)
    ensures var latest := if maxTimestamp.Some? then maxTimestamp.value else now;
      && (chartType == "week" ==> r.value.start == latest - 7 * MsPerDay && r.value.step == Hour)
      && (chartType == "month" ==> r.value.start == latest - 30 * MsPerDay && r.value.step == Hour)
      && (chartType == "year" ==> r.value.start == latest - 365 * MsPerDay && r.value.step == Day)
      && (chartType == "all-time" ==> r.value.start == timeAdded && r.value.step == Week)
    ensures r.Ok? ==> 0 <= r.value.offset < r.value.step
    ensures r.Ok? && maxUnix.None? ==> r.value.offset == 0
    ensures r.Ok? && maxUnix.Some? ==> (maxUnix.value - r.value.offset) % r.value.step == 0
  {
    var latest := if maxTimestamp.Some? then maxTimestamp.value else now;
    match ParseChartType(chartType)
    case Err(e) => Err(e)
    case Ok(t) =>
      var start := match t
        case WeekChart => latest - 7 * MsPerDay
        case MonthChart => latest - 30 * MsPerDay
        case YearChart => latest - 365 * MsPerDay
        case AllTimeChart => timeAdded;
      var step := StepOf(t);
      Ok(ChartWindow(start, step, BucketOffset(maxUnix, step)))
  }

  /** Bucket width in seconds of each chart type. */
  function StepOf(t: ChartType): (step: nat)
    ensures step > 0
  {
    match t
    case WeekChart => Hour
    case MonthChart => Hour
    case YearChart => Day
    case AllTimeChart => Week
  }

  /** `maxUnix % step`, or 0 without a snapshot: the shift that puts the
      newest snapshot on a bucket boundary. */
  function BucketOffset(maxUnix: Option<nat>, step: nat): (offset: int)
    requires step > 0
    ensures 0 <= offset < step
    ensures maxUnix.None? ==> offset == 0
    ensures maxUnix.Some? ==> (maxUnix.value - offset) % step == 0
  {
    if maxUnix.None? then 0
    else
      var m := maxUnix.value;
      MinusRemainder(m, step);
      m % step
  }

  /** Taking away the remainder leaves a multiple. */
  lemma MinusRemainder(m: int, d: int)
    requires d > 0
    ensures (m - m % d) % d == 0
  {
    var q := m / d;
    assert m - m % d == q * d;
    var k := (q * d) / d;
    var r := (q * d) % d;
    assert q * d == k * d + r;
    assert (q - k) * d == r;
    MulMono(1, q - k, d);
    MulMono(q - k, -1, d);
  }

  /** MySQL `TRUNCATE(x / d, 0)`: division rounded toward zero. */
  function TruncDiv(x: int, d: nat): (q: int)
    requires d > 0
    ensures x >= 0 ==> q * d <= x < q * d + d
    ensures x < 0 ==> q * d - d < x <= q * d
  {
    if x >= 0 then x / d else -((-x) / d)
  }

  /** The group a snapshot taken at Unix time `ts` lands in: `ts - offset`
      lies in the step-wide interval of its group, the groups at and above
      zero opening at a multiple of the step and those below closing at one
      (truncation puts `(-step, step)` into group 0). */
  function Bucket(ts: int, w: ChartWindow): (b: int)
    requires w.step > 0
    ensures ts - w.offset >= 0 ==> b >= 0 && b * w.step <= ts - w.offset < b * w.step + w.step
    ensures ts - w.offset < 0 ==> b <= 0 && b * w.step - w.step < ts - w.offset <= b * w.step
  {
    TruncDiv(ts - w.offset, w.step)
  }

  /** Two multiples of d less than d apart are equal. */
  lemma MultiplesApart(a: int, b: int, d: int)
    requires d > 0 && a * d < b * d + d && b * d < a * d + d
    ensures a == b
  {
    MulMono(a + 1, b, d);
    MulMono(b + 1, a, d);
    assert (a + 1) * d == a * d + d && (b + 1) * d == b * d + d;
  }

  lemma MulMono(a: int, b: int, d: int)
    requires d > 0
    ensures a <= b ==> a * d <= b * d
  {
  }

  /** With the offset `getStartAndStep` computes, the newest snapshot opens its
      bucket: a later snapshot (at or after the offset) shares that bucket
      exactly when it is less than one step after the newest one. */
  lemma NewestSnapshotOpensBucket(w: ChartWindow, maxUnix: nat, ts: int)
    requires w.step > 0 && 0 <= w.offset < w.step && (maxUnix - w.offset) % w.step == 0
    requires ts >= w.offset
    ensures Bucket(maxUnix, w) * w.step + w.offset == maxUnix
    ensures Bucket(ts, w) == Bucket(maxUnix, w) <==> maxUnix <= ts < maxUnix + w.step
  {
    var d := w.step;
    var m := maxUnix - w.offset;
    var k := Bucket(maxUnix, w);
    assert k * d == m by {
      assert m == (m / d) * d + m % d;
    }
    SameBucket(Bucket(ts, w), k, d, ts - w.offset);
  }

  /** The quotient `b` of x by d is k exactly when x lies in `[k*d, k*d + d)`. */
  lemma SameBucket(b: int, k: int, d: int, x: int)
    requires d > 0 && b * d <= x < b * d + d
    ensures b == k <==> k * d <= x < k * d + d
  {
    if k * d <= x < k * d + d {
      MultiplesApart(b, k, d);
    }
  }
}
