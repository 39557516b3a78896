/**
 * The back-test report: the equity curve rebuilt by replaying the transaction records against
 * the daily closes, the running-peak maximum drawdown, profit and rate of return.
 */
module EquityReport {
  import opened Common
  import opened Ledger

  /** Floating equity of a snapshot at a close price: cash plus the lots held valued at the close. */
  function EquityAt(r: Record, close: real): real {
    r.cash + r.shares as real * (close * LotShares)
  }

  /**
   * One bar of the replay: once the bar's time has reached the next record's time the replay
   * moves on to that record, by exactly one record per bar. Past the last record the source
   * re-stamps the snapshot with the end of the time scope but keeps its cash and lots, so the
   * snapshot in force does not change.
   */
  function Advance(cur: Record, pending: seq<Record>, t: int): (Record, seq<Record>) {
    if pending != [] && t >= pending[0].time then (pending[0], pending[1..]) else (cur, pending)
  }

  /** The snapshot in force at each bar when the replay starts at `cur` with `pending` ahead. */
  function Snapshots(cur: Record, pending: seq<Record>, bars: seq<Row>): (snaps: seq<Record>)
    ensures |snaps| == |bars|
    decreases |bars|
  {
    if bars == [] then []
    else
      var (cur', pending') := Advance(cur, pending, bars[0].time);
      [cur'] + Snapshots(cur', pending', bars[1..])
  }

  /** The records the replay has not reached after the last bar. */
  function Unreached(cur: Record, pending: seq<Record>, bars: seq<Row>): (rest: seq<Record>)
    ensures |rest| <= |pending| && rest == pending[|pending| - |rest|..]
    decreases |bars|
  {
    if bars == [] then pending
    else
      var (cur', pending') := Advance(cur, pending, bars[0].time);
      Unreached(cur', pending', bars[1..])
  }

  /** The equity curve of a ledger: each bar valued with the snapshot in force at its close. */
  function EquityCurve(records: seq<Record>, bars: seq<Row>): (eqs: seq<real>)
    requires |records| >= 1
    ensures |eqs| == |bars|
  {
    var snaps := Snapshots(records[0], records[1..], bars);
    seq(|bars|, i requires 0 <= i < |bars| => EquityAt(snaps[i], bars[i].bar.close))
  }

  /** The last of `later` whose time is at or before t, or `initial` when there is none. */
  function LatestRecord(initial: Record, later: seq<Record>, t: int): (r: Record)
    ensures r == initial || (exists k :: 0 <= k < |later| && r == later[k] && later[k].time <= t)
    ensures r != initial ==>
      exists k :: (0 <= k < |later| && r == later[k] && later[k].time <= t
                   && forall k' :: k < k' < |later| ==> later[k'].time > t)
    ensures (forall k :: 0 <= k < |later| ==> later[k].time > t) ==> r == initial
  {
    if later == [] then initial
    else if Last(later).time <= t then Last(later)
    else
      var r := LatestRecord(initial, later[..|later| - 1], t);
      assert forall k :: 0 <= k < |later| - 1 ==> later[..|later| - 1][k] == later[k];
      r
  }

  ghost predicate RecordsIncreasing(rs: seq<Record>) {
    forall i, j :: 0 <= i < j < |rs| ==> rs[i].time < rs[j].time
  }

  /** Every record was made at the time of one of the bars. */
  ghost predicate AtBarTimes(rs: seq<Record>, bars: seq<Row>) {
    forall i :: 0 <= i < |rs| ==> exists b :: 0 <= b < |bars| && bars[b].time == rs[i].time
  }

  /** A record reached at or before t: the latest record from it on is the latest overall. */
  lemma {:induction false} LatestSkipsReached(initial: Record, later: seq<Record>, t: int)
    requires |later| > 0 && later[0].time <= t
    ensures LatestRecord(initial, later, t) == LatestRecord(later[0], later[1..], t)
    decreases |later|
  {
    if |later| > 1 && Last(later).time > t {
      LatestSkipsReached(initial, later[..|later| - 1], t);
      assert later[..|later| - 1][1..] == later[1..][..|later| - 2];
      assert later[..|later| - 1][0] == later[0];
    }
  }

  /** Whether the replay, standing before a bar at time t, moves on to the first pending record. */
  predicate Advances(pending: seq<Record>, t: int) {
    pending != [] && t >= pending[0].time
  }

  /** Dropping the first bar keeps the bar times increasing. */
  lemma IncreasingTail(bars: seq<Row>)
    requires StrictlyIncreasing(bars) && bars != []
    ensures StrictlyIncreasing(bars[1..])
  {
    var rest := bars[1..];
    forall i, j | 0 <= i < j < |rest| ensures rest[i].time < rest[j].time {
      assert rest[i] == bars[i + 1] && rest[j] == bars[j + 1];
    }
  }

  lemma FirstBarEarliest(bars: seq<Row>, b: nat)
    requires StrictlyIncreasing(bars) && b < |bars|
    ensures bars[0].time <= bars[b].time
  {
    if b > 0 {
      assert bars[0].time < bars[b].time;
    }
  }

  /**
   * Moving on to a record made at or before t0 does not change the latest record at any time
   * t from t0 on.
   */
  lemma LatestAfterStep(cur: Record, pending: seq<Record>, t0: int, t: int)
    requires t0 <= t
    ensures LatestRecord(cur, pending, t) == LatestRecord(Advance(cur, pending, t0).0, Advance(cur, pending, t0).1, t)
  {
    if Advances(pending, t0) {
      LatestSkipsReached(cur, pending, t);
    }
  }

  /**
   * After one replay step the remaining records are still increasing, still made at the times
   * of the remaining bars, and all lie strictly after the bar just valued; a record that was
   * moved onto was made at exactly that bar's time.
   */
  lemma StepKeepsPending(pending: seq<Record>, bars: seq<Row>)
    requires StrictlyIncreasing(bars) && bars != []
    requires RecordsIncreasing(pending) && AtBarTimes(pending, bars)
    ensures Advances(pending, bars[0].time) ==> pending[0].time == bars[0].time
    ensures var pending' := if Advances(pending, bars[0].time) then pending[1..] else pending;
      && RecordsIncreasing(pending')
      && AtBarTimes(pending', bars[1..])
      && forall i :: 0 <= i < |pending'| ==> pending'[i].time > bars[0].time
  {
    var t0 := bars[0].time;
    var adv := Advances(pending, t0);
    var pending' := if adv then pending[1..] else pending;
    if adv {
      var b :| 0 <= b < |bars| && bars[b].time == pending[0].time;
      FirstBarEarliest(bars, b);
    }
    forall i | 0 <= i < |pending'| ensures pending'[i].time > t0 {
      if adv {
        assert pending'[i] == pending[i + 1];
      } else if i > 0 {
        assert pending[0].time < pending[i].time;
      }
    }
    forall i, j | 0 <= i < j < |pending'| ensures pending'[i].time < pending'[j].time {
      if adv { assert pending'[i] == pending[i + 1] && pending'[j] == pending[j + 1]; }
    }
    forall i | 0 <= i < |pending'| ensures exists b :: 0 <= b < |bars[1..]| && bars[1..][b].time == pending'[i].time {
      var b :| 0 <= b < |bars| && bars[b].time == pending'[i].time by {
        if adv { assert pending'[i] == pending[i + 1]; }
      }
      assert b != 0;
      assert bars[1..][b - 1] == bars[b];
    }
    assert RecordsIncreasing(pending');
    assert AtBarTimes(pending', bars[1..]);
  }

  /**
   * On strictly increasing bar times, with strictly increasing record times each equal to some
   * bar's time, the replay values every bar with the latest record at or before it (the initial
   * record before any later one applies).
   */
  lemma {:induction false} SnapshotsAreLatest(cur: Record, pending: seq<Record>, bars: seq<Row>, k: nat)
    requires StrictlyIncreasing(bars)
    requires RecordsIncreasing(pending)
    requires AtBarTimes(pending, bars)
    requires k < |bars|
    ensures Snapshots(cur, pending, bars)[k] == LatestRecord(cur, pending, bars[k].time)
    decreases |bars|
  {
    var t0 := bars[0].time;
    var (cur', pending') := Advance(cur, pending, t0);
    assert Snapshots(cur, pending, bars) == [cur'] + Snapshots(cur', pending', bars[1..]);
    FirstBarEarliest(bars, k);
    LatestAfterStep(cur, pending, t0, bars[k].time);
    StepKeepsPending(pending, bars);
    if k == 0 {
      LatestNoneReached(cur', pending', t0);
    } else {
      IncreasingTail(bars);
      assert bars[1..][k - 1] == bars[k];
      SnapshotsAreLatest(cur', pending', bars[1..], k - 1);
    }
  }

  /** The equity curve values every bar with the latest record made at or before it. */
  lemma EquityCurveUsesLatest(records: seq<Record>, bars: seq<Row>, k: nat)
    requires |records| >= 1
    requires StrictlyIncreasing(bars)
    requires RecordsIncreasing(records[1..])
    requires AtBarTimes(records[1..], bars)
    requires k < |bars|
    ensures EquityCurve(records, bars)[k] == EquityAt(LatestRecord(records[0], records[1..], bars[k].time), bars[k].bar.close)
  {
    SnapshotsAreLatest(records[0], records[1..], bars, k);
  }

  /** With every record after t, the latest record at t is the initial one. */
  lemma LatestNoneReached(initial: Record, later: seq<Record>, t: int)
    requires forall i :: 0 <= i < |later| ==> later[i].time > t
    ensures LatestRecord(initial, later, t) == initial
  {
  }

  /** The running-peak statistics: peak equity so far, largest drawdown and largest drawdown ratio. */
  datatype Drawdown = Drawdown(peak: real, maxWithdraw: real, maxRatio: real)

  /** The drawdown ratio of a fall from a peak to a trough. */
  function FallRatio(peak: real, trough: real): real
    requires peak != 0.0
  {
    (peak - trough) / peak
  }

  /** One step of the running peak: a new high moves the peak, anything else may set a new maximum. */
  function PeakStep(d: Drawdown, e: real): Drawdown
    requires e > d.peak || d.peak > 0.0
  {
    if e > d.peak then d.(peak := e)
    else
      var w := d.peak - e;
      Drawdown(d.peak,
               if w > d.maxWithdraw then w else d.maxWithdraw,
               if FallRatio(d.peak, e) > d.maxRatio then FallRatio(d.peak, e) else d.maxRatio)
  }

  /** The statistics after the whole curve, starting from a zero peak. */
  function Track(eqs: seq<real>): (d: Drawdown)
    requires |eqs| > 0 ==> eqs[0] > 0.0
    ensures forall i :: 0 <= i < |eqs| ==> eqs[i] <= d.peak
    ensures |eqs| > 0 ==> exists i :: 0 <= i < |eqs| && d.peak == eqs[i]
    ensures |eqs| == 0 ==> d == Drawdown(0.0, 0.0, 0.0)
    ensures d.maxWithdraw >= 0.0 && d.maxRatio >= 0.0
    decreases |eqs|
  {
    if eqs == [] then Drawdown(0.0, 0.0, 0.0)
    else
      var pre := eqs[..|eqs| - 1];
      var d := Track(pre);
      assert forall i :: 0 <= i < |pre| ==> pre[i] == eqs[i];
      PeakStep(d, Last(eqs))
  }

  lemma MulMonotone(a: real, b: real, c: real)
    requires a <= b && c >= 0.0
    ensures a * c <= b * c && c * a <= c * b
  {
  }

  lemma MulStrict(a: real, b: real, c: real)
    requires a < b && c > 0.0
    ensures a * c < b * c
  {
  }

  /** A quotient by a positive number has the sign of the dividend. */
  lemma QuotientSign(x: real, p: real)
    requires p > 0.0
    ensures x < 0.0 ==> x / p < 0.0
    ensures x >= 0.0 ==> x / p >= 0.0
  {
    var q := x / p;
    assert q * p == x;
    if q < 0.0 { MulStrict(q, 0.0, p); }
    if q > 0.0 { MulStrict(0.0, q, p); }
  }

  lemma MulCancel(a: real, b: real, c: real)
    requires a * c <= b * c && c > 0.0
    ensures a <= b
  {
    if a > b {
      MulStrict(b, a, c);
    }
  }

  /** For a fixed non-negative trough, the drawdown ratio grows with the peak. */
  lemma RatioGrowsWithPeak(p: real, peak: real, e: real)
    requires 0.0 < p <= peak && e >= 0.0
    ensures FallRatio(p, e) <= FallRatio(peak, e)
  {
    // With x = 1 - e/p and y = 1 - e/peak it is enough that e/peak <= e/p.
    var u := 1.0 - (p - e) / p;
    var v := 1.0 - (peak - e) / peak;
    assert u * p == e;
    assert v * peak == e;
    if v < 0.0 {
      MulStrict(v, 0.0, peak);
    } else {
      MulMonotone(p, peak, v);
      assert v * p <= v * peak;
      MulCancel(v, u, p);
    }
  }

  /** One step of the running peak bounds every fall from a point no higher than the old peak. */
  lemma PeakStepBounds(d: Drawdown, e: real, p: real)
    requires 0.0 < p <= d.peak && e >= 0.0
    requires d.maxWithdraw >= 0.0 && d.maxRatio >= 0.0
    ensures PeakStep(d, e).maxWithdraw >= d.maxWithdraw && PeakStep(d, e).maxRatio >= d.maxRatio
    ensures p - e <= PeakStep(d, e).maxWithdraw && FallRatio(p, e) <= PeakStep(d, e).maxRatio
  {
    if e <= d.peak {
      RatioGrowsWithPeak(p, d.peak, e);
    } else {
      QuotientSign(p - e, p);
    }
  }

  /** The statistics of a curve are those of the curve without its last point, stepped once. */
  lemma TrackUnfold(eqs: seq<real>)
    requires |eqs| > 1 && eqs[0] > 0.0
    ensures eqs[..|eqs| - 1][0] == eqs[0]
    ensures Track(eqs) == PeakStep(Track(eqs[..|eqs| - 1]), eqs[|eqs| - 1])
  {
  }

  /** A step leaves the largest drawdown as it was or sets it to the fall from the peak. */
  lemma PeakStepCases(d: Drawdown, e: real)
    requires e > d.peak || d.peak > 0.0
    ensures PeakStep(d, e).peak == d.peak || PeakStep(d, e).peak == e
    ensures PeakStep(d, e).maxWithdraw == d.maxWithdraw || PeakStep(d, e).maxWithdraw == d.peak - e
    ensures PeakStep(d, e).maxRatio == d.maxRatio || PeakStep(d, e).maxRatio == FallRatio(d.peak, e)
  {
  }

  /** Any fall from an earlier-or-equal point is within the largest drawdown and its ratio. */
  lemma {:induction false} FallBounded(eqs: seq<real>, i: nat, j: nat)
    requires |eqs| > 0 && eqs[0] > 0.0
    requires forall k :: 0 <= k < |eqs| ==> eqs[k] >= 0.0
    requires i <= j < |eqs| && eqs[i] > 0.0
    ensures eqs[i] - eqs[j] <= Track(eqs).maxWithdraw
    ensures FallRatio(eqs[i], eqs[j]) <= Track(eqs).maxRatio
    decreases |eqs|
  {
    var n := |eqs|;
    if i == j {
      assert FallRatio(eqs[i], eqs[j]) == 0.0;
    } else {
      var pre := eqs[..n - 1];
      TrackUnfold(eqs);
      var d := Track(pre);
      assert pre[i] == eqs[i];
      if j < n - 1 {
        assert pre[j] == eqs[j];
        FallBounded(pre, i, j);
        PeakStepBounds(d, eqs[n - 1], eqs[i]);
      } else {
        assert eqs[i] <= d.peak;
        PeakStepBounds(d, eqs[n - 1], eqs[i]);
      }
    }
  }

  /** A non-zero largest drawdown is the fall between two points of the curve. */
  lemma {:induction false} WithdrawAttained(eqs: seq<real>)
    requires |eqs| > 0 && eqs[0] > 0.0
    ensures Track(eqs).maxWithdraw == 0.0
      || exists i, j :: 0 <= i <= j < |eqs| && Track(eqs).maxWithdraw == eqs[i] - eqs[j]
    decreases |eqs|
  {
    var n := |eqs|;
    if n > 1 {
      var pre := eqs[..n - 1];
      TrackUnfold(eqs);
      WithdrawAttained(pre);
      var d := Track(pre);
      PeakStepCases(d, eqs[n - 1]);
      if Track(eqs).maxWithdraw != d.maxWithdraw {
        var p :| 0 <= p < n - 1 && d.peak == pre[p];
        assert Track(eqs).maxWithdraw == eqs[p] - eqs[n - 1];
      } else if d.maxWithdraw != 0.0 {
        var i, j :| 0 <= i <= j < n - 1 && d.maxWithdraw == pre[i] - pre[j];
        assert pre[i] == eqs[i] && pre[j] == eqs[j];
      }
    }
  }

  /** A non-zero largest drawdown ratio is the relative fall between two points of the curve. */
  lemma {:induction false} RatioAttained(eqs: seq<real>)
    requires |eqs| > 0 && eqs[0] > 0.0
    ensures Track(eqs).maxRatio == 0.0
      || exists i, j :: 0 <= i <= j < |eqs| && eqs[i] > 0.0 && Track(eqs).maxRatio == FallRatio(eqs[i], eqs[j])
    decreases |eqs|
  {
    var n := |eqs|;
    if n > 1 {
      var pre := eqs[..n - 1];
      TrackUnfold(eqs);
      RatioAttained(pre);
      var d := Track(pre);
      PeakStepCases(d, eqs[n - 1]);
      if Track(eqs).maxRatio != d.maxRatio {
        var p :| 0 <= p < n - 1 && d.peak == pre[p];
        assert pre[0] <= d.peak;
        assert eqs[p] > 0.0 && Track(eqs).maxRatio == FallRatio(eqs[p], eqs[n - 1]);
      } else if d.maxRatio != 0.0 {
        var i, j :| 0 <= i <= j < n - 1 && pre[i] > 0.0 && d.maxRatio == FallRatio(pre[i], pre[j]);
        assert pre[i] == eqs[i] && pre[j] == eqs[j];
      }
    }
  }

  /**
   * The largest drawdown is the largest fall from any point to any later-or-equal one, and (with
   * no negative equity) the largest drawdown ratio is the largest (P - T) / P over all such
   * pairs: for a fixed trough the ratio grows with the peak, so the running peak is enough.
   */
  lemma DrawdownIsLargestFall(eqs: seq<real>)
    requires |eqs| > 0 && eqs[0] > 0.0
    requires forall k :: 0 <= k < |eqs| ==> eqs[k] >= 0.0
    ensures forall i, j :: 0 <= i <= j < |eqs| && eqs[i] > 0.0 ==>
      eqs[i] - eqs[j] <= Track(eqs).maxWithdraw && FallRatio(eqs[i], eqs[j]) <= Track(eqs).maxRatio
    ensures Track(eqs).maxWithdraw == 0.0
      || exists i, j :: 0 <= i <= j < |eqs| && Track(eqs).maxWithdraw == eqs[i] - eqs[j]
    ensures Track(eqs).maxRatio == 0.0
      || exists i, j :: 0 <= i <= j < |eqs| && eqs[i] > 0.0 && Track(eqs).maxRatio == FallRatio(eqs[i], eqs[j])
  {
    forall i, j | 0 <= i <= j < |eqs| && eqs[i] > 0.0
      ensures eqs[i] - eqs[j] <= Track(eqs).maxWithdraw && FallRatio(eqs[i], eqs[j]) <= Track(eqs).maxRatio
    {
      FallBounded(eqs, i, j);
    }
    WithdrawAttained(eqs);
    RatioAttained(eqs);
  }

  /** One bar of the replay, unfolded: the snapshot after advancing, then the rest. */
  lemma ReplayStep(cur: Record, pending: seq<Record>, bars: seq<Row>)
    requires bars != []
    ensures var (cur', pending') := Advance(cur, pending, bars[0].time);
      && Snapshots(cur, pending, bars) == [cur'] + Snapshots(cur', pending', bars[1..])
      && Unreached(cur, pending, bars) == Unreached(cur', pending', bars[1..])
  {
  }

  /** Appending a point to a curve with a positive start steps its statistics once. */
  lemma TrackSnoc(eqs: seq<real>, e: real)
    requires |eqs| > 0 && eqs[0] > 0.0
    ensures Track(eqs).peak > 0.0
    ensures Track(eqs + [e]) == PeakStep(Track(eqs), e)
  {
    assert (eqs + [e])[..|eqs|] == eqs;
  }

  /**
   * Why the report produces no statistics. NoDailyData, NoInitialRecord and NoBars are the
   * exceptions the source raises; ZeroPeak and ZeroCapital stand for divisions by zero whose
   * floating-point result (infinite or undefined) the model does not represent.
   */
  datatype ReportError = NoDailyData | NoInitialRecord | NoBars | ZeroPeak | ZeroCapital

  /** The report's outcome: nothing to report without a transaction, otherwise the statistics. */
  datatype Summary =
    | NoTransactions
    | Stats(equity: seq<real>, profit: real, rateOfReturn: real, maxWithdraw: real, maxWithdrawRatio: real)

  /**
   * The report of a ledger over its daily series: the equity curve rebuilt from the records,
   * profit as last minus first equity, rate of return as profit over the initial capital, and
   * the running-peak largest drawdown and drawdown ratio.
   */
  function ReportOf(records: seq<Record>, capital: real, daily: Option<seq<Row>>): (r: Result<Summary, ReportError>)
    ensures daily.None? ==> r == Err(NoDailyData)
    ensures daily.Some? && |records| == 1 ==> r == Ok(NoTransactions)
    ensures daily.Some? && |records| == 0 ==> r == Err(NoInitialRecord)
    ensures daily.Some? && |records| >= 2 ==>
      var eqs := EquityCurve(records, daily.value);
      && (r.Ok? <==> |eqs| > 0 && eqs[0] > 0.0 && capital != 0.0)
      && (r.Ok? ==> r.value.Stats?)
      && (eqs == [] ==> r == Err(NoBars))
      && (|eqs| > 0 && eqs[0] <= 0.0 ==> r == Err(ZeroPeak))
      && (|eqs| > 0 && eqs[0] > 0.0 && capital == 0.0 ==> r == Err(ZeroCapital))
    ensures r.Ok? && r.value.Stats? ==>
      var eqs := r.value.equity;
      && |records| >= 2 && eqs == EquityCurve(records, daily.value)
      && |eqs| > 0 && eqs[0] > 0.0 && capital != 0.0
      && r.value.profit == Last(eqs) - eqs[0]
      && r.value.rateOfReturn == r.value.profit / capital
      && r.value.maxWithdraw == Track(eqs).maxWithdraw && r.value.maxWithdrawRatio == Track(eqs).maxRatio
    ensures r.Err? ==> daily.None? || |records| != 1
  {
    if daily.None? then Err(NoDailyData)
    else if |records| == 1 then Ok(NoTransactions)
    else if records == [] then Err(NoInitialRecord)
    else
      var bars := daily.value;
      var eqs := EquityCurve(records, bars);
      if eqs == [] then Err(NoBars)
      else if eqs[0] <= 0.0 then Err(ZeroPeak)
      else if capital == 0.0 then Err(ZeroCapital)
      else
        var d := Track(eqs);
        var profit := Last(eqs) - eqs[0];
        Ok(Stats(eqs, profit, profit / capital, d.maxWithdraw, d.maxRatio))
  }

  /**
   * The report's drawdown figures, on a curve with no negative equity, are the largest fall and
   * the largest relative fall from any bar to any later-or-equal bar.
   */
  lemma ReportDrawdownIsLargestFall(records: seq<Record>, capital: real, daily: Option<seq<Row>>)
    requires ReportOf(records, capital, daily).Ok? && ReportOf(records, capital, daily).value.Stats?
    requires var eqs := ReportOf(records, capital, daily).value.equity;
      forall k :: 0 <= k < |eqs| ==> eqs[k] >= 0.0
    ensures var s := ReportOf(records, capital, daily).value;
      && (forall i, j :: 0 <= i <= j < |s.equity| && s.equity[i] > 0.0 ==>
            s.equity[i] - s.equity[j] <= s.maxWithdraw && FallRatio(s.equity[i], s.equity[j]) <= s.maxWithdrawRatio)
      && (s.maxWithdraw == 0.0 || exists i, j :: 0 <= i <= j < |s.equity| && s.maxWithdraw == s.equity[i] - s.equity[j])
      && (s.maxWithdrawRatio == 0.0 ||
          exists i, j :: 0 <= i <= j < |s.equity| && s.equity[i] > 0.0 && s.maxWithdrawRatio == FallRatio(s.equity[i], s.equity[j]))
  {
    DrawdownIsLargestFall(ReportOf(records, capital, daily).value.equity);
  }

  /**
   * Under increasing bar times and increasing record times made at bar times, the report values
   * each bar with the latest record at or before it.
   */
  lemma ReportValuesLatestRecord(records: seq<Record>, capital: real, daily: Option<seq<Row>>, k: nat)
    requires ReportOf(records, capital, daily).Ok? && ReportOf(records, capital, daily).value.Stats?
    requires StrictlyIncreasing(daily.value)
    requires RecordsIncreasing(records[1..]) && AtBarTimes(records[1..], daily.value)
    requires k < |daily.value|
    ensures ReportOf(records, capital, daily).value.equity[k] ==
      EquityAt(LatestRecord(records[0], records[1..], daily.value[k].time), daily.value[k].bar.close)
  {
    EquityCurveUsesLatest(records, daily.value, k);
  }

  /** The records a report leaves behind: it pops the records it replays, one per bar reached. */
  function RecordsLeft(records: seq<Record>, daily: Option<seq<Row>>): seq<Record> {
    if daily.None? || |records| < 2 then records
    else
      var rest := Unreached(records[0], records[1..], daily.value);
      if rest == [] then [] else rest[1..]
  }
}
