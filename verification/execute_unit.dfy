/**
 * The single-stock execution unit: it loads the candlestick series of one stock, holds the
 * account (capital, cash, board lots, commission and stamp-tax totals, transaction records),
 * executes the buys and sells a strategy issues, and writes the back-test report.
 */
module Engine {
  import opened Common
  import opened DataStruct
  import opened Ledger
  import opened EquityReport

  /** The assertion failures of add_strategy, with the value that failed. */
  datatype SetupError =
    | CapitalNotPositive(capital: real)
    | StampTaxRateOutOfRange(rate: real)
    | CommissionRateOutOfRange(rate: real)

  /**
   * The lot count a buy settles on: floor(bid / lot), then one lot fewer at a time until the
   * cash covers it.
   */
  method BackOff(bid: real, cash: real, lot: real) returns (q: int, need: real)
    requires lot > 0.0 && bid >= lot && cash >= lot
    ensures q == MaxLots(bid, cash, lot)
    ensures need == q as real * lot && need <= cash
  {
    q := (bid / lot).Floor;
    need := q as real * lot;
    ghost var target := MaxLots(bid, cash, lot);
    while cash < need
      invariant need == q as real * lot
      invariant target <= q <= (bid / lot).Floor
      decreases q
    {
      // q itself is not affordable, so the largest affordable count lies below it
      assert !Affordable(q, lot, cash);
      q := q - 1;
      need := q as real * lot;
    }
    assert Affordable(q, lot, cash);
  }

  class ExecuteUnit {
    /** The stock the unit trades, read from the first series' file name. */
    const stock: StockID
    /** Lead-in rows asked for ahead of the start time. */
    const nAhead: nat

    /** Initial capital; a constant once the strategy is attached. */
    var capital: real
    var cash: real
    /** Board lots held. */
    var shares: int
    var totalCommission: real
    var totalStampTax: real
    /** The rates exist only once add_strategy has set them. */
    var stampTaxRate: Option<real>
    var commissionRate: Option<real>
    /** One record per transaction, after the initial one. */
    var records: seq<Record>
    /** First and last in-window timestamps of the series loaded last. */
    var timescope: Option<(int, int)>
    /** Lead-in rows actually kept by the latest load: fewer than nAhead when the file lacks them. */
    var actualAhead: Option<nat>
    /** Loaded series, by period. */
    var cst: map<Period, seq<Row>>

    constructor Empty(stock: StockID, nAhead: nat)
      ensures this.stock == stock && this.nAhead == nAhead
      ensures capital == 0.0 && cash == 0.0 && shares == 0
      ensures totalCommission == 0.0 && totalStampTax == 0.0
      ensures stampTaxRate == None && commissionRate == None
      ensures records == [] && timescope == None && actualAhead == None && cst == map[]
    {
      this.stock := stock;
      this.nAhead := nAhead;
      capital := 0.0;
      cash := 0.0;
      shares := 0;
      totalCommission := 0.0;
      totalStampTax := 0.0;
      stampTaxRate := None;
      commissionRate := None;
      records := [];
      timescope := None;
      actualAhead := None;
      cst := map[];
    }

    /** Both rates have been set, so the unit can trade. */
    predicate Rated()
      reads this
    {
      stampTaxRate.Some? && commissionRate.Some?
    }

    /** The account the unit holds, as a value. */
    function State(): Account
      reads this
      requires Rated()
    {
      Account(capital, cash, shares, totalCommission, totalStampTax,
              stampTaxRate.value, commissionRate.value, records)
    }

    ghost predicate Valid()
      reads this
    {
      Rated() && Consistent(State())
    }

    /**
     * Loads the series named `pstock` from `files` (file name to table). A period already loaded
     * is returned as it is. Otherwise the window [dtStart, dtEnd] is kept with up to nAhead
     * lead-in rows, clamped to the rows the file has; the time scope is recorded before the
     * timestamps are checked for uniqueness.
     */
    method LoadCst(pstock: string, files: map<string, seq<Row>>, dtStart: int, dtEnd: int)
      returns (r: Result<Option<seq<Row>>, DataError>)
      modifies this
      ensures capital == old(capital) && cash == old(cash) && shares == old(shares) && records == old(records)
      ensures totalCommission == old(totalCommission) && totalStampTax == old(totalStampTax)
      ensures stampTaxRate == old(stampTaxRate) && commissionRate == old(commissionRate)
      ensures ParseCstFilename(pstock).Err? ==>
        r == Err(ParseCstFilename(pstock).error) && cst == old(cst)
        && timescope == old(timescope) && actualAhead == old(actualAhead)
      ensures ParseCstFilename(pstock).Ok? ==>
        var p := ParseCstFilename(pstock).value.1;
        if p in old(cst) then
          r == Ok(Some(old(cst)[p])) && cst == old(cst) && timescope == old(timescope) && actualAhead == old(actualAhead)
        else if pstock !in files then
          r == Err(FileDoesNotExist(pstock)) && cst == old(cst) && timescope == old(timescope) && actualAhead == old(actualAhead)
        else match SelectClamped(files[pstock], dtStart, dtEnd, nAhead)
          case None =>
            r == Err(NoBarInWindow) && cst == old(cst) && timescope == old(timescope) && actualAhead == old(actualAhead)
          case Some(c) =>
            && timescope == Some(c.timescope)
            && (HasDuplicateTimes(c.slice) ==>
                  r == Err(DuplicateTimestamps) && cst == old(cst) && actualAhead == old(actualAhead))
            && (!HasDuplicateTimes(c.slice) ==>
                  r == Ok(None) && cst == old(cst)[p := c.slice] && actualAhead == Some(c.actualAhead))
    {
      var parsed := ParseCstFilename(pstock);
      if parsed.Err? {
        return Err(parsed.error);
      }
      var p := parsed.value.1;
      if p in cst {
        return Ok(Some(cst[p]));
      }
      if pstock !in files {
        return Err(FileDoesNotExist(pstock));
      }
      var selected := SelectClamped(files[pstock], dtStart, dtEnd, nAhead);
      if selected.None? {
        return Err(NoBarInWindow);
      }
      var c := selected.value;
      timescope := Some(c.timescope);
      if HasDuplicateTimes(c.slice) {
        return Err(DuplicateTimestamps);
      }
      cst := cst[p := c.slice];
      actualAhead := Some(c.actualAhead);
      r := Ok(None);
    }

    /**
     * Loads the named series in turn, as the constructor does; the first failing load stops the
     * loading and is returned. The account is left alone.
     */
    method LoadSeries(names: seq<string>, files: map<string, seq<Row>>, dtStart: int, dtEnd: int)
      returns (r: Option<DataError>)
      modifies this
      ensures capital == old(capital) && cash == old(cash) && shares == old(shares) && records == old(records)
      ensures totalCommission == old(totalCommission) && totalStampTax == old(totalStampTax)
      ensures stampTaxRate == old(stampTaxRate) && commissionRate == old(commissionRate)
      ensures var loads := LoadAll(names, files, dtStart, dtEnd, nAhead, Loaded(old(cst), old(timescope), old(actualAhead)));
        && (r.None? <==> loads.Ok?)
        && (r.Some? ==> r.value == loads.error)
        && (r.None? ==> Loaded(cst, timescope, actualAhead) == loads.value)
    {
      ghost var start := Loaded(cst, timescope, actualAhead);
      for i := 0 to |names|
        invariant capital == old(capital) && cash == old(cash) && shares == old(shares) && records == old(records)
        invariant totalCommission == old(totalCommission) && totalStampTax == old(totalStampTax)
        invariant stampTaxRate == old(stampTaxRate) && commissionRate == old(commissionRate)
        invariant LoadAll(names, files, dtStart, dtEnd, nAhead, start)
               == LoadAll(names[i..], files, dtStart, dtEnd, nAhead, Loaded(cst, timescope, actualAhead))
      {
        ghost var before := Loaded(cst, timescope, actualAhead);
        assert names[i..][1..] == names[i + 1..];
        var loaded := LoadCst(names[i], files, dtStart, dtEnd);
        if loaded.Err? {
          assert LoadStep(before, names[i], files, dtStart, dtEnd, nAhead) == Err(loaded.error);
          return Some(loaded.error);
        }
        assert LoadStep(before, names[i], files, dtStart, dtEnd, nAhead) == Ok(Loaded(cst, timescope, actualAhead));
      }
      r := None;
    }

    /**
     * Attaches a strategy's settings. With no settings at all nothing is set. Otherwise the
     * capital (default 10000) becomes the cash and the initial record at the start of the time
     * scope is appended even when the capital then fails its check; each rate defaults when
     * absent and, when given, is stored before it is checked against [0, 1).
     */
    method AddStrategy(settings: map<string, real>) returns (r: Result<(), SetupError>)
      requires timescope.Some?
      modifies this
      ensures shares == old(shares) && totalCommission == old(totalCommission) && totalStampTax == old(totalStampTax)
      ensures timescope == old(timescope) && actualAhead == old(actualAhead) && cst == old(cst)
      ensures settings == map[] ==>
        r == Ok(()) && capital == old(capital) && cash == old(cash) && records == old(records)
        && stampTaxRate == old(stampTaxRate) && commissionRate == old(commissionRate)
      ensures settings != map[] ==>
        && capital == (if "capital" in settings then settings["capital"] else DefaultCapital)
        && cash == capital
        && records == old(records) + [Record(timescope.value.0, capital, shares)]
      ensures settings != map[] && capital <= 0.0 ==>
        r == Err(CapitalNotPositive(capital))
        && stampTaxRate == old(stampTaxRate) && commissionRate == old(commissionRate)
      ensures settings != map[] && capital > 0.0 ==>
        && stampTaxRate == Some(if "StampTaxRate" in settings then settings["StampTaxRate"] else DefaultStampTaxRate)
        && (!(0.0 <= stampTaxRate.value < 1.0) ==>
              r == Err(StampTaxRateOutOfRange(stampTaxRate.value)) && commissionRate == old(commissionRate))
      ensures settings != map[] && capital > 0.0 && 0.0 <= stampTaxRate.value < 1.0 ==>
        && commissionRate ==
             Some(if "CommissionChargeRate" in settings then settings["CommissionChargeRate"] else DefaultCommissionRate)
        && (r.Ok? <==> 0.0 <= commissionRate.value < 1.0)
        && (r.Err? ==> r == Err(CommissionRateOutOfRange(commissionRate.value)))
      ensures (r.Ok? && settings != map[] && old(records) == [] && old(shares) == 0
               && old(totalCommission) == 0.0 && old(totalStampTax) == 0.0) ==> Valid()
    {
      if settings == map[] {
        return Ok(());
      }
      capital := if "capital" in settings then settings["capital"] else DefaultCapital;
      cash := capital;
      records := records + [Record(timescope.value.0, cash, shares)];
      if !(capital > 0.0) {
        return Err(CapitalNotPositive(capital));
      }
      var stamp := if "StampTaxRate" in settings then settings["StampTaxRate"] else DefaultStampTaxRate;
      stampTaxRate := Some(stamp);
      if !(0.0 <= stamp < 1.0) {
        return Err(StampTaxRateOutOfRange(stamp));
      }
      var rate := if "CommissionChargeRate" in settings then settings["CommissionChargeRate"] else DefaultCommissionRate;
      commissionRate := Some(rate);
      if !(0.0 <= rate < 1.0) {
        return Err(CommissionRateOutOfRange(rate));
      }
      r := Ok(());
    }

    /**
     * A buy with the given bid at a per-share price, shared by the two buy flavours: rejected
     * when the bid or the cash is below one lot, otherwise the largest affordable lot count
     * within the bid is bought, the commission charged and one record appended.
     */
    method Buy(bid: real, price: real, time: int) returns (r: Result<int, LedgerError>)
      requires price > 0.0 && Rated()
      modifies this
      ensures Rated() && stampTaxRate == old(stampTaxRate) && commissionRate == old(commissionRate)
      ensures timescope == old(timescope) && actualAhead == old(actualAhead) && cst == old(cst)
      ensures var step := BuyStep(old(State()), bid, price, time);
        && (step.Ok? ==> r == Ok(step.value.0) && State() == step.value.1)
        && (step.Err? ==> r == Err(step.error) && State() == old(State()))
    {
      ghost var acc := State();
      var lot := LotShares * price;
      if bid < lot {
        return Err(BidTooLow(lot, bid));
      }
      if cash < lot {
        return Err(NotEnoughMoney(lot, cash));
      }
      var q, need := BackOff(bid, cash, lot);
      cash := cash - need;
      shares := shares + q;
      var fee := Commission(need, commissionRate.value);
      cash := cash - fee;
      totalCommission := totalCommission + fee;
      records := records + [Record(time, cash, shares)];
      r := Ok(q);
      BuyStepLots(acc, bid, price, time);
      ghost var a := BuyStep(acc, bid, price, time).value.1;
      assert a.cash == cash && a.shares == shares;
      assert a.totalCommission == totalCommission && a.records == records;
    }

    /** Buys with a bid of `ratio` of the current cash (so profits are reinvested). */
    method BuyRatio(price: real, time: int, ratio: real) returns (r: Result<int, LedgerError>)
      requires price > 0.0 && 0.0 < ratio <= 1.0 && Rated()
      modifies this
      ensures Rated() && stampTaxRate == old(stampTaxRate) && commissionRate == old(commissionRate)
      ensures timescope == old(timescope) && actualAhead == old(actualAhead) && cst == old(cst)
      ensures var applied := Apply(old(State()), Order.BuyRatio(price, time, ratio));
        && (applied.Ok? ==> r.Ok? && State() == applied.value)
        && (applied.Err? ==> r.Err? && r.error == applied.error && State() == old(State()))
      ensures r.Ok? ==> r.value == shares - old(shares)
      ensures old(Valid()) ==> Valid()
    {
      var bid := cash * ratio;
      ApplyBuyRatio(State(), price, time, ratio, bid);
      r := Buy(bid, price, time);
    }

    /** Buys with a bid of `position` of the initial capital (so profits are not reinvested). */
    method BuyPosition(price: real, time: int, position: real) returns (r: Result<int, LedgerError>)
      requires price > 0.0 && 0.0 < position <= 1.0 && Rated()
      modifies this
      ensures Rated() && stampTaxRate == old(stampTaxRate) && commissionRate == old(commissionRate)
      ensures timescope == old(timescope) && actualAhead == old(actualAhead) && cst == old(cst)
      ensures var applied := Apply(old(State()), Order.BuyPosition(price, time, position));
        && (applied.Ok? ==> r.Ok? && State() == applied.value)
        && (applied.Err? ==> r.Err? && r.error == applied.error && State() == old(State()))
      ensures r.Ok? ==> r.value == shares - old(shares)
      ensures old(Valid()) ==> Valid()
    {
      var bid := capital * position;
      ApplyBuyPosition(State(), price, time, position, bid);
      r := Buy(bid, price, time);
    }

    /** Sells `quantity` lots at a per-share price; the holding is not checked. */
    method Sell(price: real, time: int, quantity: int)
      requires price > 0.0 && quantity >= 1 && Rated()
      modifies this
      ensures Rated() && stampTaxRate == old(stampTaxRate) && commissionRate == old(commissionRate)
      ensures timescope == old(timescope) && actualAhead == old(actualAhead) && cst == old(cst)
      ensures State() == SellStep(old(State()), price, time, quantity)
      ensures old(Valid()) ==> Valid()
    {
      var income := quantity as real * price * LotShares;
      cash := cash + income;
      shares := shares - quantity;
      var fee := Commission(income, commissionRate.value);
      cash := cash - fee;
      var tax := income * stampTaxRate.value;
      cash := cash - tax;
      totalCommission := totalCommission + fee;
      totalStampTax := totalStampTax + tax;
      records := records + [Record(time, cash, shares)];
    }

    /** Executes one order the strategy issues. */
    method Execute(o: Order) returns (r: Result<(), LedgerError>)
      requires Rated() && WellFormed(o)
      modifies this
      ensures Rated() && stampTaxRate == old(stampTaxRate) && commissionRate == old(commissionRate)
      ensures timescope == old(timescope) && actualAhead == old(actualAhead) && cst == old(cst)
      ensures Apply(old(State()), o).Ok? ==> r.Ok? && State() == Apply(old(State()), o).value
      ensures Apply(old(State()), o).Err? ==> r.Err? && r.error == Apply(old(State()), o).error && State() == old(State())
    {
      match o
      case BuyRatio(price, time, ratio) =>
        var b := BuyRatio(price, time, ratio);
        r := if b.Ok? then Ok(()) else Err(b.error);
      case BuyPosition(price, time, position) =>
        var b := BuyPosition(price, time, position);
        r := if b.Ok? then Ok(()) else Err(b.error);
      case Sell(price, time, quantity) =>
        Sell(price, time, quantity);
        r := Ok(());
    }

    /**
     * Runs a strategy, given as the orders it issues: each is executed in turn, and the first
     * BidTooLow, NotEnoughMoney or CanNotSplitShare ends the run early; it is reported, not raised.
     */
    method Run(orders: seq<Order>) returns (aborted: Option<LedgerError>)
      requires Rated()
      requires forall i :: 0 <= i < |orders| ==> WellFormed(orders[i])
      modifies this
      ensures Rated() && stampTaxRate == old(stampTaxRate) && commissionRate == old(commissionRate)
      ensures timescope == old(timescope) && actualAhead == old(actualAhead) && cst == old(cst)
      ensures State() == RunOrders(old(State()), orders).account
      ensures aborted == RunOrders(old(State()), orders).error
    {
      ghost var acc0 := State();
      var i := 0;
      while i < |orders|
        invariant 0 <= i <= |orders|
        invariant Rated() && stampTaxRate == old(stampTaxRate) && commissionRate == old(commissionRate)
        invariant timescope == old(timescope) && actualAhead == old(actualAhead) && cst == old(cst)
        invariant RunOrders(acc0, orders).account == RunOrders(State(), orders[i..]).account
        invariant RunOrders(acc0, orders).error == RunOrders(State(), orders[i..]).error
        decreases |orders| - i
      {
        RunOrdersStep(State(), orders[i..]);
        assert orders[i..][0] == orders[i] && orders[i..][1..] == orders[i + 1..];
        var r := Execute(orders[i]);
        if r.Err? {
          return Some(r.error);
        }
        i := i + 1;
      }
      assert orders[i..] == [];
      aborted := None;
    }

    /**
     * Writes the report over the daily series: with no transaction there are no statistics,
     * otherwise the records are replayed bar by bar, popping each one the replay reaches, and
     * the equity curve, profit, rate of return and running-peak drawdowns are computed.
     */
    method Report() returns (r: Result<Summary, ReportError>)
      requires timescope.Some?
      modifies this
      ensures r == ReportOf(old(records), old(capital), if Day1 in old(cst) then Some(old(cst)[Day1]) else None)
      ensures records == RecordsLeft(old(records), if Day1 in old(cst) then Some(old(cst)[Day1]) else None)
      ensures capital == old(capital) && cash == old(cash) && shares == old(shares)
      ensures totalCommission == old(totalCommission) && totalStampTax == old(totalStampTax)
      ensures stampTaxRate == old(stampTaxRate) && commissionRate == old(commissionRate)
      ensures timescope == old(timescope) && actualAhead == old(actualAhead) && cst == old(cst)
    {
      if Day1 !in cst {
        return Err(NoDailyData);
      }
      var daily := cst[Day1];
      if |records| == 1 {
        return Ok(NoTransactions);
      }
      if records == [] {
        return Err(NoInitialRecord);
      }
      var equity, d, undefinedRatio, rest := ReplayRecords(records, daily);
      records := if rest == [] then [] else rest[1..];
      if equity == [] {
        r := Err(NoBars);
      } else if undefinedRatio {
        r := Err(ZeroPeak);
      } else if capital == 0.0 {
        r := Err(ZeroCapital);
      } else {
        var profit := equity[|equity| - 1] - equity[0];
        r := Ok(Stats(equity, profit, profit / capital, d.maxWithdraw, d.maxRatio));
      }
    }
  }

  /**
   * The report's replay loop: values every daily bar with the snapshot in force, moving on by at
   * most one record per bar, and keeps the running peak, largest drawdown and drawdown ratio.
   * The ratio is undefined when the first equity is not positive (a division by a zero peak).
   */
  method ReplayRecords(records: seq<Record>, daily: seq<Row>)
    returns (equity: seq<real>, d: Drawdown, undefinedRatio: bool, rest: seq<Record>)
    requires |records| >= 2
    ensures equity == EquityCurve(records, daily)
    ensures rest == Unreached(records[0], records[1..], daily)
    ensures |equity| > 0 ==> (undefinedRatio <==> equity[0] <= 0.0)
    ensures |equity| > 0 && equity[0] > 0.0 ==> d == Track(equity)
  {
    var cur := records[0];
    var pending := records[1..];
    equity := [];
    ghost var snaps: seq<Record> := [];
    d := Drawdown(0.0, 0.0, 0.0);
    undefinedRatio := false;
    var i := 0;
    while i < |daily|
      invariant 0 <= i <= |daily| && |snaps| == i
      invariant Snapshots(records[0], records[1..], daily) == snaps + Snapshots(cur, pending, daily[i..])
      invariant Unreached(records[0], records[1..], daily) == Unreached(cur, pending, daily[i..])
      invariant equity == Valued(snaps, daily)
      invariant Tracked(equity, d, undefinedRatio)
      decreases |daily| - i
    {
      ReplayInvariantStep(records, daily, snaps, cur, pending, i);
      if pending != [] && daily[i].time >= pending[0].time {
        cur := pending[0];
        pending := pending[1..];
      }
      var e := EquityAt(cur, daily[i].bar.close);
      d, undefinedRatio := Observe(d, undefinedRatio, e, equity);
      ValuedSnoc(snaps, cur, daily);
      equity := equity + [e];
      snaps := snaps + [cur];
      i := i + 1;
    }
    assert daily[i..] == [];
    rest := pending;
  }

  /**
   * The replay's drawdown state agrees with the curve so far: the ratio is undefined exactly when
   * the first equity is not positive, and otherwise the state is the one Track computes.
   */
  ghost predicate Tracked(equity: seq<real>, d: Drawdown, undefinedRatio: bool) {
    if equity == [] then d == Drawdown(0.0, 0.0, 0.0) && !undefinedRatio
    else (undefinedRatio <==> equity[0] <= 0.0) && (equity[0] > 0.0 ==> d == Track(equity))
  }

  /**
   * One bar of the replay's peak and drawdown bookkeeping: a new peak is recorded, a fall from a
   * positive peak updates the drawdowns, and a fall from a peak that is not positive leaves the
   * ratio undefined. The state keeps agreeing with the curve extended by the bar's equity.
   */
  method Observe(d: Drawdown, undefinedRatio: bool, e: real, ghost equity: seq<real>)
    returns (d': Drawdown, undefinedRatio': bool)
    requires Tracked(equity, d, undefinedRatio)
    ensures Tracked(equity + [e], d', undefinedRatio')
  {
    assert (equity + [e])[0] == if equity == [] then e else equity[0];
    if equity != [] && equity[0] > 0.0 {
      TrackSnoc(equity, e);
    }
    d', undefinedRatio' := d, undefinedRatio;
    if e > d.peak {
      d' := d.(peak := e);
    } else if d.peak > 0.0 {
      d' := PeakStep(d, e);
    } else {
      undefinedRatio' := true;
    }
  }

  /** Each snapshot valued at the close of the bar it stands for. */
  ghost function Valued(snaps: seq<Record>, bars: seq<Row>): (eqs: seq<real>)
    requires |snaps| <= |bars|
    ensures |eqs| == |snaps|
  {
    seq(|snaps|, j requires 0 <= j < |snaps| => EquityAt(snaps[j], bars[j].bar.close))
  }

  /** Valuing one more snapshot appends its equity. */
  lemma ValuedSnoc(snaps: seq<Record>, cur: Record, bars: seq<Row>)
    requires |snaps| < |bars|
    ensures Valued(snaps + [cur], bars) == Valued(snaps, bars) + [EquityAt(cur, bars[|snaps|].bar.close)]
  {
  }

  /** The replay invariant survives one bar. */
  lemma ReplayInvariantStep(records: seq<Record>, daily: seq<Row>, snaps: seq<Record>, cur: Record, pending: seq<Record>, i: nat)
    requires |records| >= 1 && i < |daily|
    requires Snapshots(records[0], records[1..], daily) == snaps + Snapshots(cur, pending, daily[i..])
    requires Unreached(records[0], records[1..], daily) == Unreached(cur, pending, daily[i..])
    ensures var (cur', pending') := Advance(cur, pending, daily[i].time);
      && Snapshots(records[0], records[1..], daily) == (snaps + [cur']) + Snapshots(cur', pending', daily[i + 1..])
      && Unreached(records[0], records[1..], daily) == Unreached(cur', pending', daily[i + 1..])
  {
    var (cur', pending') := Advance(cur, pending, daily[i].time);
    ReplayStep(cur, pending, daily[i..]);
    assert daily[i..][0] == daily[i] && daily[i..][1..] == daily[i + 1..];
    var later := Snapshots(cur', pending', daily[i + 1..]);
    assert Snapshots(cur, pending, daily[i..]) == [cur'] + later;
    assert snaps + ([cur'] + later) == (snaps + [cur']) + later;
  }

  /** What a unit's loads leave behind: the series by period, and the last load's window facts. */
  datatype Loaded = Loaded(cst: map<Period, seq<Row>>, timescope: Option<(int, int)>, actualAhead: Option<nat>)

  /** One load of ExecuteUnit.LoadCst, on values; an error discards the unit, so only its reason matters. */
  function LoadStep(l: Loaded, pstock: string, files: map<string, seq<Row>>, dtStart: int, dtEnd: int, nAhead: nat)
    : Result<Loaded, DataError>
  {
    match ParseCstFilename(pstock)
    case Err(e) => Err(e)
    case Ok((_, p)) =>
      if p in l.cst then Ok(l)
      else if pstock !in files then Err(FileDoesNotExist(pstock))
      else match SelectClamped(files[pstock], dtStart, dtEnd, nAhead)
        case None => Err(NoBarInWindow)
        case Some(c) =>
          if HasDuplicateTimes(c.slice) then Err(DuplicateTimestamps)
          else Ok(Loaded(l.cst[p := c.slice], Some(c.timescope), Some(c.actualAhead)))
  }

  /** The named series loaded in turn; the first failing load is the error. */
  function LoadAll(names: seq<string>, files: map<string, seq<Row>>, dtStart: int, dtEnd: int, nAhead: nat, l: Loaded)
    : Result<Loaded, DataError>
    decreases |names|
  {
    if names == [] then Ok(l)
    else match LoadStep(l, names[0], files, dtStart, dtEnd, nAhead)
      case Err(e) => Err(e)
      case Ok(l') => LoadAll(names[1..], files, dtStart, dtEnd, nAhead, l')
  }

  /** The file name parses and names period `p`. */
  predicate NamesPeriod(name: string, p: Period) {
    ParseCstFilename(name).Ok? && ParseCstFilename(name).value.1 == p
  }

  /** names[i] is the first of the names to name period `p`. */
  predicate FirstWith(names: seq<string>, i: int, p: Period) {
    0 <= i < |names| && NamesPeriod(names[i], p) && forall j :: 0 <= j < i ==> !NamesPeriod(names[j], p)
  }

  /**
   * The load of names[i] succeeds given what came before: the name parses and, unless its period
   * is already held, its file exists, has a bar in the window and no repeated timestamp.
   */
  predicate LoadsFine(names: seq<string>, i: int, files: map<string, seq<Row>>, dtStart: int, dtEnd: int, nAhead: nat, held: set<Period>)
    requires 0 <= i < |names|
  {
    && ParseCstFilename(names[i]).Ok?
    && var p := ParseCstFilename(names[i]).value.1;
       (p !in held && FirstWith(names, i, p) ==>
          && names[i] in files
          && SelectClamped(files[names[i]], dtStart, dtEnd, nAhead).Some?
          && !HasDuplicateTimes(SelectClamped(files[names[i]], dtStart, dtEnd, nAhead).value.slice))
  }

  /** Dropping a first name that does not name `q` shifts who names `q` first by one. */
  lemma FirstWithShift(names: seq<string>, i: int, q: Period)
    requires 1 <= i < |names| && !NamesPeriod(names[0], q)
    ensures FirstWith(names, i, q) <==> FirstWith(names[1..], i - 1, q)
  {
    var rest := names[1..];
    assert names[i] == rest[i - 1];
    if FirstWith(rest, i - 1, q) {
      forall j | 0 <= j < i ensures !NamesPeriod(names[j], q) {
        if j > 0 { assert names[j] == rest[j - 1]; }
      }
    }
    if FirstWith(names, i, q) {
      forall j | 0 <= j < i - 1 ensures !NamesPeriod(rest[j], q) {
        assert rest[j] == names[j + 1];
      }
    }
  }

  /** After the first name's period is held, a later name loads fine in the rest exactly when it did in all. */
  lemma LoadsFineShift(names: seq<string>, i: int, files: map<string, seq<Row>>, dtStart: int, dtEnd: int, nAhead: nat,
                       held: set<Period>, p0: Period)
    requires 1 <= i < |names| && NamesPeriod(names[0], p0)
    ensures LoadsFine(names, i, files, dtStart, dtEnd, nAhead, held)
        <==> LoadsFine(names[1..], i - 1, files, dtStart, dtEnd, nAhead, held + {p0})
  {
    assert names[i] == names[1..][i - 1];
    if ParseCstFilename(names[i]).Ok? {
      var q := ParseCstFilename(names[i]).value.1;
      if q == p0 {
        assert !FirstWith(names, i, q) by { assert NamesPeriod(names[0], q); }
      } else {
        FirstWithShift(names, i, q);
      }
    }
  }

  /** The first load succeeds exactly when the first name loads fine, and then holds one period more. */
  lemma LoadStepFine(names: seq<string>, files: map<string, seq<Row>>, dtStart: int, dtEnd: int, nAhead: nat, l: Loaded)
    requires |names| > 0
    ensures LoadStep(l, names[0], files, dtStart, dtEnd, nAhead).Ok?
        <==> LoadsFine(names, 0, files, dtStart, dtEnd, nAhead, l.cst.Keys)
    ensures LoadStep(l, names[0], files, dtStart, dtEnd, nAhead).Ok? ==>
      && NamesPeriod(names[0], ParseCstFilename(names[0]).value.1)
      && LoadStep(l, names[0], files, dtStart, dtEnd, nAhead).value.cst.Keys
         == l.cst.Keys + {ParseCstFilename(names[0]).value.1}
  {
    if ParseCstFilename(names[0]).Ok? {
      assert FirstWith(names, 0, ParseCstFilename(names[0]).value.1);
    }
  }

  /**
   * The loads succeed exactly when every name parses and every first load of a period not yet
   * held finds its file and a duplicate-free window; later names of a held period are cache hits.
   */
  lemma {:induction false} LoadAllSucceeds(names: seq<string>, files: map<string, seq<Row>>, dtStart: int, dtEnd: int, nAhead: nat, l: Loaded)
    ensures LoadAll(names, files, dtStart, dtEnd, nAhead, l).Ok? <==>
      forall i :: 0 <= i < |names| ==> LoadsFine(names, i, files, dtStart, dtEnd, nAhead, l.cst.Keys)
    decreases |names|
  {
    if names != [] {
      var step := LoadStep(l, names[0], files, dtStart, dtEnd, nAhead);
      var rest := names[1..];
      LoadStepFine(names, files, dtStart, dtEnd, nAhead, l);
      if step.Ok? {
        var l' := step.value;
        var p0 := ParseCstFilename(names[0]).value.1;
        LoadAllSucceeds(rest, files, dtStart, dtEnd, nAhead, l');
        forall i | 1 <= i < |names|
          ensures LoadsFine(names, i, files, dtStart, dtEnd, nAhead, l.cst.Keys)
              <==> LoadsFine(rest, i - 1, files, dtStart, dtEnd, nAhead, l'.cst.Keys)
        {
          LoadsFineShift(names, i, files, dtStart, dtEnd, nAhead, l.cst.Keys, p0);
        }
        if forall i :: 0 <= i < |rest| ==> LoadsFine(rest, i, files, dtStart, dtEnd, nAhead, l'.cst.Keys) {
          forall i | 0 <= i < |names| ensures LoadsFine(names, i, files, dtStart, dtEnd, nAhead, l.cst.Keys) {
            if i > 0 { assert LoadsFine(rest, i - 1, files, dtStart, dtEnd, nAhead, l'.cst.Keys); }
          }
        }
        if forall i :: 0 <= i < |names| ==> LoadsFine(names, i, files, dtStart, dtEnd, nAhead, l.cst.Keys) {
          forall i | 0 <= i < |rest| ensures LoadsFine(rest, i, files, dtStart, dtEnd, nAhead, l'.cst.Keys) {
            assert LoadsFine(names, i + 1, files, dtStart, dtEnd, nAhead, l.cst.Keys);
          }
        }
      }
    }
  }

  /** One successful load keeps what was held and adds the first name's period, newly loaded or already held. */
  lemma LoadStepContents(l: Loaded, name: string, files: map<string, seq<Row>>, dtStart: int, dtEnd: int, nAhead: nat)
    requires LoadStep(l, name, files, dtStart, dtEnd, nAhead).Ok?
    ensures ParseCstFilename(name).Ok?
    ensures var l' := LoadStep(l, name, files, dtStart, dtEnd, nAhead).value;
      var p := ParseCstFilename(name).value.1;
      && (forall q :: q in l.cst ==> q in l'.cst && l'.cst[q] == l.cst[q])
      && l'.cst.Keys == l.cst.Keys + {p}
      && (p !in l.cst ==>
            && name in files && SelectClamped(files[name], dtStart, dtEnd, nAhead).Some?
            && l'.cst[p] == SelectClamped(files[name], dtStart, dtEnd, nAhead).value.slice)
  {
  }

  /** The file `name` exists and its clamped window keeps `slice`. */
  predicate ClampedWindow(files: map<string, seq<Row>>, name: string, dtStart: int, dtEnd: int, nAhead: nat, slice: seq<Row>) {
    name in files && SelectClamped(files[name], dtStart, dtEnd, nAhead).Some?
    && slice == SelectClamped(files[name], dtStart, dtEnd, nAhead).value.slice
  }

  /** Where a period newly held after the loads came from: the clamped window of the first name naming it. */
  ghost predicate LoadedFrom(names: seq<string>, p: Period, slice: seq<Row>, files: map<string, seq<Row>>, dtStart: int, dtEnd: int, nAhead: nat) {
    exists i :: FirstWith(names, i, p) && ClampedWindow(files, names[i], dtStart, dtEnd, nAhead, slice)
  }

  /** A period first named after a first name that names another period was first named in all the names too. */
  lemma LoadedFromShift(names: seq<string>, p: Period, slice: seq<Row>, files: map<string, seq<Row>>, dtStart: int, dtEnd: int, nAhead: nat)
    requires |names| > 0 && !NamesPeriod(names[0], p)
    requires LoadedFrom(names[1..], p, slice, files, dtStart, dtEnd, nAhead)
    ensures LoadedFrom(names, p, slice, files, dtStart, dtEnd, nAhead)
  {
    var rest := names[1..];
    var i :| FirstWith(rest, i, p) && ClampedWindow(files, rest[i], dtStart, dtEnd, nAhead, slice);
    var k := i + 1;
    assert names[k] == rest[i];
    FirstWithShift(names, k, p);
    assert FirstWith(names, k, p) && ClampedWindow(files, names[k], dtStart, dtEnd, nAhead, slice);
  }

  /**
   * What the loads hold: every series held before is kept; every named period is held; and a
   * period newly held is the clamped window of the first name naming it (later names of that
   * period never replace it).
   */
  lemma {:induction false} LoadAllContents(names: seq<string>, files: map<string, seq<Row>>, dtStart: int, dtEnd: int, nAhead: nat, l: Loaded)
    requires LoadAll(names, files, dtStart, dtEnd, nAhead, l).Ok?
    ensures var res := LoadAll(names, files, dtStart, dtEnd, nAhead, l).value;
      && (forall p :: p in l.cst ==> p in res.cst && res.cst[p] == l.cst[p])
      && (forall i :: 0 <= i < |names| ==> ParseCstFilename(names[i]).Ok? && ParseCstFilename(names[i]).value.1 in res.cst)
      && (forall p :: p in res.cst && p !in l.cst ==> LoadedFrom(names, p, res.cst[p], files, dtStart, dtEnd, nAhead))
    decreases |names|
  {
    if names != [] {
      var l' := LoadStep(l, names[0], files, dtStart, dtEnd, nAhead).value;
      var rest := names[1..];
      LoadStepContents(l, names[0], files, dtStart, dtEnd, nAhead);
      var p0 := ParseCstFilename(names[0]).value.1;
      LoadAllContents(rest, files, dtStart, dtEnd, nAhead, l');
      var res := LoadAll(rest, files, dtStart, dtEnd, nAhead, l').value;
      assert LoadAll(names, files, dtStart, dtEnd, nAhead, l) == Ok(res);
      forall i | 0 <= i < |names|
        ensures ParseCstFilename(names[i]).Ok? && ParseCstFilename(names[i]).value.1 in res.cst
      {
        if i > 0 { assert names[i] == rest[i - 1]; }
      }
      forall p | p in res.cst && p !in l.cst
        ensures LoadedFrom(names, p, res.cst[p], files, dtStart, dtEnd, nAhead)
      {
        if p == p0 {
          assert FirstWith(names, 0, p);
        } else {
          LoadedFromShift(names, p, res.cst[p], files, dtStart, dtEnd, nAhead);
        }
      }
    }
  }

  /** Loading at least one series into an empty unit, or into one with a time scope, leaves a time scope and lead-in set. */
  lemma {:induction false} LoadAllScoped(names: seq<string>, files: map<string, seq<Row>>, dtStart: int, dtEnd: int, nAhead: nat, l: Loaded)
    requires LoadAll(names, files, dtStart, dtEnd, nAhead, l).Ok?
    requires (l.timescope.Some? && l.actualAhead.Some?) || (|names| > 0 && l.cst == map[])
    ensures LoadAll(names, files, dtStart, dtEnd, nAhead, l).value.timescope.Some?
    ensures LoadAll(names, files, dtStart, dtEnd, nAhead, l).value.actualAhead.Some?
    decreases |names|
  {
    if names != [] {
      var l' := LoadStep(l, names[0], files, dtStart, dtEnd, nAhead).value;
      assert l'.timescope.Some? && l'.actualAhead.Some?;
      LoadAllScoped(names[1..], files, dtStart, dtEnd, nAhead, l');
    }
  }

  /**
   * Creates the unit for one stock: the stock is read from the first file name, then every
   * named series is loaded in turn; the first load error is raised.
   */
  method OpenExecuteUnit(mpstock: seq<string>, files: map<string, seq<Row>>, dtStart: int, dtEnd: int, nAhead: nat)
    returns (r: Result<ExecuteUnit, DataError>)
    requires |mpstock| > 0 && dtStart < dtEnd
    ensures ParseCstFilename(mpstock[0]).Err? ==> r == Err(ParseCstFilename(mpstock[0]).error)
    ensures ParseCstFilename(mpstock[0]).Ok? ==>
      var loads := LoadAll(mpstock, files, dtStart, dtEnd, nAhead, Loaded(map[], None, None));
      && (r.Ok? <==> loads.Ok?)
      && (r.Err? ==> r.error == loads.error)
      && (r.Ok? ==> Loaded(r.value.cst, r.value.timescope, r.value.actualAhead) == loads.value)
    ensures r.Ok? ==>
      && fresh(r.value)
      && r.value.stock == ParseCstFilename(mpstock[0]).value.0 && r.value.nAhead == nAhead
      && r.value.records == [] && r.value.capital == 0.0 && r.value.cash == 0.0 && r.value.shares == 0
      && r.value.totalCommission == 0.0 && r.value.totalStampTax == 0.0
      && r.value.stampTaxRate == None && r.value.commissionRate == None
      && r.value.timescope.Some? && r.value.actualAhead.Some?
  {
    var first := ParseCstFilename(mpstock[0]);
    if first.Err? {
      return Err(first.error);
    }
    var u := new ExecuteUnit.Empty(first.value.0, nAhead);
    var failed := u.LoadSeries(mpstock, files, dtStart, dtEnd);
    if failed.Some? {
      return Err(failed.value);
    }
    LoadAllScoped(mpstock, files, dtStart, dtEnd, nAhead, Loaded(map[], None, None));
    r := Ok(u);
  }
}
