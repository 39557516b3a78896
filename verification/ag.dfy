/**
 * The front end a strategy talks to: buy/sell dispatch onto the execute unit with bookkeeping of
 * the codes traded, and the validation and defaulting of the settings a back test is asked with.
 */
module Front {
  import opened Common
  import opened Ledger
  import Engine

  /** How a buy states its bid: a share of current cash, a share of the capital, or an amount. */
  datatype BuyChoice = ByRatio(ratio: real) | ByPosition(position: real) | ByCash(cash: real)

  /**
   * The keyword a buy is dispatched on: `ratio` wins over `position`, which wins over `cash`;
   * with none of them the whole capital is bid (position 1).
   */
  function ChooseBuy(kargs: map<string, real>): (c: BuyChoice)
    ensures "ratio" in kargs <==> c.ByRatio?
    ensures c.ByRatio? ==> c.ratio == kargs["ratio"]
    ensures c.ByPosition? <==> "ratio" !in kargs && ("position" in kargs || "cash" !in kargs)
    ensures c.ByPosition? ==> c.position == if "position" in kargs then kargs["position"] else 1.0
    ensures c.ByCash? <==> "ratio" !in kargs && "position" !in kargs && "cash" in kargs
    ensures c.ByCash? ==> c.cash == kargs["cash"]
  {
    if "ratio" in kargs then ByRatio(kargs["ratio"])
    else if "position" in kargs then ByPosition(kargs["position"])
    else if "cash" in kargs then ByCash(kargs["cash"])
    else ByPosition(1.0)
  }

  /** Keywords of lower priority than the one that decides never change the choice. */
  lemma ChooseBuyIgnoresLower(kargs: map<string, real>, key: string, v: real)
    requires || ("ratio" in kargs && key != "ratio")
             || ("ratio" !in kargs && "position" in kargs && key != "ratio" && key != "position")
    ensures ChooseBuy(kargs[key := v]) == ChooseBuy(kargs)
  {
  }

  /** Why a front-end trade fails: the ledger's own error, or a cash bid the ledger cannot take. */
  datatype TradeError = Rejected(error: LedgerError) | NoBuyCash

  /** The order a buy choice places, when the ledger offers an operation for it. */
  function OrderFor(c: BuyChoice, price: real, time: int): (o: Option<Order>)
    ensures o.Some? <==> !c.ByCash?
    ensures c.ByRatio? ==> o == Some(Order.BuyRatio(price, time, c.ratio))
    ensures c.ByPosition? ==> o == Some(Order.BuyPosition(price, time, c.position))
  {
    match c
    case ByRatio(ratio) => Some(Order.BuyRatio(price, time, ratio))
    case ByPosition(position) => Some(Order.BuyPosition(price, time, position))
    case ByCash(_) => None
  }

  /** The ratio or position a choice bids, which the ledger demands lie in (0, 1]. */
  predicate ShareInRange(c: BuyChoice) {
    match c
    case ByRatio(ratio) => 0.0 < ratio <= 1.0
    case ByPosition(position) => 0.0 < position <= 1.0
    case ByCash(_) => true
  }

  /** The session a strategy trades through: one execute unit and the set of codes traded. */
  class Agares {
    const unit: Engine.ExecuteUnit
    var tradingStocks: set<string>

    constructor (unit: Engine.ExecuteUnit)
      ensures this.unit == unit && tradingStocks == {}
    {
      this.unit := unit;
      tradingStocks := {};
    }

    /**
     * Buys through the operation the keywords choose. On success the code joins the traded
     * set and the quantity bought, the lots now held and the cash left are returned; a ledger
     * error propagates with the traded set unchanged. A cash bid has no ledger operation.
     */
    method Buy(code: string, price: real, time: int, kargs: map<string, real>)
      returns (r: Result<(int, int, real), TradeError>)
      requires price > 0.0 && unit.Rated() && ShareInRange(ChooseBuy(kargs))
      modifies this, unit
      ensures unit.Rated() && unit.stampTaxRate == old(unit.stampTaxRate) && unit.commissionRate == old(unit.commissionRate)
      ensures unit.cst == old(unit.cst) && unit.timescope == old(unit.timescope)
      ensures var o := OrderFor(ChooseBuy(kargs), price, time);
        && (o.None? ==> r == Err(NoBuyCash) && unit.State() == old(unit.State()))
        && (o.Some? && Apply(old(unit.State()), o.value).Ok? ==>
              r.Ok? && unit.State() == Apply(old(unit.State()), o.value).value
              && r.value.0 == unit.shares - old(unit.shares)
              && r.value.1 == unit.shares && r.value.2 == unit.cash)
        && (o.Some? && Apply(old(unit.State()), o.value).Err? ==>
              r == Err(Rejected(Apply(old(unit.State()), o.value).error)) && unit.State() == old(unit.State()))
      ensures r.Ok? ==> tradingStocks == old(tradingStocks) + {code}
      ensures r.Err? ==> tradingStocks == old(tradingStocks)
    {
      var c := ChooseBuy(kargs);
      var bought: Result<int, LedgerError>;
      match c {
        case ByRatio(ratio) =>
          bought := unit.BuyRatio(price, time, ratio);
        case ByPosition(position) =>
          bought := unit.BuyPosition(price, time, position);
        case ByCash(_) =>
          return Err(NoBuyCash);
      }
      if bought.Err? {
        return Err(Rejected(bought.error));
      }
      tradingStocks := tradingStocks + {code};
      r := Ok((bought.value, unit.shares, unit.cash));
    }

    /** Sells through the ledger; the code joins the traded set and the holding and cash are returned. */
    method Sell(code: string, price: real, time: int, quantity: int) returns (shares: int, cash: real)
      requires price > 0.0 && quantity >= 1 && unit.Rated()
      modifies this, unit
      ensures unit.Rated() && unit.stampTaxRate == old(unit.stampTaxRate) && unit.commissionRate == old(unit.commissionRate)
      ensures unit.cst == old(unit.cst) && unit.timescope == old(unit.timescope)
      ensures unit.State() == SellStep(old(unit.State()), price, time, quantity)
      ensures shares == unit.shares && cash == unit.cash
      ensures tradingStocks == old(tradingStocks) + {code}
    {
      unit.Sell(price, time, quantity);
      tradingStocks := tradingStocks + {code};
      shares, cash := unit.shares, unit.cash;
    }
  }

  /** The settings dictionary a back test or an analysis is asked with; absent keys are None. */
  datatype Settings = Settings(
    hasStrategy: bool,
    hasAnalysis: bool,
    pstocks: Option<seq<string>>,
    dtStart: Option<int>,
    dtEnd: Option<int>,
    nAhead: Option<int>,
    capital: Option<real>,
    stampTaxRate: Option<real>,
    commissionRate: Option<real>,
    returnEquity: Option<bool>,
    plotEquity: Option<bool>,
    plotNetValue: Option<bool>)

  datatype ConfigError =
    | StrategyAndAnalysis
    | MissingSetting(name: string)
    | CapitalNotPositive(capital: real)
    | StampTaxRateOutOfRange(rate: real)
    | CommissionRateOutOfRange(rate: real)

  /** What the settings ask for, with every default filled in. */
  datatype Plan =
    | Backtest(pstocks: seq<string>, dtStart: int, dtEnd: int, nAhead: int,
               capital: real, stampTaxRate: real, commissionRate: real,
               returnEquity: bool, plotEquity: bool, plotNetValue: bool)
    | Analyse(pstocks: seq<string>, dtStart: int, dtEnd: int, nAhead: int)
    | Idle

  /** The first of the keys every request needs that the settings lack, looked up in order. */
  function MissingKey(s: Settings): (k: Option<string>)
    ensures k.None? <==> s.pstocks.Some? && s.dtStart.Some? && s.dtEnd.Some? && s.nAhead.Some?
    ensures k.Some? ==> k.value in ["pstocks", "dt_start", "dt_end", "n_ahead"]
  {
    if s.pstocks.None? then Some("pstocks")
    else if s.dtStart.None? then Some("dt_start")
    else if s.dtEnd.None? then Some("dt_end")
    else if s.nAhead.None? then Some("n_ahead")
    else None
  }

  /** A boolean switch that is off unless given. */
  function Flag(b: Option<bool>): bool {
    b == Some(true)
  }

  /**
   * Validates the settings. A strategy with an analysis aborts. A strategy needs the four
   * required keys; capital defaults to 10000 and must be positive, the stamp-tax rate defaults
   * to 0.001 and the commission rate to 2.5e-4, each checked to lie in [0, 1); the report
   * switches default to off. An analysis needs the same four keys and nothing else.
   */
  function AskAgares(s: Settings): (r: Result<Plan, ConfigError>)
    ensures s.hasStrategy && s.hasAnalysis ==> r == Err(StrategyAndAnalysis)
    ensures (s.hasStrategy || s.hasAnalysis) && MissingKey(s).Some? && !(s.hasStrategy && s.hasAnalysis) ==>
      r == Err(MissingSetting(MissingKey(s).value))
    ensures !s.hasStrategy && !s.hasAnalysis ==> r == Ok(Idle)
    ensures r.Ok? && r.value.Backtest? ==>
      && s.hasStrategy && !s.hasAnalysis
      && r.value.pstocks == s.pstocks.value && r.value.dtStart == s.dtStart.value
      && r.value.dtEnd == s.dtEnd.value && r.value.nAhead == s.nAhead.value
      && r.value.capital == (if s.capital.Some? then s.capital.value else DefaultCapital)
      && r.value.stampTaxRate == (if s.stampTaxRate.Some? then s.stampTaxRate.value else DefaultStampTaxRate)
      && r.value.commissionRate == (if s.commissionRate.Some? then s.commissionRate.value else DefaultCommissionRate)
      && r.value.capital > 0.0
      && 0.0 <= r.value.stampTaxRate < 1.0 && 0.0 <= r.value.commissionRate < 1.0
      && r.value.returnEquity == Flag(s.returnEquity)
      && r.value.plotEquity == Flag(s.plotEquity) && r.value.plotNetValue == Flag(s.plotNetValue)
    ensures r.Ok? && r.value.Analyse? ==>
      && s.hasAnalysis && !s.hasStrategy
      && r.value == Analyse(s.pstocks.value, s.dtStart.value, s.dtEnd.value, s.nAhead.value)
    ensures s.hasStrategy && !s.hasAnalysis && MissingKey(s).None? ==>
      (r.Ok? <==>
        && (s.capital.None? || s.capital.value > 0.0)
        && (s.stampTaxRate.None? || 0.0 <= s.stampTaxRate.value < 1.0)
        && (s.commissionRate.None? || 0.0 <= s.commissionRate.value < 1.0))
    ensures s.hasStrategy && !s.hasAnalysis && MissingKey(s).None? && s.capital.Some? && s.capital.value <= 0.0 ==>
      r == Err(CapitalNotPositive(s.capital.value))
    ensures s.hasAnalysis && !s.hasStrategy && MissingKey(s).None? ==> r.Ok? && r.value.Analyse?
  {
    if s.hasStrategy then
      if s.hasAnalysis then Err(StrategyAndAnalysis)
      else if MissingKey(s).Some? then Err(MissingSetting(MissingKey(s).value))
      else
        var capital := if s.capital.Some? then s.capital.value else DefaultCapital;
        var stamp := if s.stampTaxRate.Some? then s.stampTaxRate.value else DefaultStampTaxRate;
        var commission := if s.commissionRate.Some? then s.commissionRate.value else DefaultCommissionRate;
        if !(capital > 0.0) then Err(CapitalNotPositive(capital))
        else if !(0.0 <= stamp < 1.0) then Err(StampTaxRateOutOfRange(stamp))
        else if !(0.0 <= commission < 1.0) then Err(CommissionRateOutOfRange(commission))
        else Ok(Backtest(s.pstocks.value, s.dtStart.value, s.dtEnd.value, s.nAhead.value,
                         capital, stamp, commission,
                         Flag(s.returnEquity), Flag(s.plotEquity), Flag(s.plotNetValue)))
    else if s.hasAnalysis then
      if MissingKey(s).Some? then Err(MissingSetting(MissingKey(s).value))
      else Ok(Analyse(s.pstocks.value, s.dtStart.value, s.dtEnd.value, s.nAhead.value))
    else Ok(Idle)
  }

  /** What ask_agares hands back once the back test has reported: the equity curve only when asked. */
  function Answer(plan: Plan, equity: seq<real>): (r: Option<seq<real>>)
    ensures r.Some? <==> plan.Backtest? && plan.returnEquity
    ensures r.Some? ==> r.value == equity
  {
    if plan.Backtest? && plan.returnEquity then Some(equity) else None
  }

  /** With the settings a back test is asked with, the equity curve is returned only when ReturnEquity is True. */
  lemma EquityReturnedOnlyWhenAsked(s: Settings, equity: seq<real>)
    requires AskAgares(s).Ok?
    ensures Answer(AskAgares(s).value, equity).Some? <==> s.hasStrategy && s.returnEquity == Some(true)
  {
  }
}
