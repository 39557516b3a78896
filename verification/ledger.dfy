/**
 * The account ledger of the single-stock execution unit, as pure transitions on an account value:
 * board-lot buying by a bid, selling, commission with a 5-unit floor, stamp tax on sales, and the
 * append-only list of transaction records.
 */
module Ledger {
  import opened Common

  /** Shares in one board lot. */
  const LotShares: real := 100.0
  /** Commission is never less than this, whatever the rate. */
  const MinCommission: real := 5.0
  const DefaultCapital: real := 10000.0
  const DefaultStampTaxRate: real := 0.001
  const DefaultCommissionRate: real := 0.00025

  /** A snapshot taken after a transaction: when, cash after, board lots held after. */
  datatype Record = Record(time: int, cash: real, shares: int)

  /** Errors the ledger raises while executing an order. */
  datatype LedgerError =
    | BidTooLow(needCash: real, bid: real)
    | NotEnoughMoney(needCash: real, cash: real)
    | CanNotSplitShare  // caught by the run loop; the single-stock ledger never raises it

  datatype Account = Account(
    capital: real,           // set once, when the strategy is attached
    cash: real,
    shares: int,             // board lots held; selling does not check the holding
    totalCommission: real,
    totalStampTax: real,
    stampTaxRate: real,
    commissionRate: real,
    records: seq<Record>)

  function Last<T>(s: seq<T>): T
    requires |s| > 0
  {
    s[|s| - 1]
  }

  /**
   * The account's audit trail agrees with it: the first record is the initial capital with no
   * holding, the last record is the current cash and holding, and each of the transactions after
   * the first record paid at least the minimum commission.
   */
  ghost predicate Consistent(a: Account) {
    && |a.records| >= 1
    && a.capital > 0.0
    && 0.0 <= a.stampTaxRate < 1.0
    && 0.0 <= a.commissionRate < 1.0
    && a.records[0].cash == a.capital && a.records[0].shares == 0
    && Last(a.records).cash == a.cash && Last(a.records).shares == a.shares
    && a.totalCommission >= MinCommission * (|a.records| - 1) as real
    && a.totalStampTax >= 0.0
  }

  /** The commission on a trade of the given value: the rate's share, but at least the floor. */
  function Commission(value: real, rate: real): (c: real)
    ensures c >= MinCommission && c >= value * rate
    ensures c == MinCommission || c == value * rate
  {
    if value * rate >= MinCommission then value * rate else MinCommission
  }

  /** Whether q board lots at `lot` each can be paid from `cash`. */
  predicate Affordable(q: int, lot: real, cash: real) {
    q as real * lot <= cash
  }

  /** q is the largest lot count no greater than floor(bid / lot) that cash can pay for. */
  ghost predicate LargestAffordable(q: int, bid: real, cash: real, lot: real)
    requires lot > 0.0
  {
    && q <= (bid / lot).Floor
    && Affordable(q, lot, cash)
    && forall k :: k <= (bid / lot).Floor && Affordable(k, lot, cash) ==> k <= q
  }

  lemma AffordableBelowQuotient(q: int, lot: real, cash: real)
    requires lot > 0.0
    ensures Affordable(q, lot, cash) <==> q as real <= cash / lot
  {
    if Affordable(q, lot, cash) {
      assert q as real * lot / lot <= cash / lot;
    } else {
      assert q as real * lot / lot > cash / lot;
    }
  }

  /** floor(bid / lot) capped by floor(cash / lot): the bid's lot count, reduced until affordable. */
  function MaxLots(bid: real, cash: real, lot: real): (q: int)
    requires lot > 0.0 && bid >= lot && cash >= lot
    ensures q >= 1
    ensures LargestAffordable(q, bid, cash, lot)
  {
    var byBid := (bid / lot).Floor;
    var byCash := (cash / lot).Floor;
    assert bid / lot >= 1.0 && cash / lot >= 1.0;
    var q := if byBid <= byCash then byBid else byCash;
    AffordableBelowQuotient(q, lot, cash);
    forall k | k <= byBid && Affordable(k, lot, cash) ensures k <= q {
      AffordableBelowQuotient(k, lot, cash);
    }
    q
  }

  /** With a bid no larger than the cash, the bid's own lot count is always affordable. */
  lemma BidWithinCashNeedsNoReduction(bid: real, cash: real, lot: real)
    requires lot > 0.0 && lot <= bid <= cash
    ensures MaxLots(bid, cash, lot) == (bid / lot).Floor
  {
    assert bid / lot <= cash / lot;
  }

  /**
   * One buy with the given bid at the given per-share price. Rejected with BidTooLow when the bid
   * is below one lot, else with NotEnoughMoney when the cash is below one lot; a rejection changes
   * nothing. Otherwise buys the largest affordable lot count within the bid, pays the commission
   * and appends one record.
   */
  function BuyStep(acc: Account, bid: real, price: real, time: int): (r: Result<(int, Account), LedgerError>)
    requires price > 0.0
    ensures bid < LotShares * price ==> r == Err(BidTooLow(LotShares * price, bid))
    ensures bid >= LotShares * price && acc.cash < LotShares * price ==>
      r == Err(NotEnoughMoney(LotShares * price, acc.cash))
    ensures r.Ok? <==> bid >= LotShares * price && acc.cash >= LotShares * price
    ensures r.Ok? ==>
      var (q, a) := r.value;
      var lot := LotShares * price;
      var need := q as real * lot;
      && q >= 1
      && LargestAffordable(q, bid, acc.cash, lot)
      && a.shares == acc.shares + q
      && a.cash == acc.cash - need - Commission(need, acc.commissionRate)
      && a.cash <= acc.cash - need - MinCommission
      && a.totalCommission == acc.totalCommission + Commission(need, acc.commissionRate)
      && a.records == acc.records + [Record(time, a.cash, a.shares)]
      && a.capital == acc.capital && a.totalStampTax == acc.totalStampTax
      && a.stampTaxRate == acc.stampTaxRate && a.commissionRate == acc.commissionRate
    ensures r.Ok? && Consistent(acc) ==> Consistent(r.value.1)
  {
    var lot := LotShares * price;
    if bid < lot then Err(BidTooLow(lot, bid))
    else if acc.cash < lot then Err(NotEnoughMoney(lot, acc.cash))
    else
      var q := MaxLots(bid, acc.cash, lot);
      var need := q as real * lot;
      var fee := Commission(need, acc.commissionRate);
      var cash := acc.cash - need - fee;
      var shares := acc.shares + q;
      Ok((q, acc.(cash := cash, shares := shares, totalCommission := acc.totalCommission + fee,
                  records := acc.records + [Record(time, cash, shares)])))
  }

  /** An accepted buy settles on the lot count MaxLots gives. */
  lemma BuyStepLots(acc: Account, bid: real, price: real, time: int)
    requires price > 0.0 && bid >= LotShares * price && acc.cash >= LotShares * price
    ensures BuyStep(acc, bid, price, time).Ok?
    ensures BuyStep(acc, bid, price, time).value.0 == MaxLots(bid, acc.cash, LotShares * price)
  {
  }

  /** Selling q lots: no holding check; income credited, commission and stamp tax deducted. */
  function SellStep(acc: Account, price: real, time: int, q: int): (a: Account)
    requires price > 0.0 && q >= 1
    ensures var income := q as real * price * LotShares;
      && a.cash == acc.cash + income - Commission(income, acc.commissionRate) - income * acc.stampTaxRate
      && a.shares == acc.shares - q
      && a.totalCommission == acc.totalCommission + Commission(income, acc.commissionRate)
      && a.totalStampTax == acc.totalStampTax + income * acc.stampTaxRate
      && a.records == acc.records + [Record(time, a.cash, a.shares)]
      && a.capital == acc.capital
      && a.stampTaxRate == acc.stampTaxRate && a.commissionRate == acc.commissionRate
    ensures Consistent(acc) ==> Consistent(a)
  {
    var income := q as real * price * LotShares;
    var fee := Commission(income, acc.commissionRate);
    var tax := income * acc.stampTaxRate;
    var cash := acc.cash + income - fee - tax;
    acc.(cash := cash, shares := acc.shares - q, totalCommission := acc.totalCommission + fee,
         totalStampTax := acc.totalStampTax + tax, records := acc.records + [Record(time, cash, acc.shares - q)])
  }

  /** An order a strategy issues to the ledger. */
  datatype Order =
    | BuyRatio(price: real, time: int, ratio: real)       // bid = ratio of current cash
    | BuyPosition(price: real, time: int, position: real) // bid = position of the initial capital
    | Sell(price: real, time: int, quantity: int)

  /** The argument checks the ledger asserts before acting. */
  predicate WellFormed(o: Order) {
    match o
    case BuyRatio(price, _, ratio) => price > 0.0 && 0.0 < ratio <= 1.0
    case BuyPosition(price, _, position) => price > 0.0 && 0.0 < position <= 1.0
    case Sell(price, _, quantity) => price > 0.0 && quantity >= 1
  }

  /** The bid a buy order makes against the account. */
  function Bid(acc: Account, o: Order): real
    requires o.BuyRatio? || o.BuyPosition?
  {
    if o.BuyRatio? then acc.cash * o.ratio else acc.capital * o.position
  }

  function Apply(acc: Account, o: Order): (r: Result<Account, LedgerError>)
    requires WellFormed(o)
    ensures r.Ok? ==> |r.value.records| == |acc.records| + 1 && r.value.records[..|acc.records|] == acc.records
    ensures r.Ok? ==> r.value.capital == acc.capital
    ensures r.Ok? && Consistent(acc) ==> Consistent(r.value)
    ensures o.Sell? ==> r.Ok?
  {
    match o
    case Sell(price, time, q) => Ok(SellStep(acc, price, time, q))
    case _ =>
      match BuyStep(acc, Bid(acc, o), o.price, o.time)
      case Err(e) => Err(e)
      case Ok((_, a)) => Ok(a)
  }

  datatype RunResult = RunResult(account: Account, executed: nat, error: Option<LedgerError>)

  /**
   * Executes orders in turn until one raises; the error ends the run early, and every order
   * executed before it stays on the books.
   */
  function RunOrders(acc: Account, orders: seq<Order>): (r: RunResult)
    requires forall i :: 0 <= i < |orders| ==> WellFormed(orders[i])
    ensures r.executed <= |orders|
    ensures r.error.None? <==> r.executed == |orders|
    ensures |r.account.records| == |acc.records| + r.executed
    ensures r.account.records[..|acc.records|] == acc.records
    ensures r.account.capital == acc.capital
    ensures Consistent(acc) ==> Consistent(r.account)
    ensures r.error.Some? ==> Apply(r.account, orders[r.executed]) == Err(r.error.value)
    decreases |orders|
  {
    if orders == [] then RunResult(acc, 0, None)
    else
      match Apply(acc, orders[0])
      case Err(e) => RunResult(acc, 0, Some(e))
      case Ok(a) =>
        var rest := RunOrders(a, orders[1..]);
        assert rest.error.Some? ==> orders[1..][rest.executed] == orders[rest.executed + 1];
        RunResult(rest.account, rest.executed + 1, rest.error)
  }

  /** A ratio buy is the buy step bidding that ratio of the current cash. */
  lemma ApplyBuyRatio(acc: Account, price: real, time: int, ratio: real, bid: real)
    requires price > 0.0 && 0.0 < ratio <= 1.0 && bid == acc.cash * ratio
    ensures var step := BuyStep(acc, bid, price, time);
      Apply(acc, BuyRatio(price, time, ratio)) == if step.Ok? then Ok(step.value.1) else Err(step.error)
  {
    var o := BuyRatio(price, time, ratio);
    assert Bid(acc, o) == bid;
    var step := BuyStep(acc, bid, price, time);
    if step.Ok? {
      var (q, a) := step.value;
      assert step == Ok((q, a));
    }
  }

  /** A position buy is the buy step bidding that share of the initial capital. */
  lemma ApplyBuyPosition(acc: Account, price: real, time: int, position: real, bid: real)
    requires price > 0.0 && 0.0 < position <= 1.0 && bid == acc.capital * position
    ensures var step := BuyStep(acc, bid, price, time);
      Apply(acc, BuyPosition(price, time, position)) == if step.Ok? then Ok(step.value.1) else Err(step.error)
  {
    var o := BuyPosition(price, time, position);
    assert Bid(acc, o) == bid;
    var step := BuyStep(acc, bid, price, time);
    if step.Ok? {
      var (q, a) := step.value;
      assert step == Ok((q, a));
    }
  }

  /** An order that executes hands the rest of the run the account it produced. */
  lemma RunOrdersStep(acc: Account, orders: seq<Order>)
    requires |orders| > 0 && forall i :: 0 <= i < |orders| ==> WellFormed(orders[i])
    ensures Apply(acc, orders[0]).Err? ==>
      RunOrders(acc, orders).account == acc && RunOrders(acc, orders).error == Some(Apply(acc, orders[0]).error)
    ensures Apply(acc, orders[0]).Ok? ==>
      RunOrders(acc, orders).account == RunOrders(Apply(acc, orders[0]).value, orders[1..]).account
      && RunOrders(acc, orders).error == RunOrders(Apply(acc, orders[0]).value, orders[1..]).error
  {
  }

  /** Buying with ratio 1 bids exactly the cash, so it never has to back off from its lot count. */
  lemma FullRatioBuysBidLots(acc: Account, price: real, time: int)
    requires price > 0.0 && acc.cash >= LotShares * price
    ensures BuyStep(acc, acc.cash * 1.0, price, time).Ok?
    ensures BuyStep(acc, acc.cash * 1.0, price, time).value.0 == (acc.cash / (LotShares * price)).Floor
  {
    BidWithinCashNeedsNoReduction(acc.cash, acc.cash, LotShares * price);
  }
}
