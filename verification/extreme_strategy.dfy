/**
 * The new-extreme demo strategy on one stock's daily series: buy with all the cash when the
 * close breaks above the highest close of the previous m bars, and sell the lots of that buy
 * when the close falls below the lowest close of the previous m bars.
 */
module ExtremeStrategy {
  import opened Common
  import opened Ledger
  import DataStruct
  import Front

  /** The largest value of a non-empty sequence of prices (numpy's max). */
  function MaxOf(s: seq<real>): real
    requires |s| > 0
  {
    if |s| == 1 then s[0]
    else
      var rest := MaxOf(s[1..]);
      if s[0] >= rest then s[0] else rest
  }

  /** The smallest value of a non-empty sequence of prices (numpy's min). */
  function MinOf(s: seq<real>): real
    requires |s| > 0
  {
    if |s| == 1 then s[0]
    else
      var rest := MinOf(s[1..]);
      if s[0] <= rest then s[0] else rest
  }

  /** MaxOf is an element of the sequence and no element exceeds it; MinOf likewise from below. */
  lemma {:induction false} ExtremesOfSeq(s: seq<real>)
    requires |s| > 0
    ensures exists j :: 0 <= j < |s| && s[j] == MaxOf(s)
    ensures exists j :: 0 <= j < |s| && s[j] == MinOf(s)
    ensures forall j :: 0 <= j < |s| ==> MinOf(s) <= s[j] <= MaxOf(s)
  {
    if |s| > 1 {
      ExtremesOfSeq(s[1..]);
      assert forall j :: 1 <= j < |s| ==> s[j] == s[1..][j - 1];
      var jh :| 0 <= jh < |s[1..]| && s[1..][jh] == MaxOf(s[1..]);
      var jl :| 0 <= jl < |s[1..]| && s[1..][jl] == MinOf(s[1..]);
      assert s[jh + 1] == MaxOf(s[1..]) && s[jl + 1] == MinOf(s[1..]);
      assert MinOf(s) <= MinOf(s[1..]) && MaxOf(s[1..]) <= MaxOf(s);
      assert MinOf(s) <= s[0] <= MaxOf(s);
      assert MaxOf(s) == s[0] || MaxOf(s) == s[jh + 1];
      assert MinOf(s) == s[0] || MinOf(s) == s[jl + 1];
    } else {
      assert MaxOf(s) == s[0] && MinOf(s) == s[0];
    }
  }

  /**
   * The highest close of the m bars strictly before bar i; None (NaN in the source) while
   * fewer than m bars precede it.
   */
  function HighestBefore(close: seq<real>, m: int, i: nat): (h: Option<real>)
    requires i < |close| && m >= 1
    ensures h.None? <==> i < m
  {
    if i < m then None else Some(MaxOf(close[i - m..i]))
  }

  /** The lowest close of the m bars strictly before bar i; None while fewer than m bars precede it. */
  function LowestBefore(close: seq<real>, m: int, i: nat): (l: Option<real>)
    requires i < |close| && m >= 1
    ensures l.None? <==> i < m
  {
    if i < m then None else Some(MinOf(close[i - m..i]))
  }

  /**
   * Once defined, the highest and lowest closes are closes of the m bars before bar i, bar i
   * itself excluded, and bound every close of those bars from above and from below.
   */
  lemma WindowExtremes(close: seq<real>, m: int, i: nat)
    requires i < |close| && m >= 1 && i >= m
    ensures var h, l := HighestBefore(close, m, i).value, LowestBefore(close, m, i).value;
      && (exists j :: i - m <= j < i && close[j] == h)
      && (exists j :: i - m <= j < i && close[j] == l)
      && (forall j :: i - m <= j < i ==> l <= close[j] <= h)
  {
    var w := close[i - m..i];
    ExtremesOfSeq(w);
    assert forall j :: i - m <= j < i ==> close[j] == w[j - (i - m)];
    var jh :| 0 <= jh < |w| && w[jh] == MaxOf(w);
    var jl :| 0 <= jl < |w| && w[jl] == MinOf(w);
    assert close[jh + i - m] == MaxOf(w) && close[jl + i - m] == MinOf(w);
  }

  /**
   * Fills the highest and lowest arrays with a window of the previous m closes: during the
   * first m bars each close only joins the window; afterwards the window's extremes are
   * recorded, its oldest close leaves it and the current close joins it. With m < 1 and a
   * non-empty series the source takes the maximum of an empty window, which raises.
   */
  method ExtremePrice(close: seq<real>, m: int) returns (highest: array<Option<real>>, lowest: array<Option<real>>)
    requires |close| > 0 ==> m >= 1
    ensures fresh(highest) && fresh(lowest)
    ensures highest.Length == |close| && lowest.Length == |close|
    ensures forall i :: 0 <= i < |close| ==> highest[i] == HighestBefore(close, m, i)
    ensures forall i :: 0 <= i < |close| ==> lowest[i] == LowestBefore(close, m, i)
  {
    var window: seq<real> := [];
    highest := new Option<real>[|close|](_ => None);
    lowest := new Option<real>[|close|](_ => None);
    for i := 0 to |close|
      invariant m >= 1 ==> window == close[if i < m then 0 else i - m..i]
      invariant forall j :: 0 <= j < i ==> highest[j] == HighestBefore(close, m, j)
      invariant forall j :: 0 <= j < i ==> lowest[j] == LowestBefore(close, m, j)
    {
      if i < m {
        Store(highest, lowest, i, None, None);
        window := window + [close[i]];
      } else {
        assert window == close[i - m..i];
        Store(highest, lowest, i, Some(MaxOf(window)), Some(MinOf(window)));
        window := window[1..] + [close[i]];
        assert window == close[i + 1 - m..i + 1];
      }
    }
  }

  /** Writes the two extremes of bar i; every other entry of both arrays is left as it was. */
  method Store(highest: array<Option<real>>, lowest: array<Option<real>>, i: nat, h: Option<real>, l: Option<real>)
    requires i < highest.Length && i < lowest.Length && highest != lowest
    modifies highest, lowest
    ensures highest[i] == h && lowest[i] == l
    ensures forall j :: 0 <= j < highest.Length && j != i ==> highest[j] == old(highest[j])
    ensures forall j :: 0 <= j < lowest.Length && j != i ==> lowest[j] == old(lowest[j])
  {
    highest[i], lowest[i] := h, l;
  }

  /**
   * The table the trading loop walks: each bar's close and timestamp with the highest and
   * lowest closes before it.
   */
  datatype Table = Table(close: seq<real>, times: seq<int>, highest: seq<Option<real>>, lowest: seq<Option<real>>)

  /** Columns of one length, positive closes, and a low never above the high where both are defined. */
  predicate Sound(t: Table) {
    && |t.times| == |t.close| && |t.highest| == |t.close| && |t.lowest| == |t.close|
    && (forall k :: 0 <= k < |t.close| ==> t.close[k] > 0.0)
    && (forall k :: 0 <= k < |t.close| && t.highest[k].Some? && t.lowest[k].Some? ==>
          t.lowest[k].value <= t.highest[k].value)
  }

  /** The extreme columns of a daily series, the table the strategy trades on. */
  function ExtremeTable(close: seq<real>, times: seq<int>, m: int): (t: Table)
    requires |times| == |close| && m >= 1
    ensures |t.highest| == |close| && |t.lowest| == |close| && t.close == close && t.times == times
    ensures forall k :: 0 <= k < |close| ==> t.highest[k] == HighestBefore(close, m, k) && t.lowest[k] == LowestBefore(close, m, k)
  {
    Table(close, times,
          seq(|close|, k requires 0 <= k < |close| => HighestBefore(close, m, k)),
          seq(|close|, k requires 0 <= k < |close| => LowestBefore(close, m, k)))
  }

  predicate PositiveCloses(close: seq<real>) {
    forall k :: 0 <= k < |close| ==> close[k] > 0.0
  }

  /** The extreme table of positive closes is sound: a window's lowest close is never above its highest. */
  lemma ExtremeTableSound(close: seq<real>, times: seq<int>, m: int)
    requires |times| == |close| && m >= 1 && PositiveCloses(close)
    ensures Sound(ExtremeTable(close, times, m))
  {
    var t := ExtremeTable(close, times, m);
    forall k | 0 <= k < |close| && t.highest[k].Some? && t.lowest[k].Some?
      ensures t.lowest[k].value <= t.highest[k].value
    {
      WindowExtremes(close, m, k);
      assert t.lowest[k].value <= close[k - m] <= t.highest[k].value;
    }
  }

  /** Both extremes are defined at bar k: the source skips bars where either is NaN. */
  predicate Defined(t: Table, k: nat)
    requires Sound(t) && k < |t.close|
  {
    t.highest[k].Some? && t.lowest[k].Some?
  }

  predicate BuySignal(t: Table, k: nat)
    requires Sound(t) && k < |t.close|
  {
    Defined(t, k) && t.close[k] > t.highest[k].value
  }

  predicate SellSignal(t: Table, k: nat)
    requires Sound(t) && k < |t.close|
  {
    Defined(t, k) && t.close[k] < t.lowest[k].value
  }

  /** One trade of the strategy: the bar it happened at and the board lots traded. */
  datatype Trade = Bought(bar: nat, lots: int) | Sold(bar: nat, lots: int)

  /** The strategy's own bookkeeping: the trades so far, the hold flag and the lots of the last buy. */
  datatype Position = Position(trades: seq<Trade>, holding: bool, lots: int)

  /** No trade yet and nothing held. */
  const Flat := Position([], false, 0)

  /** The position after buying q lots at bar k. */
  function Opened(p: Position, k: nat, q: int): Position {
    Position(p.trades + [Bought(k, q)], true, q)
  }

  /** The position after selling, at bar k, the lots of the last buy. */
  function Closed(p: Position, k: nat): Position {
    Position(p.trades + [Sold(k, p.lots)], false, p.lots)
  }

  /** The strategy between two bars: the ledger's account and the strategy's position. */
  datatype Session = Session(account: Account, position: Position)

  /** Where the trading loop stopped: the session then, and the ledger error that stopped it, if any. */
  datatype Outcome = Outcome(session: Session, error: Option<LedgerError>)

  /** A buy with ratio 1 that the ledger accepts buys at least one lot. */
  lemma FullBuyGainsLots(acc: Account, price: real, time: int)
    requires price > 0.0
    ensures Apply(acc, Order.BuyRatio(price, time, 1.0)).Ok? ==>
      Apply(acc, Order.BuyRatio(price, time, 1.0)).value.shares >= acc.shares + 1
  {
    var bid := acc.cash * 1.0;
    ApplyBuyRatio(acc, price, time, 1.0, bid);
  }

  /**
   * The first half of a bar: when flat and the close breaks above the window's high, buy with
   * all the cash and remember the lots bought; a refused buy stops the strategy.
   */
  function BuyPhase(s: Session, t: Table, k: nat): (r: Result<Session, LedgerError>)
    requires Sound(t) && k < |t.close|
    ensures !(!s.position.holding && BuySignal(t, k)) ==> r == Ok(s)
    ensures !s.position.holding && BuySignal(t, k) ==>
      var a := Apply(s.account, Order.BuyRatio(t.close[k], t.times[k], 1.0));
      && (a.Err? ==> r == Err(a.error))
      && (a.Ok? ==> r.Ok? && r.value.account == a.value && a.value.shares >= s.account.shares + 1
                    && r.value.position == Opened(s.position, k, a.value.shares - s.account.shares))
  {
    if !s.position.holding && BuySignal(t, k) then
      var a := Apply(s.account, Order.BuyRatio(t.close[k], t.times[k], 1.0));
      FullBuyGainsLots(s.account, t.close[k], t.times[k]);
      if a.Err? then Err(a.error)
      else Ok(Session(a.value, Opened(s.position, k, a.value.shares - s.account.shares)))
    else Ok(s)
  }

  /** The second half of a bar: when holding and the close falls below the window's low, sell the lots of the last buy. */
  function SellPhase(s: Session, t: Table, k: nat): Session
    requires Sound(t) && k < |t.close|
    requires s.position.holding ==> s.position.lots >= 1
  {
    if s.position.holding && SellSignal(t, k) then
      Session(SellStep(s.account, t.close[k], t.times[k], s.position.lots), Closed(s.position, k))
    else s
  }

  /** The trading loop over bars k.. of the table; bars where an extreme is undefined are skipped. */
  function Trading(s: Session, t: Table, k: nat): (o: Outcome)
    requires Sound(t) && k <= |t.close|
    requires s.position.holding ==> s.position.lots >= 1
    decreases |t.close| - k
  {
    if k == |t.close| then Outcome(s, None)
    else if !Defined(t, k) then Trading(s, t, k + 1)
    else
      match BuyPhase(s, t, k)
      case Err(e) => Outcome(s, Some(e))
      case Ok(b) => Trading(SellPhase(b, t, k), t, k + 1)
  }

  /** A trade happened on its signal: a buy of at least one lot above the window's high, a sell below its low. */
  predicate Justified(tr: Trade, t: Table)
    requires Sound(t)
  {
    && tr.bar < |t.close|
    && (tr.Bought? ==> BuySignal(t, tr.bar) && tr.lots >= 1)
    && (tr.Sold? ==> SellSignal(t, tr.bar))
  }

  /**
   * Trade i follows trade i - 1: a buy follows a sell and a sell a buy, on a later bar, and a
   * sell sells the lots of the buy it follows.
   */
  predicate Follows(ts: seq<Trade>, i: nat)
    requires 0 < i < |ts|
  {
    && (ts[i].Bought? <==> ts[i - 1].Sold?)
    && ts[i - 1].bar < ts[i].bar
    && (ts[i].Sold? ==> ts[i].lots == ts[i - 1].lots)
  }

  /**
   * The trades so far alternate buy, sell, buy, ..., starting with a buy, on strictly
   * increasing bars before k, each on its signal; each sell sells the lots of the buy before it;
   * the hold flag is set exactly after a buy and then remembers that buy's lots.
   */
  ghost predicate Alternating(p: Position, t: Table, k: nat)
    requires Sound(t)
  {
    && (|p.trades| > 0 ==> p.trades[0].Bought?)
    && (forall i :: 0 < i < |p.trades| ==> Follows(p.trades, i))
    && (forall i :: 0 <= i < |p.trades| ==> Justified(p.trades[i], t) && p.trades[i].bar < k)
    && (p.holding <==> |p.trades| > 0 && p.trades[|p.trades| - 1].Bought?)
    && (p.holding ==> p.lots >= 1 && p.trades[|p.trades| - 1].lots == p.lots)
  }

  /** A buy on its signal while flat keeps the trades alternating. */
  lemma OpenedAlternates(p: Position, t: Table, k: nat, q: int)
    requires Sound(t) && k < |t.close| && q >= 1
    requires Alternating(p, t, k) && !p.holding && BuySignal(t, k)
    ensures Alternating(Opened(p, k, q), t, k + 1)
  {
    var ts := Opened(p, k, q).trades;
    assert forall i :: 0 <= i < |p.trades| ==> ts[i] == p.trades[i];
    forall i | 0 < i < |ts| ensures Follows(ts, i) {
      if i < |p.trades| {
        assert Follows(p.trades, i);
      }
    }
  }

  /** A sell on its signal while holding keeps the trades alternating, even right after a buy on the same bar. */
  lemma ClosedAlternates(p: Position, t: Table, k: nat)
    requires Sound(t) && k < |t.close|
    requires Alternating(p, t, k + 1) && p.holding && SellSignal(t, k)
    ensures Alternating(Closed(p, k), t, k + 1)
  {
    var last := p.trades[|p.trades| - 1];
    assert BuySignal(t, last.bar);
    assert last.bar != k;
    var ts := Closed(p, k).trades;
    assert forall i :: 0 <= i < |p.trades| ==> ts[i] == p.trades[i];
    forall i | 0 < i < |ts| ensures Follows(ts, i) {
      if i < |p.trades| {
        assert Follows(p.trades, i);
      }
    }
  }

  /** One bar keeps the trades alternating. */
  lemma BarAlternates(s: Session, t: Table, k: nat)
    requires Sound(t) && k < |t.close|
    requires Alternating(s.position, t, k)
    ensures BuyPhase(s, t, k).Ok? ==> Alternating(SellPhase(BuyPhase(s, t, k).value, t, k).position, t, k + 1)
  {
    var r := BuyPhase(s, t, k);
    if r.Ok? {
      var b := r.value;
      if !s.position.holding && BuySignal(t, k) {
        OpenedAlternates(s.position, t, k, b.account.shares - s.account.shares);
      }
      assert Alternating(b.position, t, k + 1);
      if b.position.holding && SellSignal(t, k) {
        ClosedAlternates(b.position, t, k);
      }
    }
  }

  /** Whatever bars remain, the session the loop ends in still has alternating, justified trades. */
  lemma {:induction false} TradingAlternates(s: Session, t: Table, k: nat)
    requires Sound(t) && k <= |t.close|
    requires Alternating(s.position, t, k)
    ensures Alternating(Trading(s, t, k).session.position, t, |t.close|)
    decreases |t.close| - k
  {
    if k == |t.close| {
    } else if !Defined(t, k) {
      TradingAlternates(s, t, k + 1);
    } else {
      BarAlternates(s, t, k);
      match BuyPhase(s, t, k)
      case Err(_) =>
      case Ok(b) =>
        TradingAlternates(SellPhase(b, t, k), t, k + 1);
    }
  }

  /** The loop only appends trades, each at a bar it reached: the trades it starts with stay a prefix. */
  lemma {:induction false} TradingExtends(s: Session, t: Table, k: nat)
    requires Sound(t) && k <= |t.close|
    requires s.position.holding ==> s.position.lots >= 1
    ensures var ts := Trading(s, t, k).session.position.trades;
      && |s.position.trades| <= |ts| && ts[..|s.position.trades|] == s.position.trades
      && forall i :: |s.position.trades| <= i < |ts| ==> k <= ts[i].bar
    decreases |t.close| - k
  {
    if k < |t.close| && !Defined(t, k) {
      TradingExtends(s, t, k + 1);
    } else if k < |t.close| {
      match BuyPhase(s, t, k)
      case Err(_) =>
      case Ok(b) =>
        var s' := SellPhase(b, t, k);
        TradingExtends(s', t, k + 1);
        var ts := Trading(s', t, k + 1).session.position.trades;
        assert ts[..|s.position.trades|] == ts[..|s'.position.trades|][..|s.position.trades|];
    }
  }

  function Closes(rows: seq<Row>): (cs: seq<real>)
    ensures |cs| == |rows|
    ensures forall i :: 0 <= i < |rows| ==> cs[i] == rows[i].bar.close
  {
    seq(|rows|, i requires 0 <= i < |rows| => rows[i].bar.close)
  }

  /** Errors that stop the strategy: its own assertion, a missing daily series, an empty window, a refused buy. */
  datatype StrategyError =
    | NotOneStock(count: nat)
    | NoDailySeries
    | EmptyWindow
    | Refused(error: LedgerError)

  /** The bar trading starts at: after the nAhead lead-in rows, or none when the series is shorter. */
  function StartBar(rows: seq<Row>, nAhead: nat): (k: nat)
    ensures k <= |rows|
  {
    if nAhead <= |rows| then nAhead else |rows|
  }

  /**
   * What the strategy does to an account given the stock's daily rows: trading starts after the
   * nAhead lead-in bars with nothing held, and its trades alternate on their signals.
   */
  function Strategy(acc: Account, rows: seq<Row>, m: int, nAhead: nat): (r: Result<Outcome, StrategyError>)
    requires PositiveCloses(Closes(rows))
    ensures r.Err? <==> |rows| > 0 && m < 1
    ensures r.Ok? && m >= 1 ==>
      Sound(ExtremeTable(Closes(rows), Times(rows), m))
      && Alternating(r.value.session.position, ExtremeTable(Closes(rows), Times(rows), m), |rows|)
  {
    var start := Session(acc, Flat);
    if |rows| > 0 && m < 1 then Err(EmptyWindow)
    else if m < 1 then Ok(Outcome(start, None))
    else
      var t := ExtremeTable(Closes(rows), Times(rows), m);
      ExtremeTableSound(Closes(rows), Times(rows), m);
      TradingAlternates(start, t, StartBar(rows, nAhead));
      Ok(Trading(start, t, StartBar(rows, nAhead)))
  }

  /**
   * A trade broke out of the m bars before it: a buy closed above every one of their closes, a
   * sell below every one of them.
   */
  predicate BrokeOut(rows: seq<Row>, m: int, tr: Trade) {
    && m <= tr.bar < |rows|
    && (tr.Bought? ==> forall j :: tr.bar - m <= j < tr.bar ==> rows[j].bar.close < rows[tr.bar].bar.close)
    && (tr.Sold? ==> forall j :: tr.bar - m <= j < tr.bar ==> rows[tr.bar].bar.close < rows[j].bar.close)
  }

  /** A trade justified on the extreme table of a daily series broke out of the m bars before it. */
  lemma {:induction false} JustifiedBreaksOut(rows: seq<Row>, m: int, tr: Trade)
    requires m >= 1 && PositiveCloses(Closes(rows))
    requires Sound(ExtremeTable(Closes(rows), Times(rows), m)) && Justified(tr, ExtremeTable(Closes(rows), Times(rows), m))
    ensures BrokeOut(rows, m, tr)
  {
    var close := Closes(rows);
    var t := ExtremeTable(close, Times(rows), m);
    assert t.highest[tr.bar].Some? && t.lowest[tr.bar].Some?;
    WindowExtremes(close, m, tr.bar);
    var h, l := HighestBefore(close, m, tr.bar).value, LowestBefore(close, m, tr.bar).value;
    forall j | tr.bar - m <= j < tr.bar
      ensures tr.Bought? ==> rows[j].bar.close < rows[tr.bar].bar.close
      ensures tr.Sold? ==> rows[tr.bar].bar.close < rows[j].bar.close
    {
      assert l <= close[j] <= h;
    }
  }

  /**
   * In plain terms: every trade of the strategy comes after the lead-in and broke out of the m
   * bars before it; the first trade is a buy, and each later trade follows the one before it
   * (alternating, on a later bar, the sell taking the lots of the buy).
   */
  lemma {:induction false} StrategyBreaksOut(acc: Account, rows: seq<Row>, m: int, nAhead: nat)
    requires PositiveCloses(Closes(rows)) && m >= 1
    ensures var ts := Strategy(acc, rows, m, nAhead).value.session.position.trades;
      && (forall i :: 0 <= i < |ts| ==> StartBar(rows, nAhead) <= ts[i].bar && BrokeOut(rows, m, ts[i]))
      && (|ts| > 0 ==> ts[0].Bought?)
      && (forall i :: 0 < i < |ts| ==> Follows(ts, i))
  {
    var t := ExtremeTable(Closes(rows), Times(rows), m);
    var p := Strategy(acc, rows, m, nAhead).value.session.position;
    TradingExtends(Session(acc, Flat), t, StartBar(rows, nAhead));
    assert p == Trading(Session(acc, Flat), t, StartBar(rows, nAhead)).session.position;
    forall i | 0 <= i < |p.trades|
      ensures BrokeOut(rows, m, p.trades[i])
    {
      assert Justified(p.trades[i], t);
      JustifiedBreaksOut(rows, m, p.trades[i]);
    }
  }

  /**
   * The trading loop of the strategy against the session's ledger: bars before `start` and bars
   * where an extreme is still undefined are skipped; a buy spends all the cash, a sell sells the
   * lots of the last buy. A refused buy stops the loop and is returned.
   */
  method TradeBars(ag: Front.Agares, code: string, close: seq<real>, times: seq<int>, start: nat,
                   highest: array<Option<real>>, lowest: array<Option<real>>)
    returns (error: Option<LedgerError>, ghost s: Session)
    requires Sound(Table(close, times, highest[..], lowest[..])) && start <= |close| && ag.unit.Rated()
    modifies ag, ag.unit
    ensures ag.unit.Rated() && ag.unit.cst == old(ag.unit.cst) && ag.unit.timescope == old(ag.unit.timescope)
    ensures Trading(Session(old(ag.unit.State()), Flat), Table(close, times, highest[..], lowest[..]), start) == Outcome(s, error)
    ensures ag.unit.State() == s.account
    ensures ag.tradingStocks == old(ag.tradingStocks) + (if s.position.trades == [] then {} else {code})
  {
    ghost var t := Table(close, times, highest[..], lowest[..]);
    ghost var s0 := Session(ag.unit.State(), Flat);
    s := s0;
    var holding := false;
    var quantity := 0;
    var k := start;
    while k < |close|
      invariant start <= k <= |close|
      invariant ag.unit.Rated() && ag.unit.cst == old(ag.unit.cst) && ag.unit.timescope == old(ag.unit.timescope)
      invariant s.account == ag.unit.State() && s.position.holding == holding && s.position.lots == quantity
      invariant holding ==> quantity >= 1
      invariant Trading(s0, t, start) == Trading(s, t, k)
      invariant ag.tradingStocks == old(ag.tradingStocks) + (if s.position.trades == [] then {} else {code})
      decreases |close| - k
    {
      if highest[k].None? || lowest[k].None? {
        k := k + 1;
      } else {
        var price := close[k];
        ghost var b := BuyPhase(s, t, k);
        if !holding && price > highest[k].value {
          var bought := ag.Buy(code, price, times[k], map["ratio" := 1.0]);
          if bought.Err? {
            return Some(bought.error.error), s;
          }
          quantity := bought.value.0;
          holding := true;
        }
        s := b.value;
        if holding && price < lowest[k].value {
          var _, _ := ag.Sell(code, price, times[k], quantity);
          holding := false;
        }
        s := SellPhase(s, t, k);
        k := k + 1;
      }
    }
    error := None;
  }

  /**
   * The strategy's entry point: the single stock's daily closes give the extreme-price columns,
   * then the bars after the nAhead lead-in are traded. More or fewer than one stock, a missing
   * daily series, or an empty window over a non-empty series stop it before any trade.
   */
  method ComputeTradingPoints(ag: Front.Agares, stocks: map<string, DataStruct.PStock>, m: int, nAhead: nat)
    returns (r: Result<(), StrategyError>)
    requires ag.unit.Rated()
    requires forall c :: c in stocks && Day1 in stocks[c].cst ==> PositiveCloses(Closes(stocks[c].cst[Day1]))
    modifies ag, ag.unit
    ensures ag.unit.Rated() && ag.unit.cst == old(ag.unit.cst) && ag.unit.timescope == old(ag.unit.timescope)
    ensures |stocks| != 1 ==>
      r == Err(NotOneStock(|stocks|)) && ag.unit.State() == old(ag.unit.State())
      && ag.tradingStocks == old(ag.tradingStocks)
    ensures forall c :: c in stocks && |stocks| == 1 && Day1 !in stocks[c].cst ==>
      r == Err(NoDailySeries) && ag.unit.State() == old(ag.unit.State())
      && ag.tradingStocks == old(ag.tradingStocks)
    ensures forall c :: c in stocks && |stocks| == 1 && Day1 in stocks[c].cst ==>
      match Strategy(old(ag.unit.State()), stocks[c].cst[Day1], m, nAhead)
      case Err(e) => r == Err(e) && ag.unit.State() == old(ag.unit.State())
                     && ag.tradingStocks == old(ag.tradingStocks)
      case Ok(o) => ag.unit.State() == o.session.account
                    && ag.tradingStocks == old(ag.tradingStocks) + (if o.session.position.trades == [] then {} else {c})
                    && (o.error.None? ==> r == Ok(()))
                    && (o.error.Some? ==> r == Err(Refused(o.error.value)))
  {
    if |stocks| != 1 {
      return Err(NotOneStock(|stocks|));
    }
    var code :| code in stocks;
    assert stocks.Keys == {code} by {
      assert |stocks.Keys - {code}| == 0;
    }
    var pstock := stocks[code];
    if Day1 !in pstock.cst {
      return Err(NoDailySeries);
    }
    var rows := pstock.cst[Day1];
    var close := Closes(rows);
    if |close| > 0 && m < 1 {
      return Err(EmptyWindow);
    }
    if m < 1 {
      return Ok(());
    }
    var highest, lowest := ExtremePrice(close, m);
    ghost var t := ExtremeTable(close, Times(rows), m);
    assert highest[..] == t.highest && lowest[..] == t.lowest;
    ExtremeTableSound(close, Times(rows), m);
    var error, s := TradeBars(ag, code, close, Times(rows), StartBar(rows, nAhead), highest, lowest);
    r := if error.None? then Ok(()) else Err(Refused(error.value));
  }
}
