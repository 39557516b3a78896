/**
 * The analysis room: loads every named series, grouping the series of one stock code into one
 * PStock, takes the Shenzhen index's daily series as the reference time axis, and synthesises a
 * bar for every axis time a stock's daily series lacks.
 */
module Analysis {
  import opened Common
  import opened DataStruct

  /** The bar a series holds at time t (its first row at t), if any. */
  function Lookup(series: seq<Row>, t: int): (b: Option<Bar>)
    ensures b.Some? <==> exists k :: 0 <= k < |series| && series[k].time == t
    ensures b.Some? ==> exists k :: 0 <= k < |series| && series[k] == Row(t, b.value)
  {
    if series == [] then None
    else if series[0].time == t then Some(series[0].bar)
    else
      var b := Lookup(series[1..], t);
      assert forall k :: 0 <= k < |series| - 1 ==> series[1..][k] == series[k + 1];
      assert b.None? ==> forall k :: 0 <= k < |series| ==> series[k].time != t by {
        if b.None? {
          forall k | 0 <= k < |series| ensures series[k].time != t {
            if k > 0 {
              assert series[1..][k - 1] == series[k];
            }
          }
        }
      }
      b
  }

  /** The bar of the last axis time before index j that the series has; None while there is none. */
  function LatestSeen(series: seq<Row>, axis: seq<int>, j: nat): (b: Option<Bar>)
    requires j <= |axis|
    decreases j
  {
    if j == 0 then None
    else if Lookup(series, axis[j - 1]).Some? then Lookup(series, axis[j - 1])
    else LatestSeen(series, axis, j - 1)
  }

  /** The bar that stands in for a missing one: the last one seen, or all zeros before any. */
  function FillBar(last: Option<Bar>): Bar {
    if last.Some? then last.value else ZeroBar
  }

  /**
   * The rows synthesised for the first n axis times: one for each time the series lacks, in axis
   * order, carrying the bar of the latest earlier axis time the series has.
   */
  function Filled(series: seq<Row>, axis: seq<int>, n: nat): (rows: seq<Row>)
    requires n <= |axis|
    ensures |rows| <= n
  {
    if n == 0 then []
    else
      Filled(series, axis, n - 1)
      + (if Lookup(series, axis[n - 1]).Some? then [] else [Row(axis[n - 1], FillBar(LatestSeen(series, axis, n - 1)))])
  }

  /** LatestSeen is None exactly while no earlier axis time is present in the series. */
  lemma {:induction false} LatestSeenNone(series: seq<Row>, axis: seq<int>, j: nat)
    requires j <= |axis|
    ensures LatestSeen(series, axis, j).None? <==> forall i :: 0 <= i < j ==> Lookup(series, axis[i]).None?
    decreases j
  {
    if j > 0 {
      LatestSeenNone(series, axis, j - 1);
    }
  }

  /** Otherwise it is the bar of the most recent earlier axis time the series has. */
  lemma {:induction false} LatestSeenIsMostRecent(series: seq<Row>, axis: seq<int>, j: nat)
    requires j <= |axis| && LatestSeen(series, axis, j).Some?
    ensures exists i :: (0 <= i < j && Lookup(series, axis[i]) == LatestSeen(series, axis, j)
                         && forall m :: i < m < j ==> Lookup(series, axis[m]).None?)
    decreases j
  {
    if Lookup(series, axis[j - 1]).Some? {
      assert Lookup(series, axis[j - 1]) == LatestSeen(series, axis, j);
    } else {
      LatestSeenIsMostRecent(series, axis, j - 1);
      var i :| 0 <= i < j - 1 && Lookup(series, axis[i]) == LatestSeen(series, axis, j - 1)
               && forall m :: i < m < j - 1 ==> Lookup(series, axis[m]).None?;
      assert forall m :: i < m < j ==> Lookup(series, axis[m]).None?;
    }
  }

  /**
   * The k-th synthesised row stands for an axis time j the series lacks, and carries the bar
   * seen last before it (all zeros when none has been seen yet).
   */
  lemma {:induction false} FilledRowSource(series: seq<Row>, axis: seq<int>, n: nat, k: nat) returns (j: nat)
    requires n <= |axis| && k < |Filled(series, axis, n)|
    ensures j < n && Lookup(series, axis[j]).None?
    ensures Filled(series, axis, n)[k] == Row(axis[j], FillBar(LatestSeen(series, axis, j)))
    decreases n
  {
    var pre := Filled(series, axis, n - 1);
    var absent := Lookup(series, axis[n - 1]).None?;
    var tail := if absent then [Row(axis[n - 1], FillBar(LatestSeen(series, axis, n - 1)))] else [];
    assert Filled(series, axis, n) == pre + tail;
    if k < |pre| {
      j := FilledRowSource(series, axis, n - 1, k);
      assert Filled(series, axis, n)[k] == pre[k];
    } else {
      j := n - 1;
      assert absent && Filled(series, axis, n)[k] == tail[0];
    }
  }

  /** The row stands for an axis time before index n that the series lacks. */
  ghost predicate StandsForAbsent(series: seq<Row>, axis: seq<int>, n: nat, row: Row)
    requires n <= |axis|
  {
    exists j :: 0 <= j < n && Lookup(series, axis[j]).None? && row == Row(axis[j], FillBar(LatestSeen(series, axis, j)))
  }

  /** Every synthesised row stands for an axis time the series lacks. */
  lemma FilledRowsAreAbsent(series: seq<Row>, axis: seq<int>, n: nat)
    requires n <= |axis|
    ensures forall k :: 0 <= k < |Filled(series, axis, n)| ==> StandsForAbsent(series, axis, n, Filled(series, axis, n)[k])
  {
    forall k | 0 <= k < |Filled(series, axis, n)|
      ensures StandsForAbsent(series, axis, n, Filled(series, axis, n)[k])
    {
      var j := FilledRowSource(series, axis, n, k);
    }
  }

  /** Every axis time the series lacks gets a synthesised row. */
  lemma {:induction false} AbsentTimesAreFilled(series: seq<Row>, axis: seq<int>, n: nat)
    requires n <= |axis|
    ensures forall j :: 0 <= j < n && Lookup(series, axis[j]).None? ==>
      exists k :: 0 <= k < |Filled(series, axis, n)| && Filled(series, axis, n)[k].time == axis[j]
    decreases n
  {
    if n > 0 {
      AbsentTimesAreFilled(series, axis, n - 1);
      var rows := Filled(series, axis, n);
      var pre := Filled(series, axis, n - 1);
      forall j | 0 <= j < n && Lookup(series, axis[j]).None?
        ensures exists k :: 0 <= k < |rows| && rows[k].time == axis[j]
      {
        if j < n - 1 {
          var k :| 0 <= k < |pre| && pre[k].time == axis[j];
          assert rows[k] == pre[k];
        } else {
          assert rows[|rows| - 1].time == axis[j];
        }
      }
      assert rows == Filled(series, axis, n);
    }
  }

  /** On an increasing axis the synthesised rows come out in increasing time order. */
  lemma {:induction false} FilledInAxisOrder(series: seq<Row>, axis: seq<int>, n: nat)
    requires n <= |axis|
    requires forall i, j :: 0 <= i < j < |axis| ==> axis[i] < axis[j]
    ensures StrictlyIncreasing(Filled(series, axis, n))
    ensures forall k :: 0 <= k < |Filled(series, axis, n)| ==>
      exists j :: 0 <= j < n && Filled(series, axis, n)[k].time == axis[j]
    decreases n
  {
    if n > 0 {
      FilledInAxisOrder(series, axis, n - 1);
      var rows := Filled(series, axis, n);
      var pre := Filled(series, axis, n - 1);
      assert forall k :: 0 <= k < |pre| ==> rows[k] == pre[k];
      assert forall k :: 0 <= k < |pre| ==> pre[k].time < axis[n - 1];
      forall k | 0 <= k < |rows| ensures exists j :: 0 <= j < n && rows[k].time == axis[j] {
        if k < |pre| {
          var j :| 0 <= j < n - 1 && pre[k].time == axis[j];
        } else {
          assert rows[k].time == axis[n - 1];
        }
      }
    }
  }

  /**
   * The gap-filling scan: walks the axis with a flag that stays up until the series first has
   * a bar; missing times are filled with zeros while it is up and with the last bar seen after.
   */
  method FillMissing(series: seq<Row>, axis: seq<int>) returns (missing: seq<Row>)
    ensures missing == Filled(series, axis, |axis|)
  {
    missing := [];
    var atBegin := true;
    var lastNormal: Option<Bar> := None;
    for i := 0 to |axis|
      invariant missing == Filled(series, axis, i)
      invariant atBegin <==> LatestSeen(series, axis, i).None?
      invariant !atBegin ==> lastNormal.Some? && LatestSeen(series, axis, i) == lastNormal
    {
      var found := Lookup(series, axis[i]);
      if atBegin {
        if found.None? {
          missing := missing + [Row(axis[i], ZeroBar)];
        } else {
          lastNormal := found;
          atBegin := false;
        }
      } else {
        if found.None? {
          missing := missing + [Row(axis[i], lastNormal.value)];
        } else {
          lastNormal := found;
        }
      }
    }
  }

  /**
   * Fills one stock's missing daily rows into its missingCst, leaving its loaded series alone;
   * a stock without a daily series is left unchanged and reported.
   */
  method FillStock(p: PStock, axis: seq<int>) returns (filled: bool)
    modifies p
    ensures p.cst == old(p.cst)
    ensures filled <==> Day1 in p.cst
    ensures filled ==> p.missingCst == old(p.missingCst)[Day1 := Filled(p.cst[Day1], axis, |axis|)]
    ensures !filled ==> p.missingCst == old(p.missingCst)
  {
    if Day1 !in p.cst {
      return false;
    }
    var rows := FillMissing(p.cst[Day1], axis);
    p.missingCst := p.missingCst[Day1 := rows];
    filled := true;
  }

  /**
   * Where one stock stands in the filling: its loaded series as they were, and its missingCst
   * as it was or, once the stock is done, with the filled daily rows added.
   */
  ghost predicate FillProgress(p: PStock, cst0: map<Period, seq<Row>>, missing0: map<Period, seq<Row>>,
                               axis: seq<int>, done: bool)
    reads p
  {
    && p.cst == cst0
    && if done then Day1 in cst0 && p.missingCst == missing0[Day1 := Filled(cst0[Day1], axis, |axis|)]
       else p.missingCst == missing0
  }

  /** Why a room cannot be opened. */
  datatype RoomError =
    | Data(error: DataError)        // a file name or a series load failed
    | NoDailyCandlestick            // no named series has the 1Day period
    | NoDailySeries(code: string)   // a stock to be gap-filled has no 1Day series

  /** The reference index, whose daily series gives the time axis. */
  const SzId := StockID("000001", "sz")
  const SzFile := PStockName(SzId, Day1)

  class AnalysisRoom {
    const nAhead: nat
    /** Stocks by code, and the order their codes were first met in. */
    const stocks: map<string, PStock>
    const codes: seq<string>
    /** The reference index, loaded as a stock of its own. */
    const sz: PStock
    /** The reference daily timestamps with the lead-in rows dropped. */
    const szTimeAxis: seq<int>
    var timescope: Option<(int, int)>

    constructor (nAhead: nat, stocks: map<string, PStock>, codes: seq<string>, sz: PStock, szTimeAxis: seq<int>)
      ensures this.nAhead == nAhead && this.stocks == stocks && this.codes == codes
      ensures this.sz == sz && this.szTimeAxis == szTimeAxis && timescope == None
    {
      this.nAhead := nAhead;
      this.stocks := stocks;
      this.codes := codes;
      this.sz := sz;
      this.szTimeAxis := szTimeAxis;
      timescope := None;
    }

    /** Every stock holds the code it is filed under (so each is its own object), and its code is listed. */
    ghost predicate Keyed()
      reads this, stocks.Values
    {
      && (forall c :: c in stocks ==> stocks[c].id.code == c)
      && (forall c :: c in stocks <==> c in codes)
    }

    /**
     * Fills each stock's missing daily rows against the reference axis, in code order. The
     * loaded series are left as they are; the rows go to the 1Day slot of missingCst. A stock
     * without a daily series stops the filling with an error.
     */
    method FillMissingCst() returns (r: Result<(), RoomError>)
      requires Keyed()
      modifies stocks.Values
      ensures forall c :: c in stocks ==> stocks[c].cst == old(stocks[c].cst)
      ensures r.Ok? <==> forall c :: c in stocks ==> Day1 in stocks[c].cst
      ensures r.Err? ==> r.error.NoDailySeries? && r.error.code in stocks && Day1 !in stocks[r.error.code].cst
      ensures r.Ok? ==> forall c :: c in stocks ==>
        stocks[c].missingCst == old(stocks[c].missingCst)[Day1 := Filled(stocks[c].cst[Day1], szTimeAxis, |szTimeAxis|)]
    {
      ghost var done: set<string> := {};
      for i := 0 to |codes|
        invariant forall j :: 0 <= j < i ==> codes[j] in done
        invariant forall c :: c in stocks ==>
          FillProgress(stocks[c], old(stocks[c].cst), old(stocks[c].missingCst), szTimeAxis, c in done)
        invariant done <= stocks.Keys
      {
        var filled := FillStock(stocks[codes[i]], szTimeAxis);
        if !filled {
          return Err(NoDailySeries(codes[i]));
        }
        done := done + {codes[i]};
      }
      assert forall c :: c in stocks ==> c in done;
      r := Ok(());
    }
  }

  /** The reference index's daily series file parses to the index and the 1Day period. */
  lemma SzFileParses()
    ensures ParseCstFilename(SzFile) == Ok((SzId, Day1))
  {
    FileNameParsePrinted(SzId, Day1);
  }

  /** No named series is a daily one. */
  predicate NoDaily(pstocks: seq<string>) {
    forall i :: 0 <= i < |pstocks| ==> ParseCstFilename(pstocks[i]).Ok? ==> ParseCstFilename(pstocks[i]).value.1 != Day1
  }

  // ---------------------------------------------------------------------------
  // Loading the named series, grouped by stock code.

  /**
   * The stocks as values: by code, the identity the stock was made with and its series by
   * period; and the codes in the order they were first met.
   */
  datatype Catalog = Catalog(ids: map<string, StockID>, cst: map<string, map<Period, seq<Row>>>, codes: seq<string>)

  const NoStocks := Catalog(map[], map[], [])

  /** The catalog holds a series of period `p` for `code`. */
  predicate HoldsSeries(cat: Catalog, code: string, p: Period) {
    code in cat.cst && p in cat.cst[code]
  }

  /**
   * One turn of the loading loop, on values: a code not met before gets a new stock holding the
   * named series; otherwise the series is loaded into the code's stock, unless that stock already
   * holds the period. Loads select the exact window with its lead-in.
   */
  function GroupStep(cat: Catalog, pstock: string, files: map<string, seq<Row>>, dtStart: int, dtEnd: int, nAhead: nat)
    : Result<Catalog, DataError>
  {
    match ParseCstFilename(pstock)
    case Err(e) => Err(e)
    case Ok((id, p)) =>
      if HoldsSeries(cat, id.code, p) then Ok(cat)
      else if pstock !in files then Err(FileDoesNotExist(pstock))
      else match SelectExact(files[pstock], dtStart, dtEnd, nAhead)
        case Err(e) => Err(e)
        case Ok(slice) =>
          if id.code in cat.cst then Ok(cat.(cst := cat.cst[id.code := cat.cst[id.code][p := slice]]))
          else Ok(Catalog(cat.ids[id.code := id], cat.cst[id.code := map[p := slice]], cat.codes + [id.code]))
  }

  /** The whole loading loop: every name in turn; the first failure is the error. */
  function GroupAll(names: seq<string>, files: map<string, seq<Row>>, dtStart: int, dtEnd: int, nAhead: nat, cat: Catalog)
    : Result<Catalog, DataError>
    decreases |names|
  {
    if names == [] then Ok(cat)
    else match GroupStep(cat, names[0], files, dtStart, dtEnd, nAhead)
      case Err(e) => Err(e)
      case Ok(cat') => GroupAll(names[1..], files, dtStart, dtEnd, nAhead, cat')
  }

  /** The file name parses to stock code `code` and period `p`. */
  predicate NamesSeries(name: string, code: string, p: Period) {
    ParseCstFilename(name).Ok? && ParseCstFilename(name).value.0.code == code && ParseCstFilename(name).value.1 == p
  }

  /** names[i] is the first of the names naming `code` and `p`. */
  predicate FirstOf(names: seq<string>, i: int, code: string, p: Period) {
    0 <= i < |names| && NamesSeries(names[i], code, p) && forall j :: 0 <= j < i ==> !NamesSeries(names[j], code, p)
  }

  /**
   * names[i] loads fine given what the catalog held at the start: it parses and, when it is the
   * first name of a series not held yet, its file exists and its exact window selects.
   */
  predicate GroupsFine(names: seq<string>, i: int, files: map<string, seq<Row>>, dtStart: int, dtEnd: int, nAhead: nat, cat: Catalog)
    requires 0 <= i < |names|
  {
    && ParseCstFilename(names[i]).Ok?
    && var (id, p) := ParseCstFilename(names[i]).value;
       (!HoldsSeries(cat, id.code, p) && FirstOf(names, i, id.code, p) ==>
          names[i] in files && SelectExact(files[names[i]], dtStart, dtEnd, nAhead).Ok?)
  }

  /** Dropping a first name that does not name the series shifts who names it first by one. */
  lemma FirstOfShift(names: seq<string>, i: int, code: string, p: Period)
    requires 1 <= i < |names| && !NamesSeries(names[0], code, p)
    ensures FirstOf(names, i, code, p) <==> FirstOf(names[1..], i - 1, code, p)
  {
    var rest := names[1..];
    assert names[i] == rest[i - 1];
    if FirstOf(rest, i - 1, code, p) {
      forall j | 0 <= j < i ensures !NamesSeries(names[j], code, p) {
        if j > 0 { assert names[j] == rest[j - 1]; }
      }
    }
    if FirstOf(names, i, code, p) {
      forall j | 0 <= j < i - 1 ensures !NamesSeries(rest[j], code, p) {
        assert rest[j] == names[j + 1];
      }
    }
  }

  /** One successful turn keeps every series held and holds the first name's series. */
  lemma GroupStepContents(cat: Catalog, name: string, files: map<string, seq<Row>>, dtStart: int, dtEnd: int, nAhead: nat)
    requires GroupStep(cat, name, files, dtStart, dtEnd, nAhead).Ok?
    ensures ParseCstFilename(name).Ok?
    ensures var cat' := GroupStep(cat, name, files, dtStart, dtEnd, nAhead).value;
      var (id, p) := ParseCstFilename(name).value;
      && (forall c, q :: HoldsSeries(cat, c, q) ==> HoldsSeries(cat', c, q) && cat'.cst[c][q] == cat.cst[c][q])
      && (forall c, q :: HoldsSeries(cat', c, q) ==> HoldsSeries(cat, c, q) || (c == id.code && q == p))
      && HoldsSeries(cat', id.code, p)
      && (!HoldsSeries(cat, id.code, p) ==>
            && name in files && SelectExact(files[name], dtStart, dtEnd, nAhead).Ok?
            && cat'.cst[id.code][p] == SelectExact(files[name], dtStart, dtEnd, nAhead).value)
  {
  }

  /** After one turn, a later name loads fine in the rest exactly when it did in all the names. */
  lemma GroupsFineShift(names: seq<string>, i: int, files: map<string, seq<Row>>, dtStart: int, dtEnd: int, nAhead: nat, cat: Catalog)
    requires 1 <= i < |names| && GroupStep(cat, names[0], files, dtStart, dtEnd, nAhead).Ok?
    ensures GroupsFine(names, i, files, dtStart, dtEnd, nAhead, cat)
        <==> GroupsFine(names[1..], i - 1, files, dtStart, dtEnd, nAhead, GroupStep(cat, names[0], files, dtStart, dtEnd, nAhead).value)
  {
    var cat' := GroupStep(cat, names[0], files, dtStart, dtEnd, nAhead).value;
    GroupStepContents(cat, names[0], files, dtStart, dtEnd, nAhead);
    var (id0, p0) := ParseCstFilename(names[0]).value;
    assert names[i] == names[1..][i - 1];
    if ParseCstFilename(names[i]).Ok? {
      var (id, p) := ParseCstFilename(names[i]).value;
      if id.code == id0.code && p == p0 {
        assert HoldsSeries(cat', id.code, p);
        assert !FirstOf(names, i, id.code, p) by { assert NamesSeries(names[0], id.code, p); }
      } else {
        assert HoldsSeries(cat', id.code, p) <==> HoldsSeries(cat, id.code, p);
        FirstOfShift(names, i, id.code, p);
      }
    }
  }

  /** The first turn succeeds exactly when the first name loads fine. */
  lemma GroupStepFine(names: seq<string>, files: map<string, seq<Row>>, dtStart: int, dtEnd: int, nAhead: nat, cat: Catalog)
    requires |names| > 0
    ensures GroupStep(cat, names[0], files, dtStart, dtEnd, nAhead).Ok?
        <==> GroupsFine(names, 0, files, dtStart, dtEnd, nAhead, cat)
  {
    if ParseCstFilename(names[0]).Ok? {
      var (id, p) := ParseCstFilename(names[0]).value;
      assert FirstOf(names, 0, id.code, p);
    }
  }

  /**
   * The loading succeeds exactly when every name parses and every first name of a series not
   * held yet finds its file and selects its window; later names of a held series are not read.
   */
  lemma {:induction false} GroupAllSucceeds(names: seq<string>, files: map<string, seq<Row>>, dtStart: int, dtEnd: int, nAhead: nat, cat: Catalog)
    ensures GroupAll(names, files, dtStart, dtEnd, nAhead, cat).Ok? <==>
      forall i :: 0 <= i < |names| ==> GroupsFine(names, i, files, dtStart, dtEnd, nAhead, cat)
    decreases |names|
  {
    if names != [] {
      var step := GroupStep(cat, names[0], files, dtStart, dtEnd, nAhead);
      var rest := names[1..];
      GroupStepFine(names, files, dtStart, dtEnd, nAhead, cat);
      if step.Ok? {
        var cat' := step.value;
        GroupAllSucceeds(rest, files, dtStart, dtEnd, nAhead, cat');
        forall i | 1 <= i < |names|
          ensures GroupsFine(names, i, files, dtStart, dtEnd, nAhead, cat)
              <==> GroupsFine(rest, i - 1, files, dtStart, dtEnd, nAhead, cat')
        {
          GroupsFineShift(names, i, files, dtStart, dtEnd, nAhead, cat);
        }
        if forall i :: 0 <= i < |rest| ==> GroupsFine(rest, i, files, dtStart, dtEnd, nAhead, cat') {
          forall i | 0 <= i < |names| ensures GroupsFine(names, i, files, dtStart, dtEnd, nAhead, cat) {
            if i > 0 { assert GroupsFine(rest, i - 1, files, dtStart, dtEnd, nAhead, cat'); }
          }
        }
        if forall i :: 0 <= i < |names| ==> GroupsFine(names, i, files, dtStart, dtEnd, nAhead, cat) {
          forall i | 0 <= i < |rest| ensures GroupsFine(rest, i, files, dtStart, dtEnd, nAhead, cat') {
            assert GroupsFine(names, i + 1, files, dtStart, dtEnd, nAhead, cat);
          }
        }
      }
    }
  }

  /** The file `name` exists and its exact window selects `slice`. */
  predicate ExactWindow(files: map<string, seq<Row>>, name: string, dtStart: int, dtEnd: int, nAhead: nat, slice: seq<Row>) {
    name in files && SelectExact(files[name], dtStart, dtEnd, nAhead).Ok?
    && slice == SelectExact(files[name], dtStart, dtEnd, nAhead).value
  }

  /** Some name names the series `code`, `p`. */
  ghost predicate Named(names: seq<string>, code: string, p: Period) {
    exists i :: 0 <= i < |names| && NamesSeries(names[i], code, p)
  }

  lemma NamedShift(names: seq<string>, code: string, p: Period)
    requires |names| > 0 && Named(names[1..], code, p)
    ensures Named(names, code, p)
  {
    var i :| 0 <= i < |names[1..]| && NamesSeries(names[1..][i], code, p);
    assert names[i + 1] == names[1..][i];
  }

  /**
   * What the loading holds: every series held before is kept; every name's series is held under
   * its code; a series newly held is the exact window of the first name naming its code and
   * period (a later name of the same series never replaces it); and nothing else is held.
   */
  lemma {:induction false} GroupAllContents(names: seq<string>, files: map<string, seq<Row>>, dtStart: int, dtEnd: int, nAhead: nat, cat: Catalog)
    requires GroupAll(names, files, dtStart, dtEnd, nAhead, cat).Ok?
    ensures var res := GroupAll(names, files, dtStart, dtEnd, nAhead, cat).value;
      && (forall c, p :: HoldsSeries(cat, c, p) ==> HoldsSeries(res, c, p) && res.cst[c][p] == cat.cst[c][p])
      && (forall i :: 0 <= i < |names| ==>
            && ParseCstFilename(names[i]).Ok?
            && HoldsSeries(res, ParseCstFilename(names[i]).value.0.code, ParseCstFilename(names[i]).value.1))
      && (forall i, c, p :: FirstOf(names, i, c, p) && !HoldsSeries(cat, c, p) ==>
            HoldsSeries(res, c, p) && ExactWindow(files, names[i], dtStart, dtEnd, nAhead, res.cst[c][p]))
      && (forall c, p :: HoldsSeries(res, c, p) ==> HoldsSeries(cat, c, p) || Named(names, c, p))
    decreases |names|
  {
    if names != [] {
      var cat' := GroupStep(cat, names[0], files, dtStart, dtEnd, nAhead).value;
      var rest := names[1..];
      GroupStepContents(cat, names[0], files, dtStart, dtEnd, nAhead);
      var (id0, p0) := ParseCstFilename(names[0]).value;
      GroupAllContents(rest, files, dtStart, dtEnd, nAhead, cat');
      var res := GroupAll(rest, files, dtStart, dtEnd, nAhead, cat').value;
      assert GroupAll(names, files, dtStart, dtEnd, nAhead, cat) == Ok(res);
      forall i | 0 <= i < |names|
        ensures ParseCstFilename(names[i]).Ok? &&
          HoldsSeries(res, ParseCstFilename(names[i]).value.0.code, ParseCstFilename(names[i]).value.1)
      {
        if i > 0 { assert names[i] == rest[i - 1]; }
      }
      forall i, c, p | FirstOf(names, i, c, p) && !HoldsSeries(cat, c, p)
        ensures HoldsSeries(res, c, p) && ExactWindow(files, names[i], dtStart, dtEnd, nAhead, res.cst[c][p])
      {
        if i == 0 {
          assert c == id0.code && p == p0;
        } else {
          assert !NamesSeries(names[0], c, p);
          assert !HoldsSeries(cat', c, p);
          FirstOfShift(names, i, c, p);
          assert names[i] == rest[i - 1];
        }
      }
      forall c, p | HoldsSeries(res, c, p)
        ensures HoldsSeries(cat, c, p) || Named(names, c, p)
      {
        if !HoldsSeries(cat', c, p) {
          NamedShift(names, c, p);
        } else if !HoldsSeries(cat, c, p) {
          assert NamesSeries(names[0], c, p);
        }
      }
    }
  }

  /**
   * The stocks are one per listed code, each holding its own code (so no two codes share a
   * stock object).
   */
  ghost predicate Distinct(stocks: map<string, PStock>, codes: seq<string>)
    reads stocks.Values
  {
    && (forall c :: c in stocks <==> c in codes)
    && (forall c :: c in stocks ==> stocks[c].id.code == c)
  }

  /** The stock objects hold exactly what the catalog says, and nothing has been gap-filled yet. */
  ghost predicate Represents(stocks: map<string, PStock>, codes: seq<string>, cat: Catalog)
    reads stocks.Values
  {
    && Distinct(stocks, codes) && codes == cat.codes
    && stocks.Keys == cat.cst.Keys && stocks.Keys == cat.ids.Keys
    && forall c :: c in stocks ==>
         stocks[c].id == cat.ids[c] && stocks[c].cst == cat.cst[c] && stocks[c].missingCst == map[]
  }

  /** A fresh stock for a code not held yet extends the catalog by that code, at the end of the order. */
  lemma NewCodeRepresented(stocks: map<string, PStock>, codes: seq<string>, cat: Catalog, s: PStock, p: Period)
    requires Represents(stocks, codes, cat) && s.id.code !in stocks
    requires s.missingCst == map[] && p in s.cst && s.cst == map[p := s.cst[p]]
    ensures Represents(stocks[s.id.code := s], codes + [s.id.code],
                       Catalog(cat.ids[s.id.code := s.id], cat.cst[s.id.code := map[p := s.cst[p]]], cat.codes + [s.id.code]))
  {
  }

  /** A stock whose series alone changed to `m` stands for the catalog with that code's series replaced. */
  lemma SeriesReplaced(stocks: map<string, PStock>, codes: seq<string>, cat: Catalog, code: string, m: map<Period, seq<Row>>)
    requires Distinct(stocks, codes) && codes == cat.codes && stocks.Keys == cat.cst.Keys && stocks.Keys == cat.ids.Keys
    requires code in stocks && stocks[code].cst == m
    requires forall c :: c in stocks ==> stocks[c].id == cat.ids[c] && stocks[c].missingCst == map[]
    requires forall c :: c in stocks && c != code ==> stocks[c].cst == cat.cst[c]
    ensures Represents(stocks, codes, cat.(cst := cat.cst[code := m]))
  {
  }

  /** A stock for a code not met before, loaded with the series named `pstock`. */
  method NewStock(pstock: string, files: map<string, seq<Row>>, dtStart: int, dtEnd: int, nAhead: nat)
    returns (r: Result<PStock, DataError>)
    requires ParseCstFilename(pstock).Ok?
    ensures r.Ok? <==> pstock in files && SelectExact(files[pstock], dtStart, dtEnd, nAhead).Ok?
    ensures r.Err? ==>
      r.error == (if pstock !in files then FileDoesNotExist(pstock) else SelectExact(files[pstock], dtStart, dtEnd, nAhead).error)
    ensures r.Ok? ==>
      && fresh(r.value) && r.value.id == ParseCstFilename(pstock).value.0
      && r.value.cst == map[ParseCstFilename(pstock).value.1 := SelectExact(files[pstock], dtStart, dtEnd, nAhead).value]
      && r.value.missingCst == map[]
  {
    r := OpenPStock(pstock, files, dtStart, dtEnd, nAhead);
  }

  /**
   * Loads the series named `pstock` into the stock already holding its code. A period the stock
   * holds is not reloaded; a failed load changes nothing.
   */
  method LoadInto(s: PStock, pstock: string, files: map<string, seq<Row>>, dtStart: int, dtEnd: int, nAhead: nat)
    returns (r: Option<DataError>)
    requires ParseCstFilename(pstock).Ok?
    modifies s
    ensures s.missingCst == old(s.missingCst)
    ensures var p := ParseCstFilename(pstock).value.1;
      if p in old(s.cst) then r == None && s.cst == old(s.cst)
      else if pstock !in files then r == Some(FileDoesNotExist(pstock)) && s.cst == old(s.cst)
      else match SelectExact(files[pstock], dtStart, dtEnd, nAhead)
        case Err(e) => r == Some(e) && s.cst == old(s.cst)
        case Ok(slice) => r == None && s.cst == old(s.cst)[p := slice]
  {
    var loaded := s.LoadCst(pstock, files, dtStart, dtEnd, nAhead);
    r := if loaded.Err? then Some(loaded.error) else None;
  }

  /**
   * One turn of the loading loop: the series named `pstock` goes into the stock of its code,
   * a new stock when the code was not met before. The stocks move exactly as GroupStep says.
   */
  method AddSeries(stocks: map<string, PStock>, codes: seq<string>, ghost cat: Catalog,
                   pstock: string, files: map<string, seq<Row>>, dtStart: int, dtEnd: int, nAhead: nat)
    returns (r: Result<(map<string, PStock>, seq<string>), DataError>)
    requires Represents(stocks, codes, cat)
    modifies stocks.Values
    ensures var g := GroupStep(cat, pstock, files, dtStart, dtEnd, nAhead);
      && (r.Ok? <==> g.Ok?)
      && (r.Err? ==> r.error == g.error)
      && (r.Ok? ==> Represents(r.value.0, r.value.1, g.value))
    ensures r.Ok? ==> forall c :: c in r.value.0 ==> (c in stocks && r.value.0[c] == stocks[c]) || fresh(r.value.0[c])
  {
    var parsed := ParseCstFilename(pstock);
    if parsed.Err? {
      return Err(parsed.error);
    }
    var (id, period) := parsed.value;
    if id.code !in stocks {
      var made := NewStock(pstock, files, dtStart, dtEnd, nAhead);
      if made.Err? {
        return Err(made.error);
      }
      r := Ok((stocks[id.code := made.value], codes + [id.code]));
      NewCodeRepresented(stocks, codes, cat, made.value, period);
    } else {
      var s := stocks[id.code];
      var failed := LoadInto(s, pstock, files, dtStart, dtEnd, nAhead);
      if failed.Some? {
        return Err(failed.value);
      }
      r := Ok((stocks, codes));
      SeriesReplaced(stocks, codes, cat, id.code, s.cst);
      if period in old(s.cst) {
        assert cat.(cst := cat.cst[id.code := s.cst]) == cat;
      }
    }
  }

  /**
   * Loads every named series, in order: into a new stock for a code not met before, else into
   * the stock already holding that code. The first parse or load error stops the loading.
   */
  method LoadStocks(pstocks: seq<string>, files: map<string, seq<Row>>, dtStart: int, dtEnd: int, nAhead: nat)
    returns (r: Result<(map<string, PStock>, seq<string>), DataError>)
    ensures var g := GroupAll(pstocks, files, dtStart, dtEnd, nAhead, NoStocks);
      && (r.Ok? <==> g.Ok?)
      && (r.Err? ==> r.error == g.error)
      && (r.Ok? ==> Represents(r.value.0, r.value.1, g.value))
    ensures r.Ok? ==> forall c :: c in r.value.0 ==> fresh(r.value.0[c])
  {
    var stocks: map<string, PStock> := map[];
    var codes: seq<string> := [];
    ghost var cat := NoStocks;
    for i := 0 to |pstocks|
      invariant Represents(stocks, codes, cat)
      invariant forall c :: c in stocks ==> fresh(stocks[c])
      invariant GroupAll(pstocks, files, dtStart, dtEnd, nAhead, NoStocks)
             == GroupAll(pstocks[i..], files, dtStart, dtEnd, nAhead, cat)
    {
      assert pstocks[i..][1..] == pstocks[i + 1..];
      var added := AddSeries(stocks, codes, cat, pstocks[i], files, dtStart, dtEnd, nAhead);
      if added.Err? {
        return Err(added.error);
      }
      stocks, codes := added.value.0, added.value.1;
      cat := GroupStep(cat, pstocks[i], files, dtStart, dtEnd, nAhead).value;
    }
    r := Ok((stocks, codes));
  }

  /** The reference index's daily series, opened as a stock of its own. */
  method OpenReference(files: map<string, seq<Row>>, dtStart: int, dtEnd: int, nAhead: nat)
    returns (r: Result<PStock, DataError>)
    ensures r.Ok? <==> SzFile in files && SelectExact(files[SzFile], dtStart, dtEnd, nAhead).Ok?
    ensures r.Err? ==>
      r.error == (if SzFile !in files then FileDoesNotExist(SzFile) else SelectExact(files[SzFile], dtStart, dtEnd, nAhead).error)
    ensures r.Ok? ==>
      && fresh(r.value) && r.value.id == SzId && r.value.missingCst == map[]
      && r.value.cst == map[Day1 := SelectExact(files[SzFile], dtStart, dtEnd, nAhead).value]
      && |Times(r.value.cst[Day1])| > nAhead
  {
    SzFileParses();
    r := OpenPStock(SzFile, files, dtStart, dtEnd, nAhead);
  }

  /**
   * Makes the room over loaded stocks and the reference index, fills the stocks' gaps on the
   * axis, and sets the time scope to the axis's first and last time.
   */
  method Furnish(stocks: map<string, PStock>, codes: seq<string>, sz: PStock, axis: seq<int>, nAhead: nat)
    returns (r: Result<AnalysisRoom, RoomError>)
    requires Distinct(stocks, codes) && |axis| > 0
    requires forall c :: c in stocks ==> stocks[c] != sz && stocks[c].missingCst == map[]
    modifies stocks.Values
    ensures forall c :: c in stocks ==> stocks[c].cst == old(stocks[c].cst)
    ensures r.Ok? <==> forall c :: c in stocks ==> Day1 in stocks[c].cst
    ensures r.Err? ==> r.error.NoDailySeries? && r.error.code in stocks && Day1 !in stocks[r.error.code].cst
    ensures r.Ok? ==>
      var room := r.value;
      && fresh(room) && room.nAhead == nAhead && room.stocks == stocks && room.codes == codes
      && room.Keyed()
      && room.sz == sz && sz.cst == old(sz.cst) && room.szTimeAxis == axis
      && room.timescope == Some((axis[0], axis[|axis| - 1]))
      && forall c :: c in stocks ==>
           stocks[c].missingCst == map[Day1 := Filled(stocks[c].cst[Day1], axis, |axis|)]
  {
    var room := new AnalysisRoom(nAhead, stocks, codes, sz, axis);
    var filled := room.FillMissingCst();
    if filled.Err? {
      return Err(filled.error);
    }
    room.timescope := Some((axis[0], axis[|axis| - 1]));
    r := Ok(room);
  }

  /**
   * Opens the room: the named series are loaded and grouped by code, and at least one of them
   * must be daily. The reference index's daily series then gives the time axis, without its
   * lead-in rows, the stocks' gaps on that axis are filled, and the time scope is the axis's
   * first and last time.
   */
  method OpenAnalysisRoom(pstocks: seq<string>, files: map<string, seq<Row>>, dtStart: int, dtEnd: int, nAhead: nat)
    returns (r: Result<AnalysisRoom, RoomError>)
    requires dtStart < dtEnd
    ensures var g := GroupAll(pstocks, files, dtStart, dtEnd, nAhead, NoStocks);
      var szLoads := SzFile in files && SelectExact(files[SzFile], dtStart, dtEnd, nAhead).Ok?;
      && (g.Err? ==> r == Err(Data(g.error)))
      && (g.Ok? && NoDaily(pstocks) ==> r == Err(NoDailyCandlestick))
      && (g.Ok? && !NoDaily(pstocks) && !szLoads ==>
            r == Err(Data(if SzFile !in files then FileDoesNotExist(SzFile)
                          else SelectExact(files[SzFile], dtStart, dtEnd, nAhead).error)))
      && (g.Ok? && !NoDaily(pstocks) && szLoads && r.Err? ==>
            r.error.NoDailySeries? && r.error.code in g.value.cst && Day1 !in g.value.cst[r.error.code])
      && (r.Ok? <==> g.Ok? && !NoDaily(pstocks) && szLoads
                     && forall c :: c in g.value.cst ==> Day1 in g.value.cst[c])
      && (r.Ok? ==>
            && r.value.codes == g.value.codes
            && r.value.stocks.Keys == g.value.cst.Keys && r.value.stocks.Keys == g.value.ids.Keys
            && forall c :: c in r.value.stocks ==>
                 r.value.stocks[c].id == g.value.ids[c] && r.value.stocks[c].cst == g.value.cst[c])
    ensures r.Ok? ==>
      var room := r.value;
      && fresh(room) && room.nAhead == nAhead && room.Keyed()
      && (forall c :: c in room.stocks ==> fresh(room.stocks[c]))
    ensures r.Ok? ==>
      var room := r.value;
      && room.sz.cst == map[Day1 := SelectExact(files[SzFile], dtStart, dtEnd, nAhead).value]
      && room.szTimeAxis == Times(room.sz.cst[Day1])[nAhead..] && |room.szTimeAxis| > 0
      && room.timescope == Some((room.szTimeAxis[0], room.szTimeAxis[|room.szTimeAxis| - 1]))
    ensures r.Ok? ==>
      var room := r.value;
      forall c :: c in room.stocks ==>
        && Day1 in room.stocks[c].cst
        && room.stocks[c].missingCst == map[Day1 := Filled(room.stocks[c].cst[Day1], room.szTimeAxis, |room.szTimeAxis|)]
  {
    var loaded := LoadStocks(pstocks, files, dtStart, dtEnd, nAhead);
    if loaded.Err? {
      return Err(Data(loaded.error));
    }
    var (stocks, codes) := loaded.value;
    if NoDaily(pstocks) {
      return Err(NoDailyCandlestick);
    }
    var made := OpenReference(files, dtStart, dtEnd, nAhead);
    if made.Err? {
      return Err(Data(made.error));
    }
    var sz := made.value;
    var axis := Times(sz.cst[Day1])[nAhead..];
    r := Furnish(stocks, codes, sz, axis, nAhead);
  }
}
