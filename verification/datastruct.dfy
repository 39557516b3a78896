/**
 * Series identity and window selection: candlestick file names of the form
 * `<code>.<name>-<period>`, and the per-stock cache of loaded series.
 */
module DataStruct {
  import opened Common

  /** Why loading or naming a candlestick series fails. */
  datatype DataError =
    | BadFileName(file: string)        // the name does not split into exactly two parts on '-'
    | BadStockID(text: string)         // the stock part does not split into exactly two parts on '.'
    | PeriodTypeError(period: string)  // the period is not one of the eight known names
    | FileDoesNotExist(file: string)
    | EmptyFile                        // the table has no first or last row to compare with
    | NoDataBefore                     // the window starts before the file's first row
    | NoDataAfter                      // the window ends after the file's last row
    | NoBarInWindow                    // no row lies in [dtStart, dtEnd]
    | NotEnoughLeadIn                  // fewer than nAhead rows precede the window
    | DuplicateTimestamps              // the kept slice has a repeated index

  // ---------------------------------------------------------------------------
  // Splitting on a one-character separator, as a string's split(sep) does.

  /** The parts between the separators, in order; no separator means one part. */
  function Split(s: string, sep: char): (parts: seq<string>)
    ensures |parts| == Count(s, sep) + 1
    ensures forall i :: 0 <= i < |parts| ==> sep !in parts[i]
    ensures Join(parts, sep) == s
  {
    if s == [] then [""]
    else
      var rest := Split(s[1..], sep);
      assert s == [s[0]] + s[1..];
      if s[0] == sep then
        [""] + rest
      else
        assert Join(rest, sep) == s[1..];
        JoinCons(rest, sep);
        [[s[0]] + rest[0]] + rest[1..]
  }

  /** Number of occurrences of `c` in `s`. */
  function Count(s: string, c: char): nat {
    if s == [] then 0 else (if s[0] == c then 1 else 0) + Count(s[1..], c)
  }

  /** The parts glued back together with the separator between consecutive parts. */
  function Join(parts: seq<string>, sep: char): string {
    if parts == [] then ""
    else if |parts| == 1 then parts[0]
    else parts[0] + [sep] + Join(parts[1..], sep)
  }

  /** Prepending a character to the first part prepends it to the joined string. */
  lemma JoinCons(parts: seq<string>, sep: char)
    requires |parts| >= 1
    ensures forall c: char {:trigger [c] + parts[0]} ::
      Join([[c] + parts[0]] + parts[1..], sep) == [c] + Join(parts, sep)
  {
    forall c: char ensures Join([[c] + parts[0]] + parts[1..], sep) == [c] + Join(parts, sep) {
      var ps := [[c] + parts[0]] + parts[1..];
      if |parts| > 1 {
        assert ps[1..] == parts[1..];
      }
    }
  }

  lemma {:induction false} CountFree(s: string, c: char)
    requires c !in s
    ensures Count(s, c) == 0
  {
    if s != [] {
      assert c !in s[1..] by { assert forall i :: 0 <= i < |s[1..]| ==> s[1..][i] == s[i + 1]; }
      CountFree(s[1..], c);
    }
  }

  lemma {:induction false} CountConcat(a: string, b: string, c: char)
    ensures Count(a + b, c) == Count(a, c) + Count(b, c)
  {
    if a != [] {
      assert (a + b)[1..] == a[1..] + b;
      CountConcat(a[1..], b, c);
    } else {
      assert a + b == b;
    }
  }

  /** A string without the separator splits into itself alone. */
  lemma SplitFree(s: string, sep: char)
    requires sep !in s
    ensures Split(s, sep) == [s]
  {
    CountFree(s, sep);
  }

  /** Splitting `a + [sep] + b` with `sep` absent from `a` yields `a` followed by the parts of `b`. */
  lemma {:induction false} SplitAt(a: string, sep: char, b: string)
    requires sep !in a
    ensures Split(a + [sep] + b, sep) == [a] + Split(b, sep)
  {
    if a == [] {
      assert a + [sep] + b == [sep] + b;
      assert ([sep] + b)[1..] == b;
    } else {
      var s := a + [sep] + b;
      assert s[0] == a[0] && s[1..] == a[1..] + [sep] + b;
      assert sep !in a[1..] by { assert forall i :: 0 <= i < |a[1..]| ==> a[1..][i] == a[i + 1]; }
      SplitAt(a[1..], sep, b);
      assert a == [a[0]] + a[1..];
    }
  }

  // ---------------------------------------------------------------------------
  // Stock identity.

  datatype StockID = StockID(code: string, name: string)

  /** The text form `<code>.<name>`. */
  function StockIDText(id: StockID): string {
    id.code + "." + id.name
  }

  /** A stock text must hold exactly one '.'; code and name are the two sides. */
  function ParseStockID(text: string): (r: Result<StockID, DataError>)
    ensures r.Ok? <==> Count(text, '.') == 1
    ensures r.Ok? ==> StockIDText(r.value) == text
    ensures r.Ok? ==> '.' !in r.value.code && '.' !in r.value.name
    ensures r.Err? ==> r.error == BadStockID(text)
  {
    var info := Split(text, '.');
    if |info| == 2 then
      assert Join(info, '.') == info[0] + "." + info[1];
      Ok(StockID(info[0], info[1]))
    else
      Err(BadStockID(text))
  }

  /** Parsing the printed form of an identity whose parts hold no '.' gives that identity back. */
  lemma StockIDParsePrinted(id: StockID)
    requires '.' !in id.code && '.' !in id.name
    ensures ParseStockID(StockIDText(id)) == Ok(id)
  {
    SplitAt(id.code, '.', id.name);
    SplitFree(id.name, '.');
    assert StockIDText(id) == id.code + ['.'] + id.name;
  }

  // ---------------------------------------------------------------------------
  // Periods and file names.

  function PeriodName(p: Period): string {
    match p
    case Minute1 => "1Minute"
    case Minute5 => "5Minute"
    case Minute15 => "15Minute"
    case Minute30 => "30Minute"
    case Minute60 => "60Minute"
    case Day1 => "1Day"
    case Week1 => "1Week"
    case Month1 => "1Month"
  }

  /** The period named by `s`, if it is one of the eight accepted names. */
  function ParsePeriod(s: string): (r: Option<Period>)
    ensures r.Some? ==> PeriodName(r.value) == s
    ensures r.None? ==> forall p: Period :: PeriodName(p) != s
  {
    if s == "1Minute" then Some(Minute1)
    else if s == "5Minute" then Some(Minute5)
    else if s == "15Minute" then Some(Minute15)
    else if s == "30Minute" then Some(Minute30)
    else if s == "60Minute" then Some(Minute60)
    else if s == "1Day" then Some(Day1)
    else if s == "1Week" then Some(Week1)
    else if s == "1Month" then Some(Month1)
    else None
  }

  /** The file name `<code>.<name>-<period>` of a stock's period series (a PStock printed). */
  function PStockName(id: StockID, p: Period): string {
    StockIDText(id) + "-" + PeriodName(p)
  }

  /**
   * Reads the stock identity and the period out of a file name. The stock part is parsed before
   * the period is checked, so a name bad in both ways reports the stock part.
   */
  function ParseCstFilename(pstock: string): (r: Result<(StockID, Period), DataError>)
    ensures r.Ok? ==> PStockName(r.value.0, r.value.1) == pstock
    ensures r.Ok? <==> Count(pstock, '-') == 1 && ParseStockID(Split(pstock, '-')[0]).Ok?
                       && ParsePeriod(Split(pstock, '-')[1]).Some?
    ensures Count(pstock, '-') != 1 ==> r == Err(BadFileName(pstock))
  {
    var t := Split(pstock, '-');
    if |t| == 2 then
      assert Join(t, '-') == t[0] + "-" + t[1];
      match ParseStockID(t[0])
      case Err(e) => Err(e)
      case Ok(id) =>
        match ParsePeriod(t[1])
        case None => Err(PeriodTypeError(t[1]))
        case Some(p) => Ok((id, p))
    else
      Err(BadFileName(pstock))
  }

  /** Period names hold no '-', so a printed name splits back at its only '-'. */
  lemma PeriodNameFree(p: Period)
    ensures '-' !in PeriodName(p)
  {
  }

  /** Each period name parses back to its period. */
  lemma PeriodNameParses(p: Period)
    ensures ParsePeriod(PeriodName(p)) == Some(p)
  {
    match p
    case Minute1 =>
    case Minute5 =>
    case Minute15 =>
    case Minute30 =>
    case Minute60 =>
    case Day1 =>
    case Week1 =>
    case Month1 =>
  }

  /** The text form of an identity whose parts hold no '-' holds none either. */
  lemma StockIDTextFree(id: StockID)
    requires '-' !in id.code && '-' !in id.name
    ensures '-' !in StockIDText(id)
  {
    var text := StockIDText(id);
    assert forall i :: 0 <= i < |text| ==> text[i] in id.code || text[i] == '.' || text[i] in id.name;
  }

  /** Parsing the name of a stock whose code and name hold neither '.' nor '-' gives it back. */
  lemma FileNameParsePrinted(id: StockID, p: Period)
    requires '.' !in id.code && '.' !in id.name && '-' !in id.code && '-' !in id.name
    ensures ParseCstFilename(PStockName(id, p)) == Ok((id, p))
  {
    var text := StockIDText(id);
    StockIDTextFree(id);
    PeriodNameFree(p);
    SplitAt(text, '-', PeriodName(p));
    SplitFree(PeriodName(p), '-');
    assert PStockName(id, p) == text + ['-'] + PeriodName(p);
    assert Split(PStockName(id, p), '-') == [text, PeriodName(p)];
    StockIDParsePrinted(id);
    PeriodNameParses(p);
  }

  // ---------------------------------------------------------------------------
  // Window selection.

  predicate InWindow(t: int, dtStart: int, dtEnd: int) {
    dtStart <= t <= dtEnd
  }

  /** Index of the first row inside [dtStart, dtEnd], if any. */
  function FirstIn(rows: seq<Row>, dtStart: int, dtEnd: int): (r: Option<nat>)
    ensures r.Some? ==> r.value < |rows| && InWindow(rows[r.value].time, dtStart, dtEnd)
    ensures r.Some? ==> forall i :: 0 <= i < r.value ==> !InWindow(rows[i].time, dtStart, dtEnd)
    ensures r.None? ==> forall i :: 0 <= i < |rows| ==> !InWindow(rows[i].time, dtStart, dtEnd)
  {
    if rows == [] then None
    else if InWindow(rows[0].time, dtStart, dtEnd) then Some(0)
    else match FirstIn(rows[1..], dtStart, dtEnd)
      case None => None
      case Some(k) => Some(k + 1)
  }

  /** Index of the last row inside [dtStart, dtEnd], if any. */
  function LastIn(rows: seq<Row>, dtStart: int, dtEnd: int): (r: Option<nat>)
    ensures r.Some? ==> r.value < |rows| && InWindow(rows[r.value].time, dtStart, dtEnd)
    ensures r.Some? ==> forall i :: r.value < i < |rows| ==> !InWindow(rows[i].time, dtStart, dtEnd)
    ensures r.None? ==> forall i :: 0 <= i < |rows| ==> !InWindow(rows[i].time, dtStart, dtEnd)
  {
    if rows == [] then None
    else if InWindow(rows[|rows| - 1].time, dtStart, dtEnd) then Some(|rows| - 1)
    else LastIn(rows[..|rows| - 1], dtStart, dtEnd)
  }

  lemma FirstNotAfterLast(rows: seq<Row>, dtStart: int, dtEnd: int)
    ensures FirstIn(rows, dtStart, dtEnd).Some? <==> LastIn(rows, dtStart, dtEnd).Some?
    ensures FirstIn(rows, dtStart, dtEnd).Some? ==>
      FirstIn(rows, dtStart, dtEnd).value <= LastIn(rows, dtStart, dtEnd).value
  {
  }

  /** Whether two rows of the table share a timestamp (the table's index is not unique). */
  predicate HasDuplicateTimes(rows: seq<Row>) {
    exists i, j | 0 <= i < j < |rows| :: rows[i].time == rows[j].time
  }

  /**
   * The slice a per-stock load keeps: exactly nAhead lead-in rows before the first in-window row,
   * then everything up to the last in-window row. The window must lie within the file's first and
   * last timestamps and at least nAhead rows must precede it; there is no clamping.
   */
  function SelectExact(rows: seq<Row>, dtStart: int, dtEnd: int, nAhead: nat): (r: Result<seq<Row>, DataError>)
    // the failures, in the order the checks are made
    ensures rows == [] ==> r == Err(EmptyFile)
    ensures rows != [] && dtStart < rows[0].time ==> r == Err(NoDataBefore)
    ensures rows != [] && rows[0].time <= dtStart && dtEnd > rows[|rows| - 1].time ==> r == Err(NoDataAfter)
    ensures (rows != [] && rows[0].time <= dtStart && dtEnd <= rows[|rows| - 1].time
             && FirstIn(rows, dtStart, dtEnd).None?) ==> r == Err(NoBarInWindow)
    ensures (FirstIn(rows, dtStart, dtEnd).Some? && FirstIn(rows, dtStart, dtEnd).value < nAhead
             && rows[0].time <= dtStart && dtEnd <= rows[|rows| - 1].time) ==> r == Err(NotEnoughLeadIn)
    ensures r.Err? && r.error == DuplicateTimestamps ==>
      && FirstIn(rows, dtStart, dtEnd).Some? && LastIn(rows, dtStart, dtEnd).Some?
      && nAhead <= FirstIn(rows, dtStart, dtEnd).value <= LastIn(rows, dtStart, dtEnd).value
      && HasDuplicateTimes(rows[FirstIn(rows, dtStart, dtEnd).value - nAhead .. LastIn(rows, dtStart, dtEnd).value + 1])
    // success exactly when every check passes
    ensures r.Ok? <==>
      && |rows| > 0 && rows[0].time <= dtStart && dtEnd <= rows[|rows| - 1].time
      && FirstIn(rows, dtStart, dtEnd).Some? && LastIn(rows, dtStart, dtEnd).Some?
      && nAhead <= FirstIn(rows, dtStart, dtEnd).value <= LastIn(rows, dtStart, dtEnd).value
      && !HasDuplicateTimes(rows[FirstIn(rows, dtStart, dtEnd).value - nAhead .. LastIn(rows, dtStart, dtEnd).value + 1])
    ensures r.Ok? ==> |rows| > 0 && rows[0].time <= dtStart && dtEnd <= rows[|rows| - 1].time
    ensures r.Ok? ==> FirstIn(rows, dtStart, dtEnd).Some? && nAhead <= FirstIn(rows, dtStart, dtEnd).value
    ensures r.Ok? ==>
      var first := FirstIn(rows, dtStart, dtEnd).value;
      var last := LastIn(rows, dtStart, dtEnd).value;
      first <= last && r.value == rows[first - nAhead .. last + 1] && !HasDuplicateTimes(r.value)
    ensures r.Ok? ==> |r.value| > nAhead && InWindow(r.value[nAhead].time, dtStart, dtEnd)
  {
    if rows == [] then Err(EmptyFile)
    else if dtStart < rows[0].time then Err(NoDataBefore)
    else if dtEnd > rows[|rows| - 1].time then Err(NoDataAfter)
    else
      match FirstIn(rows, dtStart, dtEnd)
      case None => Err(NoBarInWindow)
      case Some(first) =>
        FirstNotAfterLast(rows, dtStart, dtEnd);
        var last := LastIn(rows, dtStart, dtEnd).value;
        if first < nAhead then Err(NotEnoughLeadIn)
        else
          var slice := rows[first - nAhead .. last + 1];
          if HasDuplicateTimes(slice) then Err(DuplicateTimestamps) else Ok(slice)
  }

  /** What the single-stock engine's older load keeps: the lead-in is clamped to the rows available. */
  datatype Clamped = Clamped(slice: seq<Row>, actualAhead: nat, timescope: (int, int))

  function SelectClamped(rows: seq<Row>, dtStart: int, dtEnd: int, nAhead: nat): (r: Option<Clamped>)
    ensures r.None? <==> FirstIn(rows, dtStart, dtEnd).None?
    ensures r.Some? ==>
      var first := FirstIn(rows, dtStart, dtEnd).value;
      var last := LastIn(rows, dtStart, dtEnd).value;
      && r.value.actualAhead <= nAhead
      && r.value.actualAhead == (if first < nAhead then first else nAhead)
      && r.value.slice == rows[first - r.value.actualAhead .. last + 1]
      && r.value.timescope == (rows[first].time, rows[last].time)
      && |r.value.slice| > r.value.actualAhead
  {
    match FirstIn(rows, dtStart, dtEnd)
    case None => None
    case Some(first) =>
      FirstNotAfterLast(rows, dtStart, dtEnd);
      var last := LastIn(rows, dtStart, dtEnd).value;
      var startIndex := if first - nAhead > 0 then first - nAhead else 0;
      Some(Clamped(rows[startIndex .. last + 1], first - startIndex, (rows[first].time, rows[last].time)))
  }

  /**
   * The two loads agree whenever the per-stock one succeeds: the older load then keeps the same
   * slice and reports the full lead-in; otherwise it may report fewer lead-in rows than asked.
   */
  lemma ExactAgreesWithClamped(rows: seq<Row>, dtStart: int, dtEnd: int, nAhead: nat)
    requires SelectExact(rows, dtStart, dtEnd, nAhead).Ok?
    ensures SelectClamped(rows, dtStart, dtEnd, nAhead).Some?
    ensures SelectClamped(rows, dtStart, dtEnd, nAhead).value.slice == SelectExact(rows, dtStart, dtEnd, nAhead).value
    ensures SelectClamped(rows, dtStart, dtEnd, nAhead).value.actualAhead == nAhead
  {
  }

  /**
   * On a table sorted by strictly increasing time, the kept slice is the lead-in rows (all
   * before the window) followed by rows that all lie in the window, and every in-window row of
   * the table lies in the kept range.
   */
  lemma SortedSlice(rows: seq<Row>, dtStart: int, dtEnd: int, ahead: nat)
    requires StrictlyIncreasing(rows)
    requires FirstIn(rows, dtStart, dtEnd).Some?
    requires ahead <= FirstIn(rows, dtStart, dtEnd).value
    ensures var first := FirstIn(rows, dtStart, dtEnd).value;
      var last := LastIn(rows, dtStart, dtEnd).value;
      var slice := rows[first - ahead .. last + 1];
      && (forall k :: 0 <= k < ahead ==> slice[k].time < dtStart)
      && (forall k :: ahead <= k < |slice| ==> InWindow(slice[k].time, dtStart, dtEnd))
      && (forall i :: 0 <= i < |rows| && InWindow(rows[i].time, dtStart, dtEnd) ==> first <= i <= last)
  {
    var first := FirstIn(rows, dtStart, dtEnd).value;
    FirstNotAfterLast(rows, dtStart, dtEnd);
    var last := LastIn(rows, dtStart, dtEnd).value;
    var slice := rows[first - ahead .. last + 1];
    LeadInBeforeWindow(rows, dtStart, dtEnd, first);
    BetweenInWindow(rows, dtStart, dtEnd, first, last);
    forall k | 0 <= k < |slice| ensures slice[k] == rows[first - ahead + k] {
    }
  }

  /** Rows before the first in-window row of an increasing table lie before the window. */
  lemma LeadInBeforeWindow(rows: seq<Row>, dtStart: int, dtEnd: int, first: nat)
    requires StrictlyIncreasing(rows) && first < |rows| && InWindow(rows[first].time, dtStart, dtEnd)
    requires forall i :: 0 <= i < first ==> !InWindow(rows[i].time, dtStart, dtEnd)
    ensures forall i :: 0 <= i < first ==> rows[i].time < dtStart
  {
    forall i | 0 <= i < first ensures rows[i].time < dtStart {
      EarlierRow(rows, i, first);
    }
  }

  /** Rows between two in-window rows of an increasing table lie in the window too. */
  lemma BetweenInWindow(rows: seq<Row>, dtStart: int, dtEnd: int, first: nat, last: nat)
    requires StrictlyIncreasing(rows) && first <= last < |rows|
    requires InWindow(rows[first].time, dtStart, dtEnd) && InWindow(rows[last].time, dtStart, dtEnd)
    ensures forall i :: first <= i <= last ==> InWindow(rows[i].time, dtStart, dtEnd)
  {
    forall i | first <= i <= last ensures InWindow(rows[i].time, dtStart, dtEnd) {
      EarlierRow(rows, first, i);
      EarlierRow(rows, i, last);
    }
  }

  /** In a strictly increasing table an earlier row is not later in time. */
  lemma EarlierRow(rows: seq<Row>, i: nat, j: nat)
    requires StrictlyIncreasing(rows) && i <= j < |rows|
    ensures rows[i].time <= rows[j].time
  {
  }

  /** A slice of a strictly increasing table never has a repeated timestamp. */
  lemma SortedSliceUnique(rows: seq<Row>, lo: nat, hi: nat)
    requires StrictlyIncreasing(rows) && lo <= hi <= |rows|
    ensures !HasDuplicateTimes(rows[lo..hi])
  {
    IncreasingSlice(rows, lo, hi);
    IncreasingUnique(rows[lo..hi]);
  }

  lemma IncreasingSlice(rows: seq<Row>, lo: nat, hi: nat)
    requires StrictlyIncreasing(rows) && lo <= hi <= |rows|
    ensures StrictlyIncreasing(rows[lo..hi])
  {
    forall i, j | 0 <= i < j < hi - lo ensures rows[lo..hi][i].time < rows[lo..hi][j].time {
      assert rows[lo..hi][i] == rows[lo + i] && rows[lo..hi][j] == rows[lo + j];
    }
  }

  lemma IncreasingUnique(rows: seq<Row>)
    requires StrictlyIncreasing(rows)
    ensures !HasDuplicateTimes(rows)
  {
  }

  // ---------------------------------------------------------------------------
  // A stock with its per-period cache of series.

  class PStock {
    const id: StockID
    const period: Period
    /** Series loaded so far, by period; a period once loaded is never reloaded. */
    var cst: map<Period, seq<Row>>
    /** Synthesised rows for timestamps a series lacks, by period. */
    var missingCst: map<Period, seq<Row>>

    constructor Empty(id: StockID, period: Period)
      ensures this.id == id && this.period == period
      ensures cst == map[] && missingCst == map[]
    {
      this.id := id;
      this.period := period;
      cst := map[];
      missingCst := map[];
    }

    /** The printed form of the stock and its own period: `<code>.<name>-<period>`. */
    function Name(): string {
      PStockName(id, period)
    }

    /**
     * Loads the series named `pstock` from `files` (file name to table) into the cache. A period
     * already cached is returned as it is and the file is not read; a fresh load returns nothing.
     */
    method LoadCst(pstock: string, files: map<string, seq<Row>>, dtStart: int, dtEnd: int, nAhead: nat)
      returns (r: Result<Option<seq<Row>>, DataError>)
      modifies this
      ensures missingCst == old(missingCst)
      ensures ParseCstFilename(pstock).Err? ==> r == Err(ParseCstFilename(pstock).error) && cst == old(cst)
      ensures ParseCstFilename(pstock).Ok? ==>
        var p := ParseCstFilename(pstock).value.1;
        if p in old(cst) then r == Ok(Some(old(cst)[p])) && cst == old(cst)
        else if pstock !in files then r == Err(FileDoesNotExist(pstock)) && cst == old(cst)
        else match SelectExact(files[pstock], dtStart, dtEnd, nAhead)
          case Err(e) => r == Err(e) && cst == old(cst)
          case Ok(slice) => r == Ok(None) && cst == old(cst)[p := slice]
    {
      match ParseCstFilename(pstock)
      case Err(e) =>
        r := Err(e);
      case Ok(parsed) =>
        var p := parsed.1;
        if p in cst {
          r := Ok(Some(cst[p]));
        } else if pstock !in files {
          r := Err(FileDoesNotExist(pstock));
        } else {
          match SelectExact(files[pstock], dtStart, dtEnd, nAhead)
          case Err(e) =>
            r := Err(e);
          case Ok(slice) =>
            cst := cst[p := slice];
            r := Ok(None);
        }
    }
  }

  /** Creates a stock from one of its file names and loads that file's window. */
  method OpenPStock(pstock: string, files: map<string, seq<Row>>, dtStart: int, dtEnd: int, nAhead: nat)
    returns (r: Result<PStock, DataError>)
    ensures r.Ok? <==> ParseCstFilename(pstock).Ok? && pstock in files
                       && SelectExact(files[pstock], dtStart, dtEnd, nAhead).Ok?
    ensures r.Err? ==>
      r.error == (if ParseCstFilename(pstock).Err? then ParseCstFilename(pstock).error
                  else if pstock !in files then FileDoesNotExist(pstock)
                  else SelectExact(files[pstock], dtStart, dtEnd, nAhead).error)
    ensures r.Ok? ==>
      && fresh(r.value)
      && (r.value.id, r.value.period) == ParseCstFilename(pstock).value
      && r.value.Name() == pstock
      && r.value.cst == map[r.value.period := SelectExact(files[pstock], dtStart, dtEnd, nAhead).value]
      && r.value.missingCst == map[]
  {
    var parsed := ParseCstFilename(pstock);
    if parsed.Err? {
      r := Err(parsed.error);
    } else {
      var s := new PStock.Empty(parsed.value.0, parsed.value.1);
      var loaded := s.LoadCst(pstock, files, dtStart, dtEnd, nAhead);
      if loaded.Err? {
        r := Err(loaded.error);
      } else {
        r := Ok(s);
      }
    }
  }
}
