/** Shared value types: optional values, results, and one bar of a candlestick series. */
module Common {

  datatype Option<T> = None | Some(value: T)

  /** The outcome of an operation that raises in the source: a value, or the error it raises. */
  datatype Result<T, E> = Ok(value: T) | Err(error: E)

  /** The OHLCV columns of one candlestick. */
  datatype Bar = Bar(open: real, close: real, high: real, low: real, volume: real)

  /** The all-zero candlestick used where no real data exists yet. */
  const ZeroBar := Bar(0.0, 0.0, 0.0, 0.0, 0.0)

  /** One row of a candlestick table: its timestamp (the table's index) and its columns. */
  datatype Row = Row(time: int, bar: Bar)

  /** Candlestick periods a data file may name. */
  datatype Period = Minute1 | Minute5 | Minute15 | Minute30 | Minute60 | Day1 | Week1 | Month1

  ghost predicate StrictlyIncreasing(rows: seq<Row>) {
    forall i, j :: 0 <= i < j < |rows| ==> rows[i].time < rows[j].time
  }

  function Times(rows: seq<Row>): (ts: seq<int>)
    ensures |ts| == |rows|
    ensures forall i :: 0 <= i < |rows| ==> ts[i] == rows[i].time
  {
    if rows == [] then [] else [rows[0].time] + Times(rows[1..])
  }
}
