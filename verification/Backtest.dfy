/** The signal backtest as a position state machine over the reals (profiles/ownware-trade-research/tools/backtest.ts). */
module Backtest {
  import opened Common

  datatype Row = Row(date: string, close: real, high: real, low: real, volume: real)

  datatype Direction = Long | Short

  datatype ExitReason = SignalFlip | StopLoss | EndOfData

  /** A trade with its row indices; prices and result are kept unrounded. */
  datatype Trade = Trade(
    entryIdx: int, entryDate: string, entryPrice: real,
    exitIdx: int, exitDate: string, exitPrice: real,
    direction: Direction, pnl: real, holdingDays: int, reason: ExitReason)

  datatype Params = Params(entryThreshold: real, exitThreshold: real, stopLossPct: real, feeRate: real, lookback: int)

  datatype Position = Position(direction: Direction, entryPrice: real, entryIdx: int, entryDate: string)

  /** `marks` are the tracked equities of the days spent in a position. */
  datatype Book = Book(equity: real, trades: seq<Trade>, position: Option<Position>,
                       marks: seq<real>, peak: real, maxDrawdown: real)

  const START_EQUITY := 10000.0

  const EMPTY_BOOK: Book := Book(START_EQUITY, [], None, [], START_EQUITY, 0.0)

  /** The composite score of a window of rows. */
  type Score = seq<Row> -> real

  function StartIdx(p: Params): int {
    if p.lookback > 200 then p.lookback else 200
  }

  predicate RowTradable(p: Params, row: Row) {
    EntryPrice(p, Long, row.close) != 0.0 && EntryPrice(p, Short, row.close) != 0.0
  }

  /** Every possible entry price is nonzero, so that results are well defined. */
  predicate Tradable(p: Params, rows: seq<Row>) {
    forall i :: 0 <= i < |rows| ==> RowTradable(p, rows[i])
  }

  function Gain(d: Direction, entryPrice: real, price: real): real
    requires entryPrice != 0.0
  {
    if d.Long? then (price - entryPrice) / entryPrice else (entryPrice - price) / entryPrice
  }

  /** The price paid on entry, with the fee. */
  function EntryPrice(p: Params, d: Direction, price: real): real {
    if d.Long? then price * (1.0 + p.feeRate) else price * (1.0 - p.feeRate)
  }

  function Grow(equity: real, gain: real): real {
    equity * (1.0 + gain)
  }

  function ExitPrice(p: Params, d: Direction, price: real): real {
    if d.Long? then price * (1.0 - p.feeRate) else price * (1.0 + p.feeRate)
  }

  /** Whether and why a position is left at this score and price. */
  function ExitSignal(p: Params, pos: Position, score: real, price: real): Option<ExitReason>
    requires pos.entryPrice != 0.0
  {
    if Gain(pos.direction, pos.entryPrice, price) <= -p.stopLossPct then Some(StopLoss)
    else if pos.direction.Long? && score <= p.exitThreshold then Some(SignalFlip)
    else if pos.direction.Short? && score >= -p.exitThreshold then Some(SignalFlip)
    else None
  }

  function EntrySignal(p: Params, score: real, row: Row, i: int): Option<Position> {
    if score >= p.entryThreshold then Some(Position(Long, EntryPrice(p, Long, row.close), i, row.date))
    else if score <= -p.entryThreshold then Some(Position(Short, EntryPrice(p, Short, row.close), i, row.date))
    else None
  }

  function CloseTrade(p: Params, pos: Position, row: Row, i: int, exitPrice: real, reason: ExitReason): Trade
    requires pos.entryPrice != 0.0
  {
    Trade(pos.entryIdx, pos.entryDate, pos.entryPrice, i, row.date, exitPrice, pos.direction,
          Gain(pos.direction, pos.entryPrice, ExitPrice(p, pos.direction, row.close)), i - pos.entryIdx, reason)
  }

  function Drawdown(peak: real, mark: real): real
    requires peak != 0.0
  {
    (peak - mark) / peak
  }

  /** Tracks one day's equity against the running peak. */
  function Mark(b: Book, mark: real): Book
    requires b.peak > 0.0
  {
    var peak := if mark > b.peak then mark else b.peak;
    b.(marks := b.marks + [mark], peak := peak,
       maxDrawdown := if Drawdown(peak, mark) > b.maxDrawdown then Drawdown(peak, mark) else b.maxDrawdown)
  }

  ghost predicate Open(b: Book) {
    b.peak > 0.0 && (b.position.Some? ==> b.position.value.entryPrice != 0.0)
  }

  /** One day with a position: leave it if signalled, then track the equity. */
  function HoldingDay(p: Params, s: real, row: Row, i: int, b: Book): Book
    requires Open(b) && b.position.Some?
  {
    var pos := b.position.value;
    var exit := ExitSignal(p, pos, s, row.close);
    var b' := if exit.None? then b
              else
                var trade := CloseTrade(p, pos, row, i, ExitPrice(p, pos.direction, row.close), exit.value);
                b.(equity := Grow(b.equity, trade.pnl), trades := b.trades + [trade], position := None);
    Mark(b', Grow(b'.equity, Gain(pos.direction, pos.entryPrice, row.close)))
  }

  /** One day at score `s`. */
  function DayOn(p: Params, s: real, row: Row, i: int, b: Book): Book
    requires RowTradable(p, row) && Open(b)
    ensures Open(DayOn(p, s, row, i, b))
  {
    if b.position.None? then b.(position := EntrySignal(p, s, row, i)) else HoldingDay(p, s, row, i, b)
  }

  /** The day of row `i`: rows beyond it are not read. */
  function Day(p: Params, score: Score, rows: seq<Row>, i: nat, b: Book): Book
    requires i < |rows| && Tradable(p, rows) && Open(b)
    ensures Open(Day(p, score, rows, i, b))
  {
    DayOn(p, score(rows[..i + 1]), rows[i], i, b)
  }

  /** The book after every day before `n`. */
  function Days(p: Params, score: Score, rows: seq<Row>, n: nat): Book
    requires n <= |rows| && Tradable(p, rows)
    ensures Open(Days(p, score, rows, n))
  {
    if n <= StartIdx(p) then EMPTY_BOOK else Day(p, score, rows, n - 1, Days(p, score, rows, n - 1))
  }

  /** Closes an open position at the last row. */
  function Finish(p: Params, rows: seq<Row>, b: Book): Book
    requires Open(b) && (b.position.Some? ==> rows != [])
  {
    if b.position.None? then b
    else
      var row, pos := rows[|rows| - 1], b.position.value;
      var trade := CloseTrade(p, pos, row, |rows| - 1, row.close, EndOfData);
      b.(equity := Grow(b.equity, trade.pnl), trades := b.trades + [trade], position := None)
  }

  function Run(p: Params, score: Score, rows: seq<Row>): Book
    requires Tradable(p, rows)
  {
    HasRows(p, score, rows, |rows|);
    Finish(p, rows, Days(p, score, rows, |rows|))
  }

  lemma {:induction false} HasRows(p: Params, score: Score, rows: seq<Row>, n: nat)
    requires n <= |rows| && Tradable(p, rows)
    ensures Days(p, score, rows, n).position.Some? ==> n > 0
  {
  }

  /** The local variables of the loop hold the book `b`. */
  ghost predicate Shows(b: Book, equity: real, trades: seq<Trade>, inPosition: bool, pos: Position,
                        marks: seq<real>, peak: real, maxDrawdown: real) {
    && b.equity == equity && b.trades == trades && b.position == (if inPosition then Some(pos) else None)
    && b.marks == marks && b.peak == peak && b.maxDrawdown == maxDrawdown
  }

  /** The branch of the day loop that holds a position. */
  method HoldPosition(p: Params, s: real, row: Row, i: int, pos: Position, book: Book)
    returns (inPosition: bool, equity: real, trades: seq<Trade>, marks: seq<real>, peak: real, maxDrawdown: real)
    requires Open(book) && book.position == Some(pos)
    ensures Shows(HoldingDay(p, s, row, i, book), equity, trades, inPosition, pos, marks, peak, maxDrawdown)
  {
    inPosition, equity, trades, marks, peak, maxDrawdown := true, book.equity, book.trades, book.marks, book.peak, book.maxDrawdown;
    var pnlPct := Gain(pos.direction, pos.entryPrice, row.close);
    var shouldExit, exitReason := false, SignalFlip;
    if pnlPct <= -p.stopLossPct {
      shouldExit, exitReason := true, StopLoss;
    } else if pos.direction == Long && s <= p.exitThreshold {
      shouldExit := true;
    } else if pos.direction == Short && s >= -p.exitThreshold {
      shouldExit := true;
    }
    if shouldExit {
      var exitPrice := ExitPrice(p, pos.direction, row.close);
      var tradePnl := Gain(pos.direction, pos.entryPrice, exitPrice);
      equity := Grow(equity, tradePnl);
      trades := trades + [Trade(pos.entryIdx, pos.entryDate, pos.entryPrice, i, row.date, exitPrice, pos.direction, tradePnl,
                                i - pos.entryIdx, exitReason)];
      inPosition := false;
    }
    var currentEquity := Grow(equity, Gain(pos.direction, pos.entryPrice, row.close));
    marks := marks + [currentEquity];
    if currentEquity > peak { peak := currentEquity; }
    var dd := Drawdown(peak, currentEquity);
    if dd > maxDrawdown { maxDrawdown := dd; }
    ghost var r := HoldingDay(p, s, row, i, book);
    assert r.equity == equity;
    assert r.trades == trades;
    assert r.marks == marks;
  }

  /** `runBacktest`: the day loop over local variables. */
  method RunBacktest(p: Params, score: Score, rows: seq<Row>)
    returns (equity: real, trades: seq<Trade>, marks: seq<real>, maxDrawdown: real)
    requires Tradable(p, rows)
    ensures var b := Run(p, score, rows);
            equity == b.equity && trades == b.trades && marks == b.marks && maxDrawdown == b.maxDrawdown
  {
    equity, trades, marks, maxDrawdown := 10000.0, [], [], 0.0;
    var peak := equity;
    var inPosition, direction, entryPrice, entryDate, entryIdx := false, Long, 0.0, "", 0;
    var i := if p.lookback > 200 then p.lookback else 200;
    while i < |rows|
      invariant i >= StartIdx(p) && (i <= |rows| || i == StartIdx(p))
      invariant Shows(Days(p, score, rows, if i <= |rows| then i else |rows|), equity, trades, inPosition,
                      Position(direction, entryPrice, entryIdx, entryDate), marks, peak, maxDrawdown)
    {
      var s, currentPrice := score(rows[..i + 1]), rows[i].close;
      ghost var before := Days(p, score, rows, i);
      if !inPosition {
        if s >= p.entryThreshold {
          inPosition, direction, entryPrice := true, Long, EntryPrice(p, Long, currentPrice);
          entryDate, entryIdx := rows[i].date, i;
        } else if s <= -p.entryThreshold {
          inPosition, direction, entryPrice := true, Short, EntryPrice(p, Short, currentPrice);
          entryDate, entryIdx := rows[i].date, i;
        }
      } else {
        var pos := Position(direction, entryPrice, entryIdx, entryDate);
        var book := Book(equity, trades, Some(pos), marks, peak, maxDrawdown);
        assert book == before;
        inPosition, equity, trades, marks, peak, maxDrawdown := HoldPosition(p, s, rows[i], i, pos, book);
      }
      i := i + 1;
    }
    HasRows(p, score, rows, |rows|);
    if inPosition {
      var exitPrice := rows[|rows| - 1].close;
      var tradePnl := Gain(direction, entryPrice, ExitPrice(p, direction, exitPrice));
      equity := Grow(equity, tradePnl);
      trades := trades + [Trade(entryIdx, entryDate, entryPrice, |rows| - 1, rows[|rows| - 1].date, exitPrice, direction,
                                tradePnl, |rows| - 1 - entryIdx, EndOfData)];
    }
  }

  // ---- no look-ahead ----------------------------------------------------------

  lemma PrefixTradable(p: Params, rows: seq<Row>, n: nat)
    requires n <= |rows| && Tradable(p, rows)
    ensures Tradable(p, rows[..n])
  {
  }

  lemma DayReadsOnlyThePast(p: Params, score: Score, rows: seq<Row>, n: nat, i: nat, b: Book)
    requires i < n <= |rows| && Tradable(p, rows) && Tradable(p, rows[..n]) && Open(b)
    ensures Day(p, score, rows[..n], i, b) == Day(p, score, rows, i, b)
  {
    assert rows[..n][..i + 1] == rows[..i + 1] && rows[..n][i] == rows[i];
  }

  /** The first days of a longer history are the days of the shorter one. */
  lemma {:induction false} DaysReadOnlyThePast(p: Params, score: Score, rows: seq<Row>, n: nat, k: nat)
    requires k <= n <= |rows| && Tradable(p, rows)
    ensures Tradable(p, rows[..n])
    ensures Days(p, score, rows[..n], k) == Days(p, score, rows, k)
    decreases k
  {
    PrefixTradable(p, rows, n);
    if k > StartIdx(p) {
      DaysReadOnlyThePast(p, score, rows, n, k - 1);
      DayReadsOnlyThePast(p, score, rows, n, k - 1, Days(p, score, rows, k - 1));
    }
  }

  /** Trades are only ever appended. */
  lemma {:induction false} TradesOnlyGrow(p: Params, score: Score, rows: seq<Row>, m: nat, n: nat)
    requires m <= n <= |rows| && Tradable(p, rows)
    ensures Days(p, score, rows, m).trades <= Days(p, score, rows, n).trades
    decreases n
  {
    hide Day;
    if m < n {
      TradesOnlyGrow(p, score, rows, m, n - 1);
      if n > StartIdx(p) {
        DayAppends(p, score, rows, n - 1, Days(p, score, rows, n - 1));
      }
    }
  }

  lemma DayAppends(p: Params, score: Score, rows: seq<Row>, i: nat, b: Book)
    requires i < |rows| && Tradable(p, rows) && Open(b)
    ensures b.trades <= Day(p, score, rows, i, b).trades
  {
  }

  /** The trades that were not forced shut by the end of the data. */
  ghost function ClosedTrades(trades: seq<Trade>): seq<Trade> {
    if trades != [] && trades[|trades| - 1].reason.EndOfData? then trades[..|trades| - 1] else trades
  }

  lemma {:induction false} OnlyTheEndForces(p: Params, score: Score, rows: seq<Row>, n: nat)
    requires n <= |rows| && Tradable(p, rows)
    ensures forall t :: t in Days(p, score, rows, n).trades ==> !t.reason.EndOfData?
    decreases n
  {
    if n > StartIdx(p) {
      OnlyTheEndForces(p, score, rows, n - 1);
    }
  }

  /** The backtest never looks ahead: more rows never change the trades already closed. */
  lemma NeverLooksAhead(p: Params, score: Score, rows: seq<Row>, n: nat)
    requires n <= |rows| && Tradable(p, rows)
    ensures Tradable(p, rows[..n])
    ensures ClosedTrades(Run(p, score, rows[..n]).trades) <= Run(p, score, rows).trades
  {
    DaysReadOnlyThePast(p, score, rows, n, n);
    var b := Days(p, score, rows, n);
    OnlyTheEndForces(p, score, rows, n);
    assert ClosedTrades(Run(p, score, rows[..n]).trades) == b.trades by {
      if b.position.Some? {
        assert Run(p, score, rows[..n]).trades[..|b.trades|] == b.trades;
      } else if b.trades != [] {
        assert b.trades[|b.trades| - 1] in b.trades;
      }
    }
    TradesOnlyGrow(p, score, rows, n, |rows|);
  }

  // ---- order and equity -------------------------------------------------------

  /** Each trade starts strictly after the previous one ended. */
  ghost predicate InOrder(trades: seq<Trade>) {
    && (forall k :: 0 <= k < |trades| ==> trades[k].entryIdx <= trades[k].exitIdx
                                          && trades[k].holdingDays == trades[k].exitIdx - trades[k].entryIdx)
    && (forall k :: 0 < k < |trades| ==> trades[k - 1].exitIdx < trades[k].entryIdx)
  }

  ghost predicate BookInOrder(b: Book, n: int) {
    && InOrder(b.trades)
    && (b.trades != [] ==> b.trades[|b.trades| - 1].exitIdx < n)
    && (b.position.Some? ==>
          && b.position.value.entryIdx < n
          && (b.trades != [] ==> b.trades[|b.trades| - 1].exitIdx < b.position.value.entryIdx))
  }

  lemma DayInOrder(p: Params, s: real, row: Row, i: int, b: Book)
    requires RowTradable(p, row) && Open(b) && BookInOrder(b, i)
    ensures BookInOrder(DayOn(p, s, row, i, b), i + 1)
  {
    if b.position.Some? {
      var b' := HoldingDay(p, s, row, i, b);
      assert b'.trades == b.trades || (b'.position.None? && b'.trades == b.trades + [b'.trades[|b.trades|]]
                                       && b'.trades[|b.trades|].entryIdx == b.position.value.entryIdx
                                       && b'.trades[|b.trades|].exitIdx == i
                                       && b'.trades[|b.trades|].holdingDays == i - b.position.value.entryIdx);
    }
  }

  lemma {:induction false} DaysInOrder(p: Params, score: Score, rows: seq<Row>, n: nat)
    requires n <= |rows| && Tradable(p, rows)
    ensures BookInOrder(Days(p, score, rows, n), n)
    decreases n
  {
    hide DayOn;
    if n > StartIdx(p) {
      DaysInOrder(p, score, rows, n - 1);
      DayInOrder(p, score(rows[..n]), rows[n - 1], n - 1, Days(p, score, rows, n - 1));
    }
  }

  lemma TradesNeverOverlap(p: Params, score: Score, rows: seq<Row>)
    requires Tradable(p, rows)
    ensures InOrder(Run(p, score, rows).trades)
  {
    DaysInOrder(p, score, rows, |rows|);
  }

  /** The product of (1 + result) over all trades. */
  ghost function Growth(trades: seq<Trade>): real {
    if trades == [] then 1.0 else Growth(trades[..|trades| - 1]) * (1.0 + trades[|trades| - 1].pnl)
  }

  lemma GrowthSnoc(trades: seq<Trade>, t: Trade)
    ensures Growth(trades + [t]) == Grow(Growth(trades), t.pnl)
  {
    assert (trades + [t])[..|trades|] == trades;
  }

  lemma ScaleGrowth(g: real, x: real)
    ensures Grow(START_EQUITY * g, x) == START_EQUITY * Grow(g, x)
  {
  }

  lemma DayCompounds(p: Params, score: Score, rows: seq<Row>, i: nat, b: Book)
    requires i < |rows| && Tradable(p, rows) && Open(b) && b.equity == START_EQUITY * Growth(b.trades)
    ensures var b' := Day(p, score, rows, i, b);
            b'.equity == START_EQUITY * Growth(b'.trades)
  {
    var b' := Day(p, score, rows, i, b);
    if b'.trades != b.trades {
      var t := b'.trades[|b.trades|];
      assert b'.trades == b.trades + [t] && b'.equity == Grow(b.equity, t.pnl);
      GrowthSnoc(b.trades, t);
      ScaleGrowth(Growth(b.trades), t.pnl);
    }
  }

  lemma {:induction false} DaysCompound(p: Params, score: Score, rows: seq<Row>, n: nat)
    requires n <= |rows| && Tradable(p, rows)
    ensures Days(p, score, rows, n).equity == START_EQUITY * Growth(Days(p, score, rows, n).trades)
    decreases n
  {
    hide Day;
    if n > StartIdx(p) {
      DaysCompound(p, score, rows, n - 1);
      DayCompounds(p, score, rows, n - 1, Days(p, score, rows, n - 1));
    }
  }

  lemma FinishCompounds(p: Params, rows: seq<Row>, b: Book)
    requires Open(b) && (b.position.Some? ==> rows != []) && b.equity == START_EQUITY * Growth(b.trades)
    ensures Finish(p, rows, b).equity == START_EQUITY * Growth(Finish(p, rows, b).trades)
  {
    if b.position.Some? {
      var t := Finish(p, rows, b).trades[|b.trades|];
      GrowthSnoc(b.trades, t);
      ScaleGrowth(Growth(b.trades), t.pnl);
    }
  }

  /** Final equity is the start equity compounded by every trade's result. */
  lemma EquityIsCompoundedTrades(p: Params, score: Score, rows: seq<Row>)
    requires Tradable(p, rows)
    ensures Run(p, score, rows).equity == 10000.0 * Growth(Run(p, score, rows).trades)
  {
    DaysCompound(p, score, rows, |rows|);
    HasRows(p, score, rows, |rows|);
    FinishCompounds(p, rows, Days(p, score, rows, |rows|));
  }

  // ---- drawdown ---------------------------------------------------------------

  /** The highest equity seen up to and including mark `k`; before the first it is the starting 10000. */
  ghost function PeakAt(marks: seq<real>, k: int): real
    requires -1 <= k < |marks|
    ensures PeakAt(marks, k) >= 10000.0
    decreases k + 1
  {
    if k < 0 then 10000.0
    else if marks[k] > PeakAt(marks, k - 1) then marks[k] else PeakAt(marks, k - 1)
  }

  lemma {:induction false} PeakPrefix(marks: seq<real>, m: real, k: int)
    requires -1 <= k < |marks|
    ensures PeakAt(marks + [m], k) == PeakAt(marks, k)
    decreases k + 1
  {
    if k >= 0 { PeakPrefix(marks, m, k - 1); }
  }

  /** `worst` is the deepest fall below the running peak, or zero when there was none. */
  ghost predicate IsWorstDrawdown(marks: seq<real>, worst: real) {
    && worst >= 0.0
    && (forall k :: 0 <= k < |marks| ==> FallAt(marks, k) <= worst)
    && (worst == 0.0 || exists k :: 0 <= k < |marks| && FallAt(marks, k) == worst)
  }

  /** How far mark `k` lies below the peak of its day, as a part of that peak. */
  ghost function FallAt(marks: seq<real>, k: int): real
    requires 0 <= k < |marks|
  {
    (PeakAt(marks, k) - marks[k]) / PeakAt(marks, k)
  }

  ghost predicate Tracked(b: Book) {
    b.peak == PeakAt(b.marks, |b.marks| - 1) && IsWorstDrawdown(b.marks, b.maxDrawdown)
  }

  lemma MarkTracks(b: Book, m: real)
    requires Tracked(b)
    ensures Tracked(Mark(b, m))
  {
    var b' := Mark(b, m);
    var n := |b.marks|;
    PeakPrefix(b.marks, m, n - 1);
    assert b'.marks[n] == m && b'.peak == PeakAt(b'.marks, n);
    forall k | 0 <= k < n ensures FallAt(b'.marks, k) == FallAt(b.marks, k) {
      PeakPrefix(b.marks, m, k);
    }
    if b'.maxDrawdown != 0.0 {
      if b'.maxDrawdown == Drawdown(b'.peak, m) {
        assert FallAt(b'.marks, n) == b'.maxDrawdown;
      } else {
        var k :| 0 <= k < n && FallAt(b.marks, k) == b.maxDrawdown;
        assert FallAt(b'.marks, k) == b'.maxDrawdown;
      }
    }
  }

  lemma {:induction false} DaysTracked(p: Params, score: Score, rows: seq<Row>, n: nat)
    requires n <= |rows| && Tradable(p, rows)
    ensures Tracked(Days(p, score, rows, n))
    decreases n
  {
    if n > StartIdx(p) {
      DaysTracked(p, score, rows, n - 1);
      DayTracks(p, score, rows, n - 1, Days(p, score, rows, n - 1));
    }
  }

  lemma DayTracks(p: Params, score: Score, rows: seq<Row>, i: nat, b: Book)
    requires i < |rows| && Tradable(p, rows) && Open(b) && Tracked(b)
    ensures Tracked(Day(p, score, rows, i, b))
  {
    if b.position.Some? {
      var b' := Day(p, score, rows, i, b);
      MarkTracks(b, b'.marks[|b.marks|]);
      assert b'.marks == b.marks + [b'.marks[|b.marks|]];
    }
  }

  /** The reported drawdown is the deepest fall of the tracked equity. */
  lemma DrawdownIsWorst(p: Params, score: Score, rows: seq<Row>)
    requires Tradable(p, rows)
    ensures IsWorstDrawdown(Run(p, score, rows).marks, Run(p, score, rows).maxDrawdown)
  {
    DaysTracked(p, score, rows, |rows|);
  }

  /** What the tracked equity of a day is worth: the booked equity scaled by the open result at the day's close. */
  ghost predicate IsMarkOf(mark: real, equity: real, pos: Position, price: real) {
    mark * pos.entryPrice == equity * (if pos.direction.Long? then price else pos.entryPrice + pos.entryPrice - price)
  }

  /** Exactly the days that start in a position are tracked, each after its booking. */
  lemma DayIsTracked(p: Params, score: Score, rows: seq<Row>, i: nat)
    requires StartIdx(p) <= i < |rows| && Tradable(p, rows)
    ensures var b, b' := Days(p, score, rows, i), Days(p, score, rows, i + 1);
            if b.position.None? then b'.marks == b.marks
            else |b'.marks| == |b.marks| + 1 && b'.marks[..|b.marks|] == b.marks
                 && IsMarkOf(b'.marks[|b.marks|], b'.equity, b.position.value, rows[i].close)
  {
    hide Gain, ExitSignal, CloseTrade, IsMarkOf, Drawdown, Grow;
    var b := Days(p, score, rows, i);
    var b' := Day(p, score, rows, i, b);
    if b.position.Some? {
      var pos, price := b.position.value, rows[i].close;
      GainIs(pos.direction, pos.entryPrice, price);
      assert b'.marks == b.marks + [Grow(b'.equity, Gain(pos.direction, pos.entryPrice, price))];
      MarkIs(b'.equity, Gain(pos.direction, pos.entryPrice, price), pos, price);
    }
  }

  lemma MarkIs(equity: real, gain: real, pos: Position, price: real)
    requires gain * pos.entryPrice == if pos.direction.Long? then price - pos.entryPrice else pos.entryPrice - price
    ensures IsMarkOf(Grow(equity, gain), equity, pos, price)
  {
    var e := pos.entryPrice;
    assert equity * (1.0 + gain) * e == equity * (e + gain * e);
  }

  lemma GainIs(d: Direction, entryPrice: real, price: real)
    requires entryPrice != 0.0
    ensures Gain(d, entryPrice, price) * entryPrice == if d.Long? then price - entryPrice else entryPrice - price
  {
  }

  /** The trade that is closed at this price loses the whole stake. */
  ghost predicate LosesAll(p: Params, pos: Position, price: real) {
    if pos.direction.Long? then price * (1.0 - p.feeRate) == 0.0
    else price * (1.0 + p.feeRate) == pos.entryPrice + pos.entryPrice
  }

  /**
   * On the day a position is left, the tracked equity applies the open gain on top of the booked
   * result: it equals the booked equity iff the close is the entry price, the trade lost everything, or
   * nothing was left before it.
   */
  lemma ExitDayMarkIff(p: Params, score: Score, rows: seq<Row>, i: nat)
    requires i < |rows| && Tradable(p, rows) && Days(p, score, rows, i).position.Some?
    requires var pos := Days(p, score, rows, i).position.value;
             StopHit(p, pos, rows[i].close) || Flips(p, pos, ScoreAt(score, rows, i))
    ensures var b, b' := Days(p, score, rows, i), Days(p, score, rows, i + 1);
            var pos := b.position.value;
            && |b'.marks| == |b.marks| + 1 && b'.position.None?
            && (b'.marks[|b.marks|] == b'.equity <==>
                  rows[i].close == pos.entryPrice || LosesAll(p, pos, rows[i].close) || b.equity == 0.0)
  {
    hide ExitSignal, Gain, ExitPrice, StopHit;
    var b := Days(p, score, rows, i);
    DaysInPosition(p, score, rows, i);
    var b' := Day(p, score, rows, i, b);
    var pos, price := b.position.value, rows[i].close;
    ExitSignalIs(p, pos, ScoreAt(score, rows, i), price);
    var gain, result := Gain(pos.direction, pos.entryPrice, price), Gain(pos.direction, pos.entryPrice, ExitPrice(p, pos.direction, price));
    assert b'.equity == Grow(b.equity, result) && b'.marks[|b.marks|] == Grow(b'.equity, gain);
    ProductZero(b'.equity, gain);
    LostEverything(b.equity, result);
    ZeroResults(p, pos, price);
  }

  lemma ZeroResults(p: Params, pos: Position, price: real)
    requires pos.entryPrice != 0.0
    ensures Gain(pos.direction, pos.entryPrice, price) == 0.0 <==> price == pos.entryPrice
    ensures Gain(pos.direction, pos.entryPrice, ExitPrice(p, pos.direction, price)) == -1.0 <==> LosesAll(p, pos, price)
  {
    var e, x := pos.entryPrice, ExitPrice(p, pos.direction, price);
    hide Gain;
    GainIs(pos.direction, e, price);
    GainIs(pos.direction, e, x);
    SameFactor(Gain(pos.direction, e, price), 0.0, e);
    SameFactor(Gain(pos.direction, e, x), -1.0, e);
  }

  lemma SameFactor(a: real, b: real, e: real)
    requires e != 0.0
    ensures a * e == b * e <==> a == b
  {
    if a * e == b * e { assert (a - b) * e == 0.0; }
  }

  lemma DaysInPosition(p: Params, score: Score, rows: seq<Row>, i: nat)
    requires i < |rows| && Tradable(p, rows) && Days(p, score, rows, i).position.Some?
    ensures i > StartIdx(p)
  {
  }

  lemma LostEverything(equity: real, result: real)
    ensures Grow(equity, result) == 0.0 <==> equity == 0.0 || result == -1.0
  {
  }

  /** A flat price that doubles on the last of 202 days. */
  function DoublingRows(): seq<Row> {
    seq(202, i => var price := if i == 201 then 2.0 else 1.0; Row("", price, price, price, 0.0))
  }

  /** A buy signal on day 200 alone. */
  function BuyOnce(window: seq<Row>): real {
    if |window| == 201 then 1.0 else 0.0
  }

  const NO_FEE: Params := Params(1.0, 0.0, 0.5, 0.0, 0)

  /** The one holding day of such a run. */
  lemma DoublingDay(row: Row, b: Book, pos: Position)
    requires row.close == 2.0 && pos.direction == Long && pos.entryPrice == 1.0 && b == EMPTY_BOOK.(position := Some(pos))
    ensures var b' := HoldingDay(NO_FEE, 0.0, row, 201, b);
            b'.equity == 20000.0 && b'.marks == [40000.0] && b'.position.None?
  {
    assert Gain(Long, 1.0, 2.0) == 1.0 && ExitPrice(NO_FEE, Long, 2.0) == 2.0;
  }

  /** Bought at 1 and left at 2 without a fee: 20000 is booked and 40000 tracked. */
  lemma ExitDayMarkExample()
    ensures Tradable(NO_FEE, DoublingRows())
    ensures var b := Run(NO_FEE, BuyOnce, DoublingRows()); b.equity == 20000.0 && b.marks == [40000.0]
  {
    hide HoldingDay;
    var rows := DoublingRows();
    forall i | 0 <= i < |rows| ensures RowTradable(NO_FEE, rows[i]) {}
    var b0, b1 := Days(NO_FEE, BuyOnce, rows, 200), Days(NO_FEE, BuyOnce, rows, 201);
    assert b1 == Day(NO_FEE, BuyOnce, rows, 200, b0);
    var pos := Position(Long, 1.0, 200, rows[200].date);
    assert b1 == EMPTY_BOOK.(position := Some(pos));
    DoublingDay(rows[201], b1, pos);
    assert Days(NO_FEE, BuyOnce, rows, 202) == Day(NO_FEE, BuyOnce, rows, 201, b1);
  }

  lemma ProductZero(a: real, g: real)
    ensures Grow(a, g) == a <==> a == 0.0 || g == 0.0
  {
    assert a * (1.0 + g) == a + a * g;
  }

  // ---- what a trade is --------------------------------------------------------

  function ScoreAt(score: Score, rows: seq<Row>, i: nat): real
    requires i < |rows|
  {
    score(rows[..i + 1])
  }

  /** The position is what its day's score and close call for: long at or above the threshold, short at or below minus it. */
  ghost predicate IsOpenedBy(p: Params, pos: Position, s: real, row: Row) {
    && pos.entryDate == row.date
    && match pos.direction
       case Long => s >= p.entryThreshold && pos.entryPrice == row.close * (1.0 + p.feeRate)
       case Short => s < p.entryThreshold && s <= -p.entryThreshold && pos.entryPrice == row.close * (1.0 - p.feeRate)
  }

  /** The close has moved against the position by the stop's part of the entry price. */
  ghost predicate StopHit(p: Params, pos: Position, price: real) {
    var loss := if pos.direction.Long? then pos.entryPrice - price else price - pos.entryPrice;
    if pos.entryPrice > 0.0 then loss >= p.stopLossPct * pos.entryPrice else loss <= p.stopLossPct * pos.entryPrice
  }

  /** The score no longer supports the position. */
  ghost predicate Flips(p: Params, pos: Position, s: real) {
    if pos.direction.Long? then s <= p.exitThreshold else s >= -p.exitThreshold
  }

  /** The position was opened by that day's score and no later day before `n` gave a reason to leave it. */
  ghost predicate IsHeld(p: Params, score: Score, rows: seq<Row>, pos: Position, n: nat)
    requires n <= |rows|
  {
    && 0 <= pos.entryIdx < n && pos.entryPrice != 0.0
    && IsOpenedBy(p, pos, ScoreAt(score, rows, pos.entryIdx), rows[pos.entryIdx])
    && forall k :: pos.entryIdx < k < n ==> !StopHit(p, pos, rows[k].close) && !Flips(p, pos, ScoreAt(score, rows, k))
  }

  /** The result of a trade that is left at close `price`, the fee paid once more. */
  ghost predicate IsResult(p: Params, t: Trade, price: real) {
    t.pnl * t.entryPrice
    == if t.direction.Long? then price * (1.0 - p.feeRate) - t.entryPrice else t.entryPrice - price * (1.0 + p.feeRate)
  }

  /**
   * A trade, in scores and prices alone: a position opened by its day's score and left on the first
   * day whose close hits the stop or whose score flips, or at the end of the data.
   */
  ghost predicate IsTrade(p: Params, score: Score, rows: seq<Row>, t: Trade) {
    var pos := Position(t.direction, t.entryPrice, t.entryIdx, t.entryDate);
    && 0 <= t.entryIdx <= t.exitIdx < |rows| && t.entryPrice != 0.0
    && var price := rows[t.exitIdx].close;
       && t.exitDate == rows[t.exitIdx].date && IsResult(p, t, price)
       && match t.reason
          case EndOfData => t.exitPrice == price && t.exitIdx == |rows| - 1 && IsHeld(p, score, rows, pos, |rows|)
          case StopLoss => IsHeld(p, score, rows, pos, t.exitIdx) && t.exitPrice == PaidOut(p, t.direction, price)
                           && StopHit(p, pos, price)
          case SignalFlip => IsHeld(p, score, rows, pos, t.exitIdx) && t.exitPrice == PaidOut(p, t.direction, price)
                             && !StopHit(p, pos, price) && Flips(p, pos, ScoreAt(score, rows, t.exitIdx))
  }

  /** The price of an exit with its fee, which lowers what a long gets and raises what a short pays. */
  ghost function PaidOut(p: Params, d: Direction, price: real): real {
    price + (if d.Long? then -1.0 else 1.0) * price * p.feeRate
  }

  /** The entry rule opens exactly such positions. */
  lemma EntrySignalIs(p: Params, s: real, row: Row, i: int, pos: Position)
    ensures EntrySignal(p, s, row, i) == Some(pos) <==> pos.entryIdx == i && IsOpenedBy(p, pos, s, row)
    ensures EntrySignal(p, s, row, i).Some? <==> s >= p.entryThreshold || s <= -p.entryThreshold
  {
    var r := EntrySignal(p, s, row, i);
    if r.Some? && pos.entryIdx == i && IsOpenedBy(p, pos, s, row) {
      assert r.value.direction == pos.direction;
      assert r.value.entryPrice == pos.entryPrice;
      assert r.value == pos;
    }
  }

  lemma QuotientAtMost(x: real, y: real, c: real)
    requires y != 0.0
    ensures x / y <= c <==> if y > 0.0 then x <= c * y else x >= c * y
  {
    var q := x / y;
    assert q * y == x;
    if y > 0.0 {
      if q <= c { assert (c - q) * y >= 0.0; } else { assert (q - c) * y > 0.0; }
    } else {
      if q <= c { assert (c - q) * -y >= 0.0; } else { assert (q - c) * -y > 0.0; }
    }
  }

  /** The exit rule: the stop first, then the score. */
  lemma ExitSignalIs(p: Params, pos: Position, s: real, price: real)
    requires pos.entryPrice != 0.0
    ensures ExitSignal(p, pos, s, price)
            == if StopHit(p, pos, price) then Some(StopLoss) else if Flips(p, pos, s) then Some(SignalFlip) else None
  {
    var e := pos.entryPrice;
    QuotientAtMost(if pos.direction.Long? then price - e else e - price, e, -p.stopLossPct);
  }

  lemma ResultIs(p: Params, pos: Position, row: Row, i: int, exitPrice: real, reason: ExitReason)
    requires pos.entryPrice != 0.0
    ensures IsResult(p, CloseTrade(p, pos, row, i, exitPrice, reason), row.close)
    ensures ExitPrice(p, pos.direction, row.close) == PaidOut(p, pos.direction, row.close)
  {
    GainIs(pos.direction, pos.entryPrice, ExitPrice(p, pos.direction, row.close));
  }

  ghost predicate BookIsFaithful(p: Params, score: Score, rows: seq<Row>, b: Book, n: nat)
    requires n <= |rows|
  {
    && (b.position.Some? ==> IsHeld(p, score, rows, b.position.value, n))
    && (forall t :: t in b.trades ==> IsTrade(p, score, rows, t) && !t.reason.EndOfData?)
  }

  lemma ExitIsTrade(p: Params, score: Score, rows: seq<Row>, pos: Position, i: nat, reason: ExitReason)
    requires i < |rows| && IsHeld(p, score, rows, pos, i) && !reason.EndOfData?
    requires ExitSignal(p, pos, ScoreAt(score, rows, i), rows[i].close) == Some(reason)
    ensures IsTrade(p, score, rows, CloseTrade(p, pos, rows[i], i, ExitPrice(p, pos.direction, rows[i].close), reason))
  {
    hide ExitSignal, Gain, ExitPrice, StopHit, Flips, PaidOut, IsResult;
    ExitSignalIs(p, pos, ScoreAt(score, rows, i), rows[i].close);
    ResultIs(p, pos, rows[i], i, ExitPrice(p, pos.direction, rows[i].close), reason);
  }

  lemma DayIsFaithful(p: Params, score: Score, rows: seq<Row>, i: nat, b: Book)
    requires i < |rows| && Tradable(p, rows) && Open(b) && BookIsFaithful(p, score, rows, b, i)
    ensures BookIsFaithful(p, score, rows, Day(p, score, rows, i, b), i + 1)
  {
    hide Gain, ExitPrice, IsTrade, EntryPrice, CloseTrade, EntrySignal, ExitSignal, StopHit, Flips, IsOpenedBy;
    var s := ScoreAt(score, rows, i);
    var b' := Day(p, score, rows, i, b);
    if b.position.None? {
      assert b'.trades == b.trades;
      assert RowTradable(p, rows[i]);
      if b'.position.Some? { EntrySignalIs(p, s, rows[i], i, b'.position.value); }
    } else {
      var pos := b.position.value;
      var exit := ExitSignal(p, pos, s, rows[i].close);
      ExitSignalIs(p, pos, s, rows[i].close);
      if exit.Some? {
        var trade := CloseTrade(p, pos, rows[i], i, ExitPrice(p, pos.direction, rows[i].close), exit.value);
        ExitIsTrade(p, score, rows, pos, i, exit.value);
        assert b'.position.None? && b'.trades == b.trades + [trade];
        CloseKeepsReason(p, pos, rows[i], i, ExitPrice(p, pos.direction, rows[i].close), exit.value);
      } else {
        assert b'.trades == b.trades && b'.position == b.position;
      }
    }
  }

  lemma CloseKeepsReason(p: Params, pos: Position, row: Row, i: int, exitPrice: real, reason: ExitReason)
    requires pos.entryPrice != 0.0
    ensures CloseTrade(p, pos, row, i, exitPrice, reason).reason == reason
  {
  }

  lemma {:induction false} DaysAreFaithful(p: Params, score: Score, rows: seq<Row>, n: nat)
    requires n <= |rows| && Tradable(p, rows)
    ensures BookIsFaithful(p, score, rows, Days(p, score, rows, n), n)
    decreases n
  {
    hide Day, IsTrade, IsHeld;
    if n > StartIdx(p) {
      DaysAreFaithful(p, score, rows, n - 1);
      DayIsFaithful(p, score, rows, n - 1, Days(p, score, rows, n - 1));
    }
  }

  /** Every reported trade is one: entered on a signal, priced with the fee, left on the first exit signal or at the end. */
  lemma TradesAreFaithful(p: Params, score: Score, rows: seq<Row>, t: Trade)
    requires Tradable(p, rows) && t in Run(p, score, rows).trades
    ensures IsTrade(p, score, rows, t)
  {
    hide Days, Gain, ExitPrice, IsHeld, IsResult, IsTrade;
    DaysAreFaithful(p, score, rows, |rows|);
    HasRows(p, score, rows, |rows|);
    var b := Days(p, score, rows, |rows|);
    if b.position.Some? { EndIsTrade(p, score, rows, b.position.value); }
  }

  lemma EndIsTrade(p: Params, score: Score, rows: seq<Row>, pos: Position)
    requires rows != [] && IsHeld(p, score, rows, pos, |rows|)
    ensures var row := rows[|rows| - 1]; IsTrade(p, score, rows, CloseTrade(p, pos, row, |rows| - 1, row.close, EndOfData))
  {
    hide Gain, ExitPrice, IsHeld, IsResult, StopHit, Flips;
    var row := rows[|rows| - 1];
    HeldFrom(p, score, rows, pos, |rows|);
    ResultIs(p, pos, row, |rows| - 1, row.close, EndOfData);
  }

  lemma HeldFrom(p: Params, score: Score, rows: seq<Row>, pos: Position, n: nat)
    requires n <= |rows| && IsHeld(p, score, rows, pos, n)
    ensures 0 <= pos.entryIdx < n && pos.entryPrice != 0.0
  {
  }

  // ---- no signal is missed ----------------------------------------------------

  /** Scoring starts after 200 rows, and after the lookback if that is longer. */
  ghost predicate IsScored(p: Params, k: int) {
    k >= 200 && k >= p.lookback
  }

  ghost predicate SignalsEntry(p: Params, score: Score, rows: seq<Row>, k: nat)
    requires k < |rows|
  {
    ScoreAt(score, rows, k) >= p.entryThreshold || ScoreAt(score, rows, k) <= -p.entryThreshold
  }

  /** Row `k` lies within one of the trades. */
  ghost predicate InTrade(trades: seq<Trade>, k: int) {
    exists j :: 0 <= j < |trades| && trades[j].entryIdx <= k <= trades[j].exitIdx
  }

  /** The signals of the scored rows before `n` all fall within a trade or the open position. */
  ghost predicate BookMissesNothing(p: Params, score: Score, rows: seq<Row>, b: Book, n: nat)
    requires n <= |rows|
  {
    && (forall j :: 0 <= j < |b.trades| ==> b.trades[j].entryIdx >= StartIdx(p))
    && (b.position.Some? ==> b.position.value.entryIdx >= StartIdx(p))
    && (forall k :: StartIdx(p) <= k < n && SignalsEntry(p, score, rows, k) ==>
          InTrade(b.trades, k) || (b.position.Some? && b.position.value.entryIdx <= k))
  }

  /** Closing a position covers every row from its entry on. */
  lemma InTradeSnoc(trades: seq<Trade>, t: Trade, k: int)
    ensures InTrade(trades + [t], k) <==> InTrade(trades, k) || t.entryIdx <= k <= t.exitIdx
  {
    var all := trades + [t];
    if InTrade(trades, k) {
      var j :| 0 <= j < |trades| && trades[j].entryIdx <= k <= trades[j].exitIdx;
      assert all[j] == trades[j];
    }
    if t.entryIdx <= k <= t.exitIdx {
      assert all[|trades|] == t;
    }
  }

  lemma CloseMissesNothing(p: Params, score: Score, rows: seq<Row>, b: Book, t: Trade, b': Book, n: nat, m: nat)
    requires n <= m <= |rows| && BookMissesNothing(p, score, rows, b, n) && b.position.Some?
    requires t.entryIdx == b.position.value.entryIdx < m && t.exitIdx == m - 1 && m <= n + 1
    requires b'.trades == b.trades + [t] && b'.position.None?
    ensures BookMissesNothing(p, score, rows, b', m)
  {
    hide SignalsEntry, InTrade;
    forall k | StartIdx(p) <= k < m && SignalsEntry(p, score, rows, k) ensures InTrade(b'.trades, k) {
      InTradeSnoc(b.trades, t, k);
    }
  }

  lemma DayMissesNothing(p: Params, score: Score, rows: seq<Row>, i: nat, b: Book)
    requires StartIdx(p) <= i < |rows| && Tradable(p, rows) && Open(b)
    requires BookMissesNothing(p, score, rows, b, i) && (b.position.Some? ==> b.position.value.entryIdx < i)
    ensures BookMissesNothing(p, score, rows, Day(p, score, rows, i, b), i + 1)
  {
    hide Gain, ExitPrice, EntryPrice, InTrade, ExitSignal;
    var b' := Day(p, score, rows, i, b);
    if b.position.Some? {
      var pos := b.position.value;
      var exit := ExitSignal(p, pos, ScoreAt(score, rows, i), rows[i].close);
      if exit.Some? {
        var t := CloseTrade(p, pos, rows[i], i, ExitPrice(p, pos.direction, rows[i].close), exit.value);
        CloseMissesNothing(p, score, rows, b, t, b', i, i + 1);
      }
    }
  }

  lemma {:induction false} DaysMissNothing(p: Params, score: Score, rows: seq<Row>, n: nat)
    requires n <= |rows| && Tradable(p, rows)
    ensures BookMissesNothing(p, score, rows, Days(p, score, rows, n), n)
    decreases n
  {
    hide Day;
    if n > StartIdx(p) {
      DaysMissNothing(p, score, rows, n - 1);
      DaysInOrder(p, score, rows, n - 1);
      DayMissesNothing(p, score, rows, n - 1, Days(p, score, rows, n - 1));
    }
  }

  /** Every scored row that signals an entry lies within a reported trade. */
  lemma NoSignalIsMissed(p: Params, score: Score, rows: seq<Row>, k: nat)
    requires Tradable(p, rows)
    ensures forall j :: 0 <= j < |Run(p, score, rows).trades| ==> IsScored(p, Run(p, score, rows).trades[j].entryIdx)
    ensures k < |rows| && IsScored(p, k) && SignalsEntry(p, score, rows, k) ==> InTrade(Run(p, score, rows).trades, k)
  {
    hide Days, SignalsEntry, InTrade, Gain;
    var b := Days(p, score, rows, |rows|);
    DaysMissNothing(p, score, rows, |rows|);
    HasRows(p, score, rows, |rows|);
    DaysInOrder(p, score, rows, |rows|);
    if b.position.Some? {
      var row := rows[|rows| - 1];
      var t := CloseTrade(p, b.position.value, row, |rows| - 1, row.close, EndOfData);
      CloseMissesNothing(p, score, rows, b, t, Finish(p, rows, b), |rows|, |rows|);
    }
  }

  // ---- the trades are determined by the signals -------------------------------

  /** What a list of trades over these rows has to be, said without running the day loop. */
  ghost predicate IsTradeList(p: Params, score: Score, rows: seq<Row>, trades: seq<Trade>) {
    && InOrder(trades)
    && (forall j :: 0 <= j < |trades| ==> IsTrade(p, score, rows, trades[j]) && IsScored(p, trades[j].entryIdx))
    && (forall k :: 0 <= k < |rows| && IsScored(p, k) && SignalsEntry(p, score, rows, k) ==> InTrade(trades, k))
  }

  /** A day's score and close open one position. */
  lemma SamePosition(p: Params, score: Score, rows: seq<Row>, t: Trade, u: Trade)
    requires IsTrade(p, score, rows, t) && IsTrade(p, score, rows, u) && t.entryIdx == u.entryIdx
    ensures t.entryDate == u.entryDate && t.direction == u.direction && t.entryPrice == u.entryPrice
  {
    hide StopHit, Flips, PaidOut, IsResult;
  }

  /** A position is left on one day, for one reason. */
  lemma SameExit(p: Params, score: Score, rows: seq<Row>, t: Trade, u: Trade)
    requires IsTrade(p, score, rows, t) && IsTrade(p, score, rows, u) && t.entryIdx == u.entryIdx
    requires t.entryDate == u.entryDate && t.direction == u.direction && t.entryPrice == u.entryPrice
    ensures t.exitIdx == u.exitIdx && t.reason == u.reason && t.exitPrice == u.exitPrice && t.exitDate == u.exitDate
  {
    hide StopHit, Flips, PaidOut, IsResult, IsOpenedBy;
  }

  /** A trade is determined by its entry row. */
  lemma SameEntrySameTrade(p: Params, score: Score, rows: seq<Row>, t: Trade, u: Trade)
    requires IsTrade(p, score, rows, t) && IsTrade(p, score, rows, u) && t.entryIdx == u.entryIdx
    requires t.holdingDays == t.exitIdx - t.entryIdx && u.holdingDays == u.exitIdx - u.entryIdx
    ensures t == u
  {
    hide StopHit, Flips, PaidOut, IsHeld, IsResult;
    SamePosition(p, score, rows, t, u);
    SameExit(p, score, rows, t, u);
    SameResult(p, t, u, rows[t.exitIdx].close);
    assert t == u.(pnl := t.pnl);
  }

  lemma SameResult(p: Params, t: Trade, u: Trade, price: real)
    requires IsResult(p, t, price) && IsResult(p, u, price)
    requires t.direction == u.direction && t.entryPrice == u.entryPrice != 0.0
    ensures t.pnl == u.pnl
  {
    SameFactor(t.pnl, u.pnl, t.entryPrice);
  }

  lemma {:induction false} LaterEntries(trades: seq<Trade>, j: nat, k: nat)
    requires InOrder(trades) && j < k < |trades|
    ensures trades[j].exitIdx < trades[k].entryIdx
    decreases k
  {
    if j < k - 1 { LaterEntries(trades, j, k - 1); }
  }

  /** After equal beginnings the next trade of one list is not entered before that of the other. */
  lemma NextEntry(p: Params, score: Score, rows: seq<Row>, ts: seq<Trade>, us: seq<Trade>, k: nat)
    requires IsTradeList(p, score, rows, ts) && IsTradeList(p, score, rows, us)
    requires k < |ts| && k <= |us| && ts[..k] == us[..k]
    ensures k < |us| && us[k].entryIdx <= ts[k].entryIdx
  {
    hide ExitSignal, Gain, ExitPrice;
    var i := ts[k].entryIdx;
    assert IsTrade(p, score, rows, ts[k]);
    assert SignalsEntry(p, score, rows, i);
    assert InTrade(us, i);
    var j :| 0 <= j < |us| && us[j].entryIdx <= i <= us[j].exitIdx;
    if j < k {
      assert us[..k][j] == ts[..k][j];
      LaterEntries(ts, j, k);
      assert false;
    }
    if k < j { LaterEntries(us, k, j); }
  }

  lemma TradeAt(p: Params, score: Score, rows: seq<Row>, ts: seq<Trade>, k: nat)
    requires IsTradeList(p, score, rows, ts) && k < |ts|
    ensures IsTrade(p, score, rows, ts[k]) && ts[k].holdingDays == ts[k].exitIdx - ts[k].entryIdx
  {
    hide IsTrade, InTrade, SignalsEntry;
  }

  lemma {:induction false} SameBeginnings(p: Params, score: Score, rows: seq<Row>, ts: seq<Trade>, us: seq<Trade>, k: nat)
    requires IsTradeList(p, score, rows, ts) && IsTradeList(p, score, rows, us) && k <= |ts|
    ensures k <= |us| && ts[..k] == us[..k]
  {
    hide IsTradeList, IsTrade;
    if k > 0 {
      SameBeginnings(p, score, rows, ts, us, k - 1);
      NextEntry(p, score, rows, ts, us, k - 1);
      NextEntry(p, score, rows, us, ts, k - 1);
      TradeAt(p, score, rows, ts, k - 1);
      TradeAt(p, score, rows, us, k - 1);
      SameEntrySameTrade(p, score, rows, ts[k - 1], us[k - 1]);
      SliceSnoc(ts, 0, k);
      SliceSnoc(us, 0, k);
    }
  }

  /** The day loop finds the trades of the rows: a list is that of the run iff it is a list of trades missing no signal. */
  lemma TradesAreDetermined(p: Params, score: Score, rows: seq<Row>, trades: seq<Trade>)
    requires Tradable(p, rows)
    ensures IsTradeList(p, score, rows, trades) <==> trades == Run(p, score, rows).trades
  {
    hide IsTrade, SignalsEntry, InTrade, Run, InOrder;
    var found := Run(p, score, rows).trades;
    TradesNeverOverlap(p, score, rows);
    forall j | 0 <= j < |found| ensures IsTrade(p, score, rows, found[j]) { TradesAreFaithful(p, score, rows, found[j]); }
    NoSignalIsMissed(p, score, rows, 0);
    forall k | 0 <= k < |rows| && IsScored(p, k) && SignalsEntry(p, score, rows, k) ensures InTrade(found, k) {
      NoSignalIsMissed(p, score, rows, k);
    }
    assert IsTradeList(p, score, rows, found);
    if IsTradeList(p, score, rows, trades) {
      SameBeginnings(p, score, rows, trades, found, |trades|);
      SameBeginnings(p, score, rows, found, trades, |found|);
      assert trades[..|trades|] == trades && found[..|found|] == found;
    }
  }
}
