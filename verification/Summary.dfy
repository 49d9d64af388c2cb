/** The metrics of a backtest: `summarize` (app/src/backtest/simulator.ts). */
module Summary {
  import opened Pricing
  import opened Guards
  import opened Simulator
  import opened Backtest

  /** JavaScript maps keep the order of first insertion; here they are association lists. */
  datatype Entry<K> = Entry(key: K, value: int)

  function Add<K(==)>(entries: seq<Entry<K>>, key: K, delta: int): seq<Entry<K>> {
    if entries == [] then [Entry(key, delta)]
    else if entries[0].key == key then [Entry(key, entries[0].value + delta)] + entries[1..]
    else [entries[0]] + Add(entries[1..], key, delta)
  }

  function Get<K(==)>(entries: seq<Entry<K>>, key: K): int {
    if entries == [] then 0 else if entries[0].key == key then entries[0].value else Get(entries[1..], key)
  }

  function Total<K>(entries: seq<Entry<K>>): int {
    if entries == [] then 0 else entries[0].value + Total(entries[1..])
  }

  lemma {:induction false} AddMeaning<K>(entries: seq<Entry<K>>, key: K, delta: int)
    ensures Total(Add(entries, key, delta)) == Total(entries) + delta
    ensures forall k :: Get(Add(entries, key, delta), k) == Get(entries, k) + if k == key then delta else 0
  {
    if entries != [] && entries[0].key != key {
      AddMeaning(entries[1..], key, delta);
    }
  }

  datatype Metrics = Metrics(
    won: nat, lost: nat, voided: nat, pnl: int, maxDrawdown: int, monthly: seq<Entry<string>>, skips: seq<Entry<Reason>>)

  // ---- what the figures stand for -----------------------------------------------------------------------

  function Gain(r: Row): int { if r.skip.Some? then 0 else PnlOf(r) }

  /** Cumulative P&L after the rows; 0 before any. */
  function Cum(rows: seq<Row>): int {
    if rows == [] then 0 else Cum(rows[..|rows| - 1]) + Gain(rows[|rows| - 1])
  }

  /** The curve of cumulative P&L: one point before any row and one after each. */
  function Curve(rows: seq<Row>): (c: seq<int>)
    ensures |c| == |rows| + 1
  {
    if rows == [] then [0] else Curve(rows[..|rows| - 1]) + [Cum(rows)]
  }

  ghost predicate IsPeak(c: seq<int>, peak: int) {
    peak in c && forall i :: 0 <= i < |c| ==> c[i] <= peak
  }

  /** The deepest fall of the curve from any point to any later one. */
  ghost predicate IsMaxDrawdown(c: seq<int>, d: int) {
    && (exists i, j :: 0 <= i <= j < |c| && c[i] - c[j] == d)
    && forall i, j :: 0 <= i <= j < |c| ==> c[i] - c[j] <= d
  }

  function MonthOf(playedAt: map<nat, string>, r: Row): string {
    var at := if r.game in playedAt then playedAt[r.game] else "";
    if |at| <= 7 then at else at[..7]
  }

  function MonthPnl(rows: seq<Row>, playedAt: map<nat, string>, month: string): int {
    if rows == [] then 0
    else
      var r := rows[|rows| - 1];
      MonthPnl(rows[..|rows| - 1], playedAt, month) + if MonthOf(playedAt, r) == month then Gain(r) else 0
  }

  function SkipCount(rows: seq<Row>, reason: Reason): nat {
    if rows == [] then 0
    else SkipCount(rows[..|rows| - 1], reason) + if rows[|rows| - 1].skip == Some(reason) then 1 else 0
  }

  datatype Settled = Won | Lost | Void

  function SettledAs(r: Row): Settled {
    if r.bought.Some? && r.bought.value.valueBp == 10_000 then Won
    else if r.bought.Some? && r.bought.value.valueBp == 0 then Lost
    else Void
  }

  function FillCount(rows: seq<Row>, x: Settled): nat {
    if rows == [] then 0
    else
      var r := rows[|rows| - 1];
      FillCount(rows[..|rows| - 1], x) + if r.skip.None? && SettledAs(r) == x then 1 else 0
  }

  /** The sums over the fills behind the averages; `decidedPrices` leaves void fills out. */
  datatype Sums = Sums(invested: int, prices: int, fees: int, decidedPrices: int)

  function PriceOf(r: Row): int { if r.priceBp.Some? then r.priceBp.value else 0 }

  function CostOf(r: Row): int { if r.bought.Some? then CostMicros(r.bought.value.cc, PriceOf(r)) else 0 }

  function FeeOf(r: Row): int { if r.bought.Some? then r.bought.value.fee else 0 }

  function PayoutOf(r: Row): int { if r.bought.Some? then PayoutMicros(r.bought.value.cc, r.bought.value.valueBp) else 0 }

  function SumsOf(rows: seq<Row>): Sums {
    if rows == [] then Sums(0, 0, 0, 0)
    else
      var x, r := SumsOf(rows[..|rows| - 1]), rows[|rows| - 1];
      if r.skip.Some? then x
      else Sums(x.invested + CostOf(r) + FeeOf(r), x.prices + PriceOf(r), x.fees + FeeOf(r), x.decidedPrices + DecidedPrice(r))
  }

  function DecidedPrice(r: Row): int { if SettledAs(r) == Void then 0 else PriceOf(r) }

  function Payouts(rows: seq<Row>): int {
    if rows == [] then 0
    else
      var r := rows[|rows| - 1];
      Payouts(rows[..|rows| - 1]) + if r.skip.Some? then 0 else PayoutOf(r)
  }

  /** One point of the equity and drawdown series. */
  datatype Point = Point(game: nat, cum: int, bankroll: int, drawdown: int)

  /** The highest point of the curve. */
  function High(rows: seq<Row>): int {
    if rows == [] then 0 else Max(High(rows[..|rows| - 1]), Cum(rows))
  }

  /** One point after each fill: cumulative P&L, bankroll and the fall from the highest point so far. */
  function SeriesOf(rows: seq<Row>): seq<Point> {
    if rows == [] then []
    else
      var before, r := SeriesOf(rows[..|rows| - 1]), rows[|rows| - 1];
      if r.skip.Some? then before else before + [Point(r.game, Cum(rows), r.bankrollAfter, High(rows) - Cum(rows))]
  }

  ghost predicate CurveOk(rows: seq<Row>, pnl: int, peak: int, maxDrawdown: int) {
    pnl == Cum(rows) && IsPeak(Curve(rows), peak) && IsMaxDrawdown(Curve(rows), maxDrawdown)
  }

  ghost predicate MonthsOk(rows: seq<Row>, playedAt: map<nat, string>, monthly: seq<Entry<string>>) {
    Total(monthly) == Cum(rows) && forall month :: Get(monthly, month) == MonthPnl(rows, playedAt, month)
  }

  ghost predicate SkipsOk(rows: seq<Row>, skips: seq<Entry<Reason>>) {
    forall reason :: Get(skips, reason) == SkipCount(rows, reason)
  }

  /** Every row is either skipped or filled, and a fill is won, lost or void. */
  predicate CountsOk(rows: seq<Row>, m: Metrics) {
    && m.won == FillCount(rows, Won) && m.lost == FillCount(rows, Lost) && m.voided == FillCount(rows, Void)
    && Total(m.skips) + m.won + m.lost + m.voided == |rows|
  }

  /** What a summary of the rows promises. */
  ghost predicate Summarizes(rows: seq<Row>, playedAt: map<nat, string>, m: Metrics) {
    && m.pnl == Cum(rows) && IsMaxDrawdown(Curve(rows), m.maxDrawdown)
    && MonthsOk(rows, playedAt, m.monthly) && SkipsOk(rows, m.skips) && CountsOk(rows, m)
  }

  // ---- the loop -----------------------------------------------------------------------------------------

  /** The running peak gives the drawdown: it is enough to look back to the highest point. */
  lemma PointAdded(c: seq<int>, p: int, peak: int, d: int)
    requires IsPeak(c, peak) && IsMaxDrawdown(c, d)
    ensures IsPeak(c + [p], Max(peak, p)) && IsMaxDrawdown(c + [p], Max(d, Max(peak, p) - p))
  {
    var c', peak' := c + [p], Max(peak, p);
    var d' := Max(d, peak' - p);
    assert c'[|c|] == p;
    var k :| 0 <= k < |c| && c[k] == peak;
    assert c'[k] == peak;
    if d' == d {
      var i, j :| 0 <= i <= j < |c| && c[i] - c[j] == d;
      assert c'[i] - c'[j] == d;
    } else {
      assert c'[if peak' == p then |c| else k] - c'[|c|] == d';
    }
  }

  lemma CurveAppend(rows: seq<Row>, row: Row)
    ensures Cum(rows + [row]) == Cum(rows) + Gain(row)
    ensures Curve(rows + [row]) == Curve(rows) + [Cum(rows) + Gain(row)]
  {
    assert (rows + [row])[..|rows|] == rows;
  }

  lemma CurveGrows(rows: seq<Row>, row: Row, pnl: int, peak: int, d: int)
    requires CurveOk(rows, pnl, peak, d)
    ensures var pnl' := pnl + Gain(row);
            CurveOk(rows + [row], pnl', Max(peak, pnl'), Max(d, Max(peak, pnl') - pnl'))
  {
    CurveAppend(rows, row);
    PointAdded(Curve(rows), pnl + Gain(row), peak, d);
  }

  lemma {:induction false} CurveEnds(rows: seq<Row>)
    ensures Curve(rows)[|rows|] == Cum(rows)
  {
  }

  /** A skipped row leaves the curve where it was. */
  lemma SkipKeepsCurve(rows: seq<Row>, row: Row, pnl: int, peak: int, d: int)
    requires CurveOk(rows, pnl, peak, d) && row.skip.Some?
    ensures CurveOk(rows + [row], pnl, peak, d)
  {
    CurveGrows(rows, row, pnl, peak, d);
    CurveEnds(rows);
    var c := Curve(rows);
    var k :| 0 <= k < |c| && c[k] == peak;
    assert c[k] - c[|rows|] <= d;
  }

  lemma CurveStarts(rows: seq<Row>)
    requires rows == []
    ensures CurveOk(rows, 0, 0, 0)
  {
    var c := Curve(rows);
    assert c[0] - c[0] == 0;
  }

  lemma MonthsGrow(rows: seq<Row>, row: Row, playedAt: map<nat, string>, monthly: seq<Entry<string>>)
    requires MonthsOk(rows, playedAt, monthly)
    ensures MonthsOk(rows + [row], playedAt, if row.skip.None? then Add(monthly, MonthOf(playedAt, row), Gain(row)) else monthly)
  {
    assert (rows + [row])[..|rows|] == rows;
    AddMeaning(monthly, MonthOf(playedAt, row), Gain(row));
  }

  lemma SkipsGrow(rows: seq<Row>, row: Row, skips: seq<Entry<Reason>>)
    requires SkipsOk(rows, skips)
    ensures SkipsOk(rows + [row], if row.skip.Some? then Add(skips, row.skip.value, 1) else skips)
    ensures row.skip.Some? ==> Total(Add(skips, row.skip.value, 1)) == Total(skips) + 1
  {
    assert (rows + [row])[..|rows|] == rows;
    if row.skip.Some? { AddMeaning(skips, row.skip.value, 1); }
  }

  lemma CountsGrow(rows: seq<Row>, row: Row, x: Settled)
    ensures FillCount(rows + [row], x) == FillCount(rows, x) + if row.skip.None? && SettledAs(row) == x then 1 else 0
  {
    assert (rows + [row])[..|rows|] == rows;
  }

  ghost predicate LoopOk(rows: seq<Row>, playedAt: map<nat, string>, m: Metrics, peak: int) {
    && CurveOk(rows, m.pnl, peak, m.maxDrawdown)
    && MonthsOk(rows, playedAt, m.monthly) && SkipsOk(rows, m.skips) && CountsOk(rows, m)
  }

  function PlusOne(row: Row, x: Settled): nat { if row.skip.None? && SettledAs(row) == x then 1 else 0 }

  lemma CountsOneMore(rows: seq<Row>, row: Row, m: Metrics, m': Metrics)
    requires CountsOk(rows, m)
    requires m'.won == m.won + PlusOne(row, Won) && m'.lost == m.lost + PlusOne(row, Lost) && m'.voided == m.voided + PlusOne(row, Void)
    requires Total(m'.skips) == Total(m.skips) + if row.skip.Some? then 1 else 0
    ensures CountsOk(rows + [row], m')
  {
    CountsGrow(rows, row, Won);
    CountsGrow(rows, row, Lost);
    CountsGrow(rows, row, Void);
  }

  lemma SkipRound(rows: seq<Row>, row: Row, playedAt: map<nat, string>, m: Metrics, peak: int)
    requires LoopOk(rows, playedAt, m, peak) && row.skip.Some?
    ensures LoopOk(rows + [row], playedAt, m.(skips := Add(m.skips, row.skip.value, 1)), peak)
  {
    SkipKeepsCurve(rows, row, m.pnl, peak, m.maxDrawdown);
    MonthsGrow(rows, row, playedAt, m.monthly);
    SkipsGrow(rows, row, m.skips);
    CountsOneMore(rows, row, m, m.(skips := Add(m.skips, row.skip.value, 1)));
  }

  lemma FillRound(rows: seq<Row>, row: Row, playedAt: map<nat, string>, m: Metrics, peak: int, m': Metrics)
    requires LoopOk(rows, playedAt, m, peak) && row.skip.None? && m'.skips == m.skips
    requires m'.won == m.won + PlusOne(row, Won) && m'.lost == m.lost + PlusOne(row, Lost) && m'.voided == m.voided + PlusOne(row, Void)
    requires m'.pnl == m.pnl + Gain(row) && m'.monthly == Add(m.monthly, MonthOf(playedAt, row), Gain(row))
    requires m'.maxDrawdown == Max(m.maxDrawdown, Max(peak, m'.pnl) - m'.pnl)
    ensures LoopOk(rows + [row], playedAt, m', Max(peak, m'.pnl))
  {
    CurveGrows(rows, row, m.pnl, peak, m.maxDrawdown);
    MonthsGrow(rows, row, playedAt, m.monthly);
    SkipsGrow(rows, row, m.skips);
    CountsOneMore(rows, row, m, m');
  }

  datatype Tally = Tally(m: Metrics, peak: int)

  /** The loop's variables after one more row. */
  function Next(v: Tally, t: Row, playedAt: map<nat, string>): Tally {
    var m := v.m;
    if t.skip.Some? then v.(m := m.(skips := Add(m.skips, t.skip.value, 1)))
    else
      var pnl := m.pnl + PnlOf(t);
      var peak := Max(v.peak, pnl);
      var won := m.won + if SettledAs(t) == Won then 1 else 0;
      var lost := m.lost + if SettledAs(t) == Lost then 1 else 0;
      var voided := m.voided + if SettledAs(t) == Void then 1 else 0;
      Tally(Metrics(won, lost, voided, pnl, Max(m.maxDrawdown, peak - pnl), Add(m.monthly, MonthOf(playedAt, t), PnlOf(t)), m.skips), peak)
  }

  function Tallied(rows: seq<Row>, playedAt: map<nat, string>): Tally {
    if rows == [] then Tally(Metrics(0, 0, 0, 0, 0, [], []), 0)
    else Next(Tallied(rows[..|rows| - 1], playedAt), rows[|rows| - 1], playedAt)
  }

  lemma NextTally(rows: seq<Row>, n: nat, playedAt: map<nat, string>)
    requires n < |rows|
    ensures Tallied(rows[..n + 1], playedAt) == Next(Tallied(rows[..n], playedAt), rows[n], playedAt)
  {
    assert rows[..n + 1][..n] == rows[..n];
  }

  lemma OneMoreRow(rows: seq<Row>, t: Row, playedAt: map<nat, string>, v: Tally)
    requires LoopOk(rows, playedAt, v.m, v.peak)
    ensures LoopOk(rows + [t], playedAt, Next(v, t, playedAt).m, Next(v, t, playedAt).peak)
  {
    if t.skip.Some? { SkipRound(rows, t, playedAt, v.m, v.peak); } else { FillRound(rows, t, playedAt, v.m, v.peak, Next(v, t, playedAt).m); }
  }

  lemma {:induction false} TallySummarizes(rows: seq<Row>, playedAt: map<nat, string>)
    ensures LoopOk(rows, playedAt, Tallied(rows, playedAt).m, Tallied(rows, playedAt).peak)
  {
    if rows == [] {
      CurveStarts(rows);
    } else {
      var n := |rows| - 1;
      TallySummarizes(rows[..n], playedAt);
      OneMoreRow(rows[..n], rows[n], playedAt, Tallied(rows[..n], playedAt));
      assert rows[..n] + [rows[n]] == rows;
    }
  }

  lemma TallyIsSummary(rows: seq<Row>, playedAt: map<nat, string>)
    ensures Summarizes(rows, playedAt, Tallied(rows, playedAt).m)
  {
    TallySummarizes(rows, playedAt);
  }

  lemma {:induction false} HighIsPeak(rows: seq<Row>)
    ensures IsPeak(Curve(rows), High(rows))
  {
    if rows != [] {
      var n := |rows| - 1;
      HighIsPeak(rows[..n]);
      var c := Curve(rows);
      assert c[|rows|] == Cum(rows);
      assert forall i :: 0 <= i < |rows| ==> c[i] == Curve(rows[..n])[i];
    }
  }

  lemma TallyPeakIsHigh(rows: seq<Row>, playedAt: map<nat, string>)
    ensures Tallied(rows, playedAt).peak == High(rows) && Tallied(rows, playedAt).m.pnl == Cum(rows)
  {
    TallySummarizes(rows, playedAt);
    HighIsPeak(rows);
  }

  lemma NextFigures(rows: seq<Row>, n: nat)
    requires n < |rows|
    ensures var x, r := SumsOf(rows[..n]), rows[n];
            SumsOf(rows[..n + 1])
            == if r.skip.Some? then x
               else Sums(x.invested + CostOf(r) + FeeOf(r), x.prices + PriceOf(r), x.fees + FeeOf(r), x.decidedPrices + DecidedPrice(r))
    ensures var done, r := rows[..n + 1], rows[n];
            SeriesOf(done)
            == if r.skip.Some? then SeriesOf(rows[..n])
               else SeriesOf(rows[..n]) + [Point(r.game, Cum(done), r.bankrollAfter, High(done) - Cum(done))]
  {
    assert rows[..n + 1][..n] == rows[..n];
  }

  method Summarize(rows: seq<Row>, playedAt: map<nat, string>) returns (m: Metrics, sums: Sums, series: seq<Point>)
    ensures Summarizes(rows, playedAt, m) && sums == SumsOf(rows) && series == SeriesOf(rows)
  {
    var won, lost, voided := 0, 0, 0;
    var pnl, peak, maxDrawdown := 0, 0, 0;
    var monthly: seq<Entry<string>>, skips: seq<Entry<Reason>> := [], [];
    sums, series := Sums(0, 0, 0, 0), [];
    var n := 0;
    while n < |rows|
      invariant 0 <= n <= |rows|
      invariant Tally(Metrics(won, lost, voided, pnl, maxDrawdown, monthly, skips), peak) == Tallied(rows[..n], playedAt)
      invariant sums == SumsOf(rows[..n]) && series == SeriesOf(rows[..n])
    {
      var t := rows[n];
      NextTally(rows, n, playedAt);
      NextFigures(rows, n);
      TallyPeakIsHigh(rows[..n + 1], playedAt);
      if t.skip.Some? {
        skips := Add(skips, t.skip.value, 1);
      } else {
        var price, fee := PriceOf(t), FeeOf(t);
        sums := Sums(sums.invested + CostOf(t) + fee, sums.prices + price, sums.fees + fee, sums.decidedPrices + DecidedPrice(t));
        pnl := pnl + PnlOf(t);
        match SettledAs(t) {
          case Won => won := won + 1;
          case Lost => lost := lost + 1;
          case Void => voided := voided + 1;
        }
        peak := Max(peak, pnl);
        maxDrawdown := Max(maxDrawdown, peak - pnl);
        series := series + [Point(t.game, pnl, t.bankrollAfter, peak - pnl)];
        monthly := Add(monthly, MonthOf(playedAt, t), PnlOf(t));
      }
      n := n + 1;
    }
    assert rows[..n] == rows;
    TallyIsSummary(rows, playedAt);
    m := Metrics(won, lost, voided, pnl, maxDrawdown, monthly, skips);
  }

  /** Where each fill's P&L is its payout less cost and fee, the net P&L is what was paid out less what was
      invested. */
  lemma {:induction false} NetIsPayoutsLessInvested(rows: seq<Row>)
    requires forall k :: 0 <= k < |rows| && rows[k].skip.None? ==> PnlOf(rows[k]) == PayoutOf(rows[k]) - CostOf(rows[k]) - FeeOf(rows[k])
    ensures Cum(rows) == Payouts(rows) - SumsOf(rows).invested
  {
    if rows != [] {
      NetIsPayoutsLessInvested(rows[..|rows| - 1]);
    }
  }

  /** In a backtest's summary the net P&L is the payouts less the invested amount. */
  lemma InvestedIsConsistent(x: Input, games: seq<Game>, initial: int)
    requires Simulation(x, games, initial).Some?
    ensures var rows := Simulation(x, games, initial).value.rows;
            Cum(rows) == Payouts(rows) - SumsOf(rows).invested
  {
    var rows := Simulation(x, games, initial).value.rows;
    var idx := BacktestMeaning(x, games, initial);
    forall k | 0 <= k < |rows| && rows[k].skip.None?
      ensures PnlOf(rows[k]) == PayoutOf(rows[k]) - CostOf(rows[k]) - FeeOf(rows[k])
    {
      assert RowFor(x, games, rows, initial, idx[k], k);
    }
    NetIsPayoutsLessInvested(rows);
  }

  /** No point of the series lies deeper below its high than the maximum drawdown. */
  lemma {:induction false} SeriesWithinDrawdown(rows: seq<Row>, d: int)
    requires IsMaxDrawdown(Curve(rows), d)
    ensures forall k :: 0 <= k < |SeriesOf(rows)| ==> 0 <= SeriesOf(rows)[k].drawdown <= d
  {
    if rows != [] {
      var n := |rows| - 1;
      TallySummarizes(rows[..n], map[]);
      SeriesWithinDrawdown(rows[..n], Tallied(rows[..n], map[]).m.maxDrawdown);
      LongerCurve(Curve(rows[..n]), Cum(rows), Tallied(rows[..n], map[]).m.maxDrawdown, d);
      HighIsPeak(rows);
      LastFall(rows, d);
    }
  }

  lemma LongerCurve(c: seq<int>, p: int, before: int, d: int)
    requires IsMaxDrawdown(c, before) && IsMaxDrawdown(c + [p], d)
    ensures before <= d
  {
    var c' := c + [p];
    var i, j :| 0 <= i <= j < |c| && c[i] - c[j] == before;
    assert c'[i] - c'[j] == before;
  }

  lemma LastFall(rows: seq<Row>, d: int)
    requires IsPeak(Curve(rows), High(rows)) && IsMaxDrawdown(Curve(rows), d)
    ensures 0 <= High(rows) - Cum(rows) <= d
  {
    CurveEnds(rows);
    var c := Curve(rows);
    var k :| 0 <= k < |c| && c[k] == High(rows);
    assert c[k] - c[|rows|] <= d;
  }

  lemma {:induction false} CumIsSumPnl(rows: seq<Row>)
    requires forall k :: 0 <= k < |rows| ==> rows[k].skip.Some? ==> rows[k].bought.None?
    ensures Cum(rows) == SumPnl(rows)
  {
    if rows != [] {
      CumIsSumPnl(rows[..|rows| - 1]);
    }
  }

  /** The net P&L of a backtest's summary is what its bankroll gained. */
  lemma NetPnlIsBankrollGain(x: Input, games: seq<Game>, initial: int, playedAt: map<nat, string>, m: Metrics)
    requires Simulation(x, games, initial).Some? && Summarizes(Simulation(x, games, initial).value.rows, playedAt, m)
    ensures Simulation(x, games, initial).value.bankroll == initial + m.pnl
  {
    var r := Simulation(x, games, initial).value;
    BankrollIsInitialPlusPnl(x, games, initial);
    var idx := BacktestMeaning(x, games, initial);
    forall k | 0 <= k < |r.rows| && r.rows[k].skip.Some?
      ensures r.rows[k].bought.None?
    {
      assert RowFor(x, games, r.rows, initial, idx[k], k);
    }
    CumIsSumPnl(r.rows);
  }

  // ---- the figures, row by row --------------------------------------------------------------------------

  function SumsPlus(x: Sums, y: Sums): Sums {
    Sums(x.invested + y.invested, x.prices + y.prices, x.fees + y.fees, x.decidedPrices + y.decidedPrices)
  }

  lemma Joined(a: seq<Row>, b: seq<Row>)
    requires b != []
    ensures (a + b)[..|a + b| - 1] == a + b[..|b| - 1] && (a + b)[|a + b| - 1] == b[|b| - 1]
  {
  }

  /** Every amount adds up over the rows. */
  lemma {:induction false} AmountsAdd(a: seq<Row>, b: seq<Row>, playedAt: map<nat, string>, month: string)
    ensures Cum(a + b) == Cum(a) + Cum(b) && Payouts(a + b) == Payouts(a) + Payouts(b)
    ensures MonthPnl(a + b, playedAt, month) == MonthPnl(a, playedAt, month) + MonthPnl(b, playedAt, month)
    decreases |b|
  {
    if b == [] {
      assert a + b == a;
    } else {
      Joined(a, b);
      AmountsAdd(a, b[..|b| - 1], playedAt, month);
    }
  }

  lemma {:induction false} SumsAdd(a: seq<Row>, b: seq<Row>)
    ensures SumsOf(a + b) == SumsPlus(SumsOf(a), SumsOf(b))
    decreases |b|
  {
    if b == [] {
      assert a + b == a;
    } else {
      Joined(a, b);
      SumsAdd(a, b[..|b| - 1]);
    }
  }

  /** And so does every count. */
  lemma {:induction false} CountsAdd(a: seq<Row>, b: seq<Row>, reason: Reason, x: Settled)
    ensures SkipCount(a + b, reason) == SkipCount(a, reason) + SkipCount(b, reason) && FillCount(a + b, x) == FillCount(a, x) + FillCount(b, x)
    decreases |b|
  {
    if b == [] {
      assert a + b == a;
    } else {
      Joined(a, b);
      CountsAdd(a, b[..|b| - 1], reason, x);
    }
  }

  /** What a fill counts: its P&L, cost and fee, price, fee, and its price once more if it was decided; one win at a
      dollar, one loss at none, one void otherwise; for the month of its game. */
  lemma FigureOfFill(r: Row, playedAt: map<nat, string>, month: string)
    requires r.skip.None? && r.bought.Some? && r.priceBp.Some?
    ensures var b, price := r.bought.value, r.priceBp.value;
            && Cum([r]) == b.pnl && Payouts([r]) == b.cc * b.valueBp
            && SumsOf([r]) == Sums(b.cc * price + b.fee, price, b.fee, if b.valueBp == 0 || b.valueBp == 10_000 then price else 0)
            && FillCount([r], Won) == (if b.valueBp == 10_000 then 1 else 0) && FillCount([r], Lost) == (if b.valueBp == 0 then 1 else 0)
            && FillCount([r], Void) == (if b.valueBp == 0 || b.valueBp == 10_000 then 0 else 1)
            && (forall reason :: SkipCount([r], reason) == 0)
            && (r.game in playedAt && |playedAt[r.game]| >= 7 ==>
                  MonthPnl([r], playedAt, month) == if playedAt[r.game][..7] == month then b.pnl else 0)
  {
    assert [r][..0] == [];
  }

  /** A skip counts once for its reason and nowhere else. */
  lemma FigureOfSkip(r: Row, playedAt: map<nat, string>, month: string)
    requires r.skip.Some?
    ensures Cum([r]) == 0 && Payouts([r]) == 0 && SumsOf([r]) == Sums(0, 0, 0, 0) && MonthPnl([r], playedAt, month) == 0
    ensures forall x :: FillCount([r], x) == 0
    ensures forall reason :: SkipCount([r], reason) == if r.skip.value == reason then 1 else 0
  {
    assert [r][..0] == [];
  }

  /** The point of the fill in row `i`. */
  ghost predicate IsPoint(rows: seq<Row>, i: nat, p: Point) {
    && i < |rows| && rows[i].skip.None? && p.game == rows[i].game && p.bankroll == rows[i].bankrollAfter
    && p.cum == Cum(rows[..i + 1]) && IsPeak(Curve(rows[..i + 1]), p.cum + p.drawdown)
  }

  /** The rows of the points, in order; every fill is one of them. */
  ghost predicate ArePoints(rows: seq<Row>, idx: seq<nat>, series: seq<Point>) {
    && |idx| == |series| && Increasing(idx)
    && (forall j :: 0 <= j < |idx| ==> IsPoint(rows, idx[j], series[j]))
    && (forall i :: 0 <= i < |rows| && rows[i].skip.None? ==> i in idx)
  }

  lemma PointStays(rows: seq<Row>, i: nat, p: Point)
    requires rows != [] && IsPoint(rows[..|rows| - 1], i, p)
    ensures IsPoint(rows, i, p)
  {
    assert rows[..|rows| - 1][..i + 1] == rows[..i + 1];
  }

  lemma NewPoint(rows: seq<Row>)
    requires rows != [] && rows[|rows| - 1].skip.None?
    ensures IsPoint(rows, |rows| - 1, Point(rows[|rows| - 1].game, Cum(rows), rows[|rows| - 1].bankrollAfter, High(rows) - Cum(rows)))
  {
    HighIsPeak(rows);
    assert rows[..|rows|] == rows;
  }

  lemma SkipKeepsPoints(rows: seq<Row>, idx: seq<nat>, series: seq<Point>)
    requires rows != [] && rows[|rows| - 1].skip.Some? && ArePoints(rows[..|rows| - 1], idx, series)
    ensures ArePoints(rows, idx, series)
  {
    forall j | 0 <= j < |idx|
      ensures IsPoint(rows, idx[j], series[j])
    {
      PointStays(rows, idx[j], series[j]);
    }
    forall i | 0 <= i < |rows| && rows[i].skip.None?
      ensures i in idx
    {
      assert rows[..|rows| - 1][i] == rows[i];
    }
  }

  lemma FillAddsPoint(rows: seq<Row>, idx: seq<nat>, series: seq<Point>, p: Point)
    requires rows != [] && ArePoints(rows[..|rows| - 1], idx, series) && IsPoint(rows, |rows| - 1, p)
    ensures ArePoints(rows, idx + [|rows| - 1], series + [p])
  {
    var n := |rows| - 1;
    IncreasingGrows(idx, n);
    forall j | 0 <= j < |idx| + 1
      ensures IsPoint(rows, (idx + [n])[j], (series + [p])[j])
    {
      if j < |idx| { PointStays(rows, idx[j], series[j]); }
    }
    forall i | 0 <= i < |rows| && rows[i].skip.None?
      ensures i in idx + [n]
    {
      if i < n { assert rows[..n][i] == rows[i]; } else { assert (idx + [n])[|idx|] == n; }
    }
  }

  /** The series has one point for each fill, in order, with its fall from the highest point of the curve so far. */
  lemma {:induction false} SeriesExactly(rows: seq<Row>) returns (idx: seq<nat>)
    ensures ArePoints(rows, idx, SeriesOf(rows))
  {
    idx := [];
    if rows != [] {
      var n := |rows| - 1;
      idx := SeriesExactly(rows[..n]);
      if rows[n].skip.Some? {
        SkipKeepsPoints(rows, idx, SeriesOf(rows[..n]));
      } else {
        NewPoint(rows);
        FillAddsPoint(rows, idx, SeriesOf(rows[..n]), Point(rows[n].game, Cum(rows), rows[n].bankrollAfter, High(rows) - Cum(rows)));
        idx := idx + [n];
      }
    }
  }
}
