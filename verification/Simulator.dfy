/** The backtest simulator (app/src/backtest/simulator.ts): a fold over historical games. */
module Simulator {
  import opened Pricing
  import opened Guards
  import opened Rule
  import opened GameClock

  datatype Market = Market(ticker: nat, ranges: seq<PriceRange>)

  datatype Game = Game(
    id: nat, finalHome: nat, finalAway: nat, goals: seq<Goal>,
    home: Option<Market>, away: Option<Market>, pregame: Option<Pregame>)

  /** `Exact` looks candles up by ticker and wall minute, `Modelled` a price table by lead and minutes left. */
  datatype Prices = Exact(candles: map<nat, map<int, int>>) | Modelled(table: map<(int, int), int>)

  datatype Input = Input(sport: Sport, version: Version, prices: Prices, milli: int, prec: int)

  datatype Source = FromCandle | FromNextCandle | FromModel

  datatype Ask = Ask(bp: int, source: Source)

  datatype Bought = Bought(cc: int, stake: int, fee: int, valueBp: int, pnl: int)

  /** One `backtest_trades` row: a settled fill, or a skip with its reason. */
  datatype Row = Row(
    game: nat, minute: int, side: Side, source: Option<Source>, priceBp: Option<int>,
    bought: Option<Bought>, bankrollAfter: int, skip: Option<Reason>)

  /** The leader's market from the final score; a hockey tie is worth $0.50. */
  function SettlementValueBp(sport: Sport, side: Side, finalHome: nat, finalAway: nat): int {
    if finalHome == finalAway then (if sport == Hockey then 5_000 else 0)
    else if side == (if finalHome > finalAway then Home else Away) then 10_000
    else 0
  }

  function OwnGoals(side: Side, home: nat, away: nat): nat { if side == Home then home else away }

  /** The winner's market pays a dollar and the loser's nothing; a draw pays both sides alike. */
  lemma SettlementMeaning(sport: Sport, side: Side, other: Side, home: nat, away: nat)
    requires side != other
    ensures var v, w := SettlementValueBp(sport, side, home, away), SettlementValueBp(sport, other, home, away);
            && (v == 10_000 <==> OwnGoals(side, home, away) > OwnGoals(other, home, away))
            && (home != away || sport == Hockey ==> v + w == 10_000)
            && (home == away ==> v == w && (sport == Soccer ==> v == 0))
  {
  }

  /** What a side's market is worth at the end: a dollar to the side with more goals, nothing to the other; a draw is
      worth nothing in soccer and half a dollar in hockey. */
  ghost predicate WorthAtEnd(sport: Sport, g: Game, side: Side, valueBp: int) {
    var own, other := OwnGoals(side, g.finalHome, g.finalAway), OwnGoals(Opponent(side), g.finalHome, g.finalAway);
    && (own > other ==> valueBp == 10_000) && (own < other ==> valueBp == 0)
    && (own == other ==> valueBp == if sport == Hockey then 5_000 else 0)
  }

  // ---- the price providers ------------------------------------------------------------------------------

  const NEXT_CANDLE_MINUTES := 3

  function CandleFrom(series: map<int, int>, e: int, k: nat): Option<Ask>
    decreases NEXT_CANDLE_MINUTES + 1 - k
  {
    if k > NEXT_CANDLE_MINUTES then None
    else if e + k in series then Some(Ask(series[e + k], if k == 0 then FromCandle else FromNextCandle))
    else CandleFrom(series, e, k + 1)
  }

  function ExactAsk(sport: Sport, series: map<int, int>, minute: int): Option<Ask> {
    CandleFrom(series, WallMinuteOf(sport, minute), 0)
  }

  /** The exact provider gives the earliest candle of the four minutes that start at the tick. */
  lemma ExactAskIsEarliest(sport: Sport, series: map<int, int>, minute: int)
    ensures var e := WallMinuteOf(sport, minute);
            var ask := ExactAsk(sport, series, minute);
            && (ask.None? <==> forall w :: e <= w <= e + NEXT_CANDLE_MINUTES ==> w !in series)
            && (ask.Some? ==>
                  exists w :: e <= w <= e + NEXT_CANDLE_MINUTES && w in series && ask.value.bp == series[w]
                              && (ask.value.source == FromCandle <==> w == e)
                              && forall v :: e <= v < w ==> v !in series)
  {
    CandleIsEarliest(series, WallMinuteOf(sport, minute), 0);
  }

  lemma {:induction false} CandleIsEarliest(series: map<int, int>, e: int, k: nat)
    requires k <= NEXT_CANDLE_MINUTES + 1
    ensures var ask := CandleFrom(series, e, k);
            && (ask.None? <==> forall w :: e + k <= w <= e + NEXT_CANDLE_MINUTES ==> w !in series)
            && (ask.Some? ==>
                  exists w :: e + k <= w <= e + NEXT_CANDLE_MINUTES && w in series && ask.value.bp == series[w]
                              && (ask.value.source == FromCandle <==> w == e)
                              && forall v :: e + k <= v < w ==> v !in series)
    decreases NEXT_CANDLE_MINUTES + 1 - k
  {
    if k <= NEXT_CANDLE_MINUTES && e + k !in series {
      CandleIsEarliest(series, e, k + 1);
      var ask := CandleFrom(series, e, k);
      if ask.Some? {
        var w :| e + k + 1 <= w <= e + NEXT_CANDLE_MINUTES && w in series && ask.value.bp == series[w]
                 && (ask.value.source == FromCandle <==> w == e) && forall v :: e + k + 1 <= v < w ==> v !in series;
        assert forall v :: e + k <= v < w ==> v !in series;
      }
    } else if k <= NEXT_CANDLE_MINUTES {
      assert e + k in series;
    }
  }

  function MarketOf(g: Game, side: Side): Option<Market> { if side == Home then g.home else g.away }

  function MarketAsk(x: Input, m: Option<Market>, minute: int): Option<Ask>
    requires x.prices.Exact?
  {
    if m.None? || m.value.ticker !in x.prices.candles then None
    else ExactAsk(x.sport, x.prices.candles[m.value.ticker], minute)
  }

  function AskBp(a: Option<Ask>): Option<int> { if a.Some? then Some(a.value.bp) else None }

  function KickoffAsks(x: Input, g: Game): Pregame {
    if g.pregame.Some? then g.pregame.value
    else if x.prices.Modelled? then Pregame(None, None)
    else Pregame(AskBp(MarketAsk(x, g.home, 0)), AskBp(MarketAsk(x, g.away, 0)))
  }

  function RegulationMinutes(sport: Sport): int { if sport == Soccer then 90 else 60 }

  /** What the price provider says at a tick; the outer `None` is the error of a table without the cell. */
  function PriceAt(x: Input, g: Game, side: Side, minute: int): Option<Option<Ask>> {
    match x.prices
    case Exact(_) => Some(MarketAsk(x, MarketOf(g, side), minute))
    case Modelled(table) =>
      var score := ScoreAt(g.goals, minute);
      var cell := (Abs(score.home - score.away), RegulationMinutes(x.sport) - minute);
      if cell in table then Some(Some(Ask(table[cell], FromModel))) else None
  }

  /** The earliest candle of a market in the four minutes from a wall minute on. */
  ghost predicate FirstCandle(series: map<int, int>, from: int, ask: Option<Ask>) {
    match ask
    case None => forall w :: from <= w <= from + 3 ==> w !in series
    case Some(a) =>
      exists w :: from <= w <= from + 3 && w in series && a.bp == series[w] && a.source == (if w == from then FromCandle else FromNextCandle)
                  && forall v :: from <= v < w ==> v !in series
  }

  /** The price of a side's market at a tick: with candles, the earliest one of its own market from the tick's wall
      minute on; with the table, the cell of the lead and the minutes left, which must be there. */
  lemma PriceExactly(x: Input, g: Game, side: Side, minute: int)
    ensures var price, market := PriceAt(x, g, side, minute), if side == Home then g.home else g.away;
            match x.prices
            case Exact(candles) =>
              && price.Some?
              && if market.Some? && market.value.ticker in candles
                 then FirstCandle(candles[market.value.ticker], WallMinuteOf(x.sport, minute), price.value)
                 else price.value.None?
            case Modelled(table) =>
              var lead := GoalsBy(g.goals, Home, minute) - GoalsBy(g.goals, Away, minute);
              var cell := (if lead < 0 then -lead else lead, (if x.sport == Soccer then 90 else 60) - minute);
              price == if cell in table then Some(Some(Ask(table[cell], FromModel))) else None
  {
    var market := if side == Home then g.home else g.away;
    if x.prices.Exact? && market.Some? && market.value.ticker in x.prices.candles {
      ExactAskIsEarliest(x.sport, x.prices.candles[market.value.ticker], minute);
    }
  }

  /** The prices at kick-off, for the underdog: the recorded ones; else the candle of each market at the start or in the
      three minutes after it; with the table there are none. */
  lemma KickoffExactly(x: Input, g: Game)
    ensures var p := KickoffAsks(x, g);
            && (g.pregame.Some? ==> p == g.pregame.value)
            && (g.pregame.None? && x.prices.Modelled? ==> p.homeBp.None? && p.awayBp.None?)
            && (g.pregame.None? && x.prices.Exact? ==> KickoffPrice(x, g.home, p.homeBp) && KickoffPrice(x, g.away, p.awayBp))
  {
    if x.prices.Exact? {
      if g.home.Some? && g.home.value.ticker in x.prices.candles { ExactAskIsEarliest(x.sport, x.prices.candles[g.home.value.ticker], 0); }
      if g.away.Some? && g.away.value.ticker in x.prices.candles { ExactAskIsEarliest(x.sport, x.prices.candles[g.away.value.ticker], 0); }
    }
  }

  ghost predicate KickoffPrice(x: Input, market: Option<Market>, bp: Option<int>)
    requires x.prices.Exact?
  {
    if market.Some? && market.value.ticker in x.prices.candles then
      exists ask :: FirstCandle(x.prices.candles[market.value.ticker], 0, ask) && bp == if ask.Some? then Some(ask.value.bp) else None
    else bp.None?
  }

  function RangesOf(x: Input, g: Game, side: Side): seq<PriceRange> {
    if x.prices.Exact? && MarketOf(g, side).Some? then MarketOf(g, side).value.ranges else []
  }

  /** With candles the limit is on the grid of the side's own market, with the table on whole cents. */
  lemma RangesExactly(x: Input, g: Game, side: Side)
    ensures var market := if side == Home then g.home else g.away;
            && (x.prices.Exact? && market.Some? ==> RangesOf(x, g, side) == market.value.ranges)
            && (x.prices.Modelled? || market.None? ==> Ranges(RangesOf(x, g, side)) == [PriceRange(100, 9_900, 100)])
  {
  }

  /** What the guards see: one ask level of unlimited size, no market, exchange, feed or depth checks. */
  function SimEntry(x: Input, ranges: seq<PriceRange>, ask: int, bankroll: int): EntryInput {
    var e := x.version.exec;
    var z := x.version.sizing;
    EntryInput(Runs(DryRun), 0, None, None, None, e.maxFeedAgeSec, None, [AskLevel(ask, MAX_SAFE)],
               e.maxPriceBp, e.minPriceBp, e.maxSlippageBp, ranges, 0, bankroll, z.percentCenti, z.minStake, z.maxStake)
  }

  // ---- one game -----------------------------------------------------------------------------------------

  /** The variables of the tick loop of one game. */
  datatype Play = Play(
    bankroll: int, side: Option<Side>, lastReason: Option<Reason>, lastMinute: int,
    lastAsk: Option<int>, lastSource: Option<Source>, row: Option<Row>)

  function Kickoff(bankroll: int): Play { Play(bankroll, None, None, 0, None, None, None) }

  function SkipRow(g: Game, minute: int, side: Side, source: Option<Source>, ask: Option<int>, reason: Reason, bankroll: int): Row {
    Row(g.id, minute, side, source, ask, None, bankroll, Some(reason))
  }

  function RuleAt(x: Input, g: Game, minute: int): RuleResult {
    var pregame := if x.version.rule.underdogOnly then KickoffAsks(x, g) else Pregame(None, None);
    EvaluateLeadAtTime(x.version.rule, x.sport, StateAt(x.sport, g.goals, minute, pregame))
  }

  /** One tick; `None` is an exception, which ends the whole backtest. */
  function Tick(x: Input, g: Game, p: Play, minute: int): Option<Play> {
    var result := RuleAt(x, g, minute);
    if result.NoMatch? || (p.side.Some? && p.side.value != result.side) then Some(p)
    else Try(x, g, p.(side := Some(result.side), lastMinute := minute), result.side, minute)
  }

  function Try(x: Input, g: Game, p: Play, side: Side, minute: int): Option<Play> {
    var price := PriceAt(x, g, side, minute);
    if price.None? then None
    else if price.value.None? then Some(p.(lastReason := Some(NoPrice), lastSource := None))
    else Enter(x, g, p.(lastAsk := Some(price.value.value.bp), lastSource := Some(price.value.value.source)), side, minute, price.value.value)
  }

  function Enter(x: Input, g: Game, p: Play, side: Side, minute: int, ask: Ask): Option<Play> {
    match EvaluateEntry(SimEntry(x, RangesOf(x, g, side), ask.bp, p.bankroll))
    case Throws => None
    case Reject(reason, _) =>
      Some(p.(lastReason := Some(reason),
              row := if IsHard(reason) then Some(SkipRow(g, minute, side, Some(ask.source), Some(ask.bp), reason, p.bankroll)) else p.row))
    case Accept(_, limit, _, stake, cc) =>
      var fee := FeeMicros(cc, limit, x.milli, x.prec);
      if fee.None? then None
      else
        var value := SettlementValueBp(x.sport, side, g.finalHome, g.finalAway);
        var payout := PayoutMicros(cc, value);
        var bankroll := p.bankroll - CostMicros(cc, limit) - fee.value + payout;
        var bought := Bought(cc, stake, fee.value, value, RealizedPnlMicros(cc, limit, fee.value, payout));
        Some(p.(bankroll := bankroll,
                row := Some(Row(g.id, minute, side, Some(ask.source), Some(limit), Some(bought), bankroll, None))))
  }

  function Ticks(x: Input, g: Game, p: Play, from: int, to: int): Option<Play>
    decreases 1 + to - from
  {
    if from > to || p.row.Some? then Some(p)
    else
      var next := Tick(x, g, p, from);
      if next.None? then None else Ticks(x, g, next.value, from + 1, to)
  }

  function LastTick(x: Input): int {
    Min(LastMinute(x.sport), x.version.rule.atMinute + x.version.rule.windowMinutes)
  }

  /** Ticked is every minute of the window in regulation: up to 90 in soccer, up to 59 in hockey. */
  lemma TicksExactly(x: Input, m: int)
    ensures m <= LastTick(x) <==> m <= x.version.rule.atMinute + x.version.rule.windowMinutes && m <= (if x.sport == Soccer then 90 else 59)
  {
  }

  /** After the last tick: the window closed without a fill. */
  function Close(g: Game, p: Play): Play {
    if p.row.None? && p.side.Some?
    then p.(row := Some(SkipRow(g, p.lastMinute, p.side.value, p.lastSource, p.lastAsk, ReasonFor(p), p.bankroll)))
    else p
  }

  function ReasonFor(p: Play): Reason { if p.lastReason.Some? then p.lastReason.value else WindowExpired }

  function PlayGame(x: Input, g: Game, bankroll: int): Option<Play> {
    var end := Ticks(x, g, Kickoff(bankroll), x.version.rule.atMinute, LastTick(x));
    if end.None? then None else Some(Close(g, end.value))
  }

  /** `p` at a tick goes on as `next` at the following one. */
  predicate GoesOn(x: Input, g: Game, p: Play, minute: int, next: Play) {
    p.row.None? && Tick(x, g, p, minute) == Some(next)
  }

  lemma TicksGoOn(x: Input, g: Game, p: Play, minute: int, next: Play, to: int)
    requires GoesOn(x, g, p, minute, next) && minute <= to
    ensures Ticks(x, g, p, minute, to) == Ticks(x, g, next, minute + 1, to)
  {
  }

  lemma TicksStop(x: Input, g: Game, p: Play, minute: int, to: int)
    requires p.row.Some? || minute > to
    ensures Ticks(x, g, p, minute, to) == Some(p)
  {
  }

  lemma TicksThrow(x: Input, g: Game, p: Play, minute: int, to: int)
    requires p.row.None? && Tick(x, g, p, minute).None? && minute <= to
    ensures Ticks(x, g, p, minute, to).None?
  {
  }

  lemma PlayGameEnds(x: Input, g: Game, initial: int, p: Play)
    requires Ticks(x, g, Kickoff(initial), x.version.rule.atMinute, LastTick(x)) == Some(p)
    ensures PlayGame(x, g, initial) == Some(Close(g, p))
  {
  }

  method RunGame(x: Input, g: Game, initial: int) returns (played: Option<Play>)
    ensures played == PlayGame(x, g, initial)
  {
    var p := Kickoff(initial);
    var first, last := x.version.rule.atMinute, LastTick(x);
    var minute := first;
    while minute <= last && p.row.None?
      invariant Ticks(x, g, p, minute, last) == Ticks(x, g, Kickoff(initial), first, last)
      decreases last - minute
    {
      var next := Tick(x, g, p, minute);
      if next.None? {
        TicksThrow(x, g, p, minute, last);
        return None;
      }
      TicksGoOn(x, g, p, minute, next.value, last);
      p := next.value;
      minute := minute + 1;
    }
    TicksStop(x, g, p, minute, last);
    PlayGameEnds(x, g, initial, p);
    if p.row.None? && p.side.Some? {
      p := p.(row := Some(SkipRow(g, p.lastMinute, p.side.value, p.lastSource, p.lastAsk, ReasonFor(p), p.bankroll)));
    }
    return Some(p);
  }

  // ---- the whole backtest -------------------------------------------------------------------------------

  datatype Result = Result(rows: seq<Row>, bankroll: int)

  /** The games in order, each with the bankroll the one before left; `None` once any of them throws. */
  function Simulation(x: Input, games: seq<Game>, initial: int): Option<Result> {
    if games == [] then Some(Result([], initial))
    else
      var n := |games| - 1;
      var before := Simulation(x, games[..n], initial);
      if before.None? then None
      else
        var played := PlayGame(x, games[n], before.value.bankroll);
        if played.None? then None
        else Some(Result(before.value.rows + RowsOf(played.value), played.value.bankroll))
  }

  function RowsOf(p: Play): seq<Row> { if p.row.Some? then [p.row.value] else [] }

  lemma {:induction false} ThrowsForGood(x: Input, games: seq<Game>, initial: int, n: nat)
    requires n <= |games| && Simulation(x, games[..n], initial).None?
    ensures Simulation(x, games, initial).None?
    decreases |games| - n
  {
    if n == |games| {
      assert games[..n] == games;
    } else {
      assert games[..n + 1][..n] == games[..n];
      ThrowsForGood(x, games, initial, n + 1);
    }
  }

  method Simulate(x: Input, games: seq<Game>, initial: int) returns (result: Option<Result>)
    ensures result == Simulation(x, games, initial)
  {
    var bankroll, trades := initial, [];
    var i := 0;
    while i < |games|
      invariant 0 <= i <= |games|
      invariant Simulation(x, games[..i], initial) == Some(Result(trades, bankroll))
    {
      assert games[..i + 1][..i] == games[..i];
      var played := RunGame(x, games[i], bankroll);
      if played.None? {
        ThrowsForGood(x, games, initial, i + 1);
        return None;
      }
      assert games[..i + 1][i] == games[i];
      bankroll := played.value.bankroll;
      if played.value.row.Some? {
        trades := trades + [played.value.row.value];
      } else {
        assert trades + [] == trades;
      }
      i := i + 1;
    }
    assert games[..i] == games;
    return Some(Result(trades, bankroll));
  }
}
