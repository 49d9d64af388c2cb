/** When a backtest returns: exactly which tick throws (app/src/backtest/simulator.ts and the checks of
    app/src/core/pricing.ts), and conditions on the input alone under which none does. */
module Returns {
  import Arithmetic
  import opened Pricing
  import opened Guards
  import opened Rule
  import opened GameClock
  import opened Simulator
  import opened Backtest

  // ---- one try ------------------------------------------------------------------------------------------

  /** The price table has no cell for the tick. */
  predicate CellMissing(x: Input, g: Game, minute: int) {
    match x.prices
    case Exact(_) => false
    case Modelled(table) =>
      var score := ScoreAt(g.goals, minute);
      (Abs(score.home - score.away), RegulationMinutes(x.sport) - minute) !in table
  }

  /** The price guards let the ask through to the limit. */
  predicate ReachesLimit(x: Input, ask: int) {
    ask <= x.version.exec.maxPriceBp && (x.version.exec.minPriceBp.Some? ==> x.version.exec.minPriceBp.value <= ask)
  }

  /** The arguments of `limitPriceBp` are refused. */
  predicate LimitRefused(x: Input, ask: int) {
    ReachesLimit(x, ask) && !(IsCount(ask) && IsCount(x.version.exec.maxSlippageBp) && IsCount(x.version.exec.maxPriceBp))
  }

  function LimitAt(x: Input, ranges: seq<PriceRange>, ask: int): Option<int> {
    SnapDownBp(Min(ask + x.version.exec.maxSlippageBp, x.version.exec.maxPriceBp), ranges)
  }

  /** There is a limit price at or above the ask. */
  predicate ReachesSize(x: Input, ranges: seq<PriceRange>, ask: int) {
    ReachesLimit(x, ask) && !LimitRefused(x, ask) && LimitAt(x, ranges, ask).Some? && LimitAt(x, ranges, ask).value >= ask
  }

  function StakeAt(x: Input, bankroll: int): int {
    StakeMicros(bankroll, x.version.sizing.percentCenti, x.version.sizing.minStake, x.version.sizing.maxStake)
  }

  /** The arguments of `stakeMicros` or of `contractsFor` are refused. */
  predicate SizeRefused(x: Input, ranges: seq<PriceRange>, ask: int, bankroll: int) {
    var z := x.version.sizing;
    && ReachesSize(x, ranges, ask)
    && !(StakeInputOk(bankroll, z.percentCenti, z.minStake, z.maxStake)
         && IsCount(StakeAt(x, bankroll)) && 0 < LimitAt(x, ranges, ask).value <= MAX_SAFE)
  }

  /** The stake pays for a contract, and the arguments of `feeMicros` are refused. */
  predicate FeeRefused(x: Input, ranges: seq<PriceRange>, ask: int, bankroll: int) {
    && ReachesSize(x, ranges, ask) && !SizeRefused(x, ranges, ask, bankroll)
    && var limit := LimitAt(x, ranges, ask).value;
    var contracts := StakeAt(x, bankroll) / (limit * 100);
    contracts >= 1 && !FeeInputOk(contracts * 100, limit, x.milli, x.prec)
  }

  /** A try at the tick throws: for want of a table cell, or because a pricing function refuses its arguments. */
  predicate TryThrows(x: Input, g: Game, side: Side, minute: int, bankroll: int) {
    || CellMissing(x, g, minute)
    || (PriceAt(x, g, side, minute).Some? && PriceAt(x, g, side, minute).value.Some?
        && var ask, ranges := PriceAt(x, g, side, minute).value.value.bp, RangesOf(x, g, side);
        LimitRefused(x, ask) || SizeRefused(x, ranges, ask, bankroll) || FeeRefused(x, ranges, ask, bankroll))
  }

  /** What the guards make of the simulator's entry. */
  lemma EntryCases(x: Input, ranges: seq<PriceRange>, ask: int, bankroll: int)
    ensures var e := EvaluateEntry(SimEntry(x, ranges, ask, bankroll));
            && (e.Throws? <==> LimitRefused(x, ask) || SizeRefused(x, ranges, ask, bankroll))
            && (e.Accept? ==>
                  && ReachesSize(x, ranges, ask) && !SizeRefused(x, ranges, ask, bankroll)
                  && e.limitBp == LimitAt(x, ranges, ask).value
                  && e.requestedCc == StakeAt(x, bankroll) / (e.limitBp * 100) * 100 >= 100)
            && (ReachesSize(x, ranges, ask) && !SizeRefused(x, ranges, ask, bankroll) ==>
                  (e.Accept? <==> StakeAt(x, bankroll) / (LimitAt(x, ranges, ask).value * 100) >= 1))
  {
    var i := SimEntry(x, ranges, ask, bankroll);
    OneLevel(AskLevel(ask, MAX_SAFE), ask);
    assert BestAsk(i.asks) == Some(ask);
    if LimitAt(x, ranges, ask).Some? { OneLevel(AskLevel(ask, MAX_SAFE), LimitAt(x, ranges, ask).value); }
  }

  /** Exactly when a try throws. */
  lemma TryThrowsExactly(x: Input, g: Game, p: Play, side: Side, minute: int)
    ensures Try(x, g, p, side, minute).None? <==> TryThrows(x, g, side, minute, p.bankroll)
  {
    var price := PriceAt(x, g, side, minute);
    if price.Some? && price.value.Some? {
      EntryCases(x, RangesOf(x, g, side), price.value.value.bp, p.bankroll);
    }
  }

  // ---- one game -----------------------------------------------------------------------------------------

  /** The game reaches the tick, tries the leader there, and the try throws. */
  ghost predicate ThrowsAt(x: Input, g: Game, bankroll: int, first: int, m: int) {
    && RuleAt(x, g, m).Match?
    && var side := RuleAt(x, g, m).side;
    && FirstLeader(x, g, side, first, m + 1) && (forall k :: first <= k < m ==> !Decides(x, g, side, k, bankroll))
    && TryThrows(x, g, side, m, bankroll)
  }

  /** Some tick of the game throws before any decides it. */
  ghost predicate GameThrows(x: Input, g: Game, bankroll: int) {
    exists m :: x.version.rule.atMinute <= m <= LastTick(x) && ThrowsAt(x, g, bankroll, x.version.rule.atMinute, m)
  }

  lemma OneFirstLeader(x: Input, g: Game, side: Side, other: Side, first: int, m: int, m': int)
    requires FirstLeader(x, g, side, first, m) && FirstLeader(x, g, other, first, m')
    ensures side == other
  {
    var a :| first <= a < m && MatchesFor(x, g, side, a) && forall k :: first <= k < a ==> RuleAt(x, g, k).NoMatch?;
    var b :| first <= b < m' && MatchesFor(x, g, other, b) && forall k :: first <= k < b ==> RuleAt(x, g, k).NoMatch?;
  }

  /** After a deciding tick nothing is tried. */
  lemma DecidedNeverThrows(x: Input, g: Game, before: int, p: Play, first: int, from: int, m: int)
    requires PlayOk(x, g, before, p, first, from) && p.row.Some? && from <= m
    ensures !ThrowsAt(x, g, before, first, m)
  {
    var r := p.row.value;
    if ThrowsAt(x, g, before, first, m) {
      OneFirstLeader(x, g, r.side, RuleAt(x, g, m).side, first, from, m + 1);
    }
  }

  /** The tick throws in the loop exactly when it throws by its conditions. */
  lemma TickThrowsExactly(x: Input, g: Game, before: int, p: Play, first: int, m: int)
    requires PlayOk(x, g, before, p, first, m) && p.row.None? && first <= m
    ensures Tick(x, g, p, m).None? <==> ThrowsAt(x, g, before, first, m)
  {
    var result := RuleAt(x, g, m);
    if result.Match? {
      var side := result.side;
      if p.side.None? || p.side == Some(side) {
        TriedLeader(x, g, before, p, first, m, side);
        TryThrowsExactly(x, g, p.(side := Some(side), lastMinute := m), side, m);
      } else if ThrowsAt(x, g, before, first, m) {
        OneFirstLeader(x, g, p.side.value, side, first, m, m + 1);
      }
    }
  }

  ghost predicate ThrowsWithin(x: Input, g: Game, bankroll: int, first: int, from: int, last: int) {
    exists m :: from <= m <= last && ThrowsAt(x, g, bankroll, first, m)
  }

  lemma DoneNeverThrows(x: Input, g: Game, before: int, p: Play, first: int, from: int, last: int)
    requires PlayOk(x, g, before, p, first, from) && p.row.Some?
    ensures !ThrowsWithin(x, g, before, first, from, last) && Ticks(x, g, p, from, last).Some?
  {
    TicksStop(x, g, p, from, last);
    forall m | from <= m <= last
      ensures !ThrowsAt(x, g, before, first, m)
    {
      DecidedNeverThrows(x, g, before, p, first, from, m);
    }
  }

  lemma ThrowsHere(x: Input, g: Game, before: int, p: Play, first: int, from: int, last: int)
    requires PlayOk(x, g, before, p, first, from) && first <= from <= last && p.row.None? && Tick(x, g, p, from).None?
    ensures ThrowsWithin(x, g, before, first, from, last) && Ticks(x, g, p, from, last).None?
  {
    TickThrowsExactly(x, g, before, p, first, from);
    TicksThrow(x, g, p, from, last);
    assert ThrowsAt(x, g, before, first, from);
  }

  lemma {:induction false} TicksThrowExactly(x: Input, g: Game, before: int, p: Play, first: int, from: int, last: int)
    requires PlayOk(x, g, before, p, first, from) && first <= from
    ensures Ticks(x, g, p, from, last).None? <==> ThrowsWithin(x, g, before, first, from, last)
    decreases 1 + last - from
  {
    if p.row.Some? {
      DoneNeverThrows(x, g, before, p, first, from, last);
    } else if from > last {
      TicksStop(x, g, p, from, last);
    } else if Tick(x, g, p, from).None? {
      ThrowsHere(x, g, before, p, first, from, last);
    } else {
      var next := Tick(x, g, p, from).value;
      GoesOn(x, g, before, p, first, from, last);
      TicksThrowExactly(x, g, before, next, first, from + 1, last);
    }
  }

  lemma GoesOn(x: Input, g: Game, before: int, p: Play, first: int, from: int, last: int)
    requires PlayOk(x, g, before, p, first, from) && first <= from <= last && p.row.None? && Tick(x, g, p, from).Some?
    ensures PlayOk(x, g, before, Tick(x, g, p, from).value, first, from + 1)
    ensures Ticks(x, g, p, from, last) == Ticks(x, g, Tick(x, g, p, from).value, from + 1, last)
    ensures ThrowsWithin(x, g, before, first, from, last) <==> ThrowsWithin(x, g, before, first, from + 1, last)
  {
    TickThrowsExactly(x, g, before, p, first, from);
    TicksGoOn(x, g, p, from, Tick(x, g, p, from).value, last);
    TickOk(x, g, before, p, first, from);
    LaterTicks(x, g, before, first, from, last);
  }

  lemma LaterTicks(x: Input, g: Game, before: int, first: int, from: int, last: int)
    requires !ThrowsAt(x, g, before, first, from)
    ensures ThrowsWithin(x, g, before, first, from, last) <==> ThrowsWithin(x, g, before, first, from + 1, last)
  {
  }

  /** Exactly when a game throws: at some tick of the window that is reached undecided and tried, the table has no
      cell or a pricing function refuses its arguments. */
  lemma GameThrowsExactly(x: Input, g: Game, bankroll: int)
    ensures PlayGame(x, g, bankroll).None? <==> GameThrows(x, g, bankroll)
  {
    var first := x.version.rule.atMinute;
    TicksThrowExactly(x, g, bankroll, Kickoff(bankroll), first, first, LastTick(x));
  }

  // ---- a whole backtest ---------------------------------------------------------------------------------

  /** The games before the `k`-th return, and it throws on the bankroll they leave. */
  ghost predicate ThrowsInGame(x: Input, games: seq<Game>, initial: int, k: nat) {
    k < |games| && Simulation(x, games[..k], initial).Some? && GameThrows(x, games[k], Simulation(x, games[..k], initial).value.bankroll)
  }

  lemma EarlierGame(x: Input, games: seq<Game>, initial: int, n: nat, k: nat)
    requires k < n <= |games|
    ensures ThrowsInGame(x, games, initial, k) <==> ThrowsInGame(x, games[..n], initial, k)
  {
    assert games[..n][..k] == games[..k];
  }

  ghost predicate SomeGameThrows(x: Input, games: seq<Game>, initial: int) {
    exists k: nat :: ThrowsInGame(x, games, initial, k)
  }

  lemma ThrowsStay(x: Input, games: seq<Game>, initial: int, n: nat)
    requires n <= |games| && SomeGameThrows(x, games[..n], initial)
    ensures SomeGameThrows(x, games, initial)
  {
    var before := games[..n];
    var k: nat :| ThrowsInGame(x, before, initial, k);
    EarlierGame(x, games, initial, n, k);
  }

  /** Some game throws exactly when one before the last does, or the last. */
  lemma SomeOrLast(x: Input, games: seq<Game>, initial: int)
    requires games != []
    ensures SomeGameThrows(x, games, initial)
            <==> SomeGameThrows(x, games[..|games| - 1], initial) || ThrowsInGame(x, games, initial, |games| - 1)
  {
    var n := |games| - 1;
    if SomeGameThrows(x, games[..n], initial) { ThrowsStay(x, games, initial, n); }
    if k: nat :| ThrowsInGame(x, games, initial, k) && k < n { EarlierGame(x, games, initial, n, k); }
  }

  /** The last game decides when the ones before return. */
  lemma LastGameThrows(x: Input, games: seq<Game>, initial: int)
    requires games != [] && Simulation(x, games[..|games| - 1], initial).Some?
    ensures Simulation(x, games, initial).None? <==> ThrowsInGame(x, games, initial, |games| - 1)
  {
    SimulationLast(x, games, initial);
    GameThrowsExactly(x, games[|games| - 1], Simulation(x, games[..|games| - 1], initial).value.bankroll);
  }

  /** Exactly when a backtest throws. */
  lemma {:induction false} SimulationThrowsExactly(x: Input, games: seq<Game>, initial: int)
    ensures Simulation(x, games, initial).None? <==> SomeGameThrows(x, games, initial)
    decreases |games|
  {
    if games != [] {
      SimulationThrowsExactly(x, games[..|games| - 1], initial);
      SomeOrLast(x, games, initial);
      if Simulation(x, games[..|games| - 1], initial).None? {
        SimulationLast(x, games, initial);
      } else {
        LastGameThrows(x, games, initial);
      }
    }
  }

  // ---- inputs that never throw --------------------------------------------------------------------------

  predicate PositivePrices(p: Prices) {
    match p
    case Exact(candles) => forall ticker :: ticker in candles ==> forall e :: e in candles[ticker] ==> candles[ticker][e] > 0
    case Modelled(table) => forall cell :: cell in table ==> table[cell] > 0
  }

  /** The settings of a backtest that the pricing functions take, whatever the games. */
  predicate SettingsOk(x: Input) {
    && IsCount(x.milli) && IsCount(x.prec) && x.prec != 0
    && 0 <= x.version.exec.maxPriceBp <= 10_000 && IsCount(x.version.exec.maxSlippageBp)
    && IsCount(x.version.sizing.minStake) && IsCount(x.version.sizing.maxStake) && IsSafe(x.version.sizing.percentCenti)
    && PositivePrices(x.prices)
  }

  /** The table has a cell for every tick at which the rule matches. */
  predicate CellsOk(x: Input, g: Game) {
    forall m :: x.version.rule.atMinute <= m <= LastTick(x) && RuleAt(x, g, m).Match? ==> !CellMissing(x, g, m)
  }

  lemma {:induction false} CandlePositive(series: map<int, int>, e: int, k: nat)
    requires forall w :: w in series ==> series[w] > 0
    ensures CandleFrom(series, e, k).Some? ==> CandleFrom(series, e, k).value.bp > 0
    decreases NEXT_CANDLE_MINUTES + 1 - k
  {
    if k <= NEXT_CANDLE_MINUTES && e + k !in series {
      CandlePositive(series, e, k + 1);
    }
  }

  lemma AskPositive(x: Input, g: Game, side: Side, minute: int)
    requires PositivePrices(x.prices) && PriceAt(x, g, side, minute).Some? && PriceAt(x, g, side, minute).value.Some?
    ensures PriceAt(x, g, side, minute).value.value.bp > 0
  {
    if x.prices.Exact? {
      var ticker := MarketOf(g, side).value.ticker;
      CandlePositive(x.prices.candles[ticker], WallMinuteOf(x.sport, minute), 0);
    }
  }

  lemma StakeOk(x: Input, bankroll: int)
    requires SettingsOk(x)
    ensures IsCount(StakeAt(x, bankroll))
  {
  }

  lemma CountOk(stake: int, limit: int)
    requires IsCount(stake) && 0 < limit
    ensures IsCount(stake / (limit * 100) * 100)
  {
    var n := stake / (limit * 100);
    Arithmetic.DivMod(stake, limit * 100);
    Arithmetic.MulCancel(0, n, limit * 100);
    Arithmetic.MulMonotone(1, limit, n * 100);
    assert n * (limit * 100) == limit * (n * 100);
  }

  /** With such settings and a safe bankroll only a missing table cell can throw. */
  lemma OnlyCellsThrow(x: Input, g: Game, side: Side, minute: int, bankroll: int)
    requires SettingsOk(x) && IsSafe(bankroll)
    ensures TryThrows(x, g, side, minute, bankroll) <==> CellMissing(x, g, minute)
  {
    var price := PriceAt(x, g, side, minute);
    if price.Some? && price.value.Some? {
      var ask, ranges := price.value.value.bp, RangesOf(x, g, side);
      AskPositive(x, g, side, minute);
      SnapWithin(Min(ask + x.version.exec.maxSlippageBp, x.version.exec.maxPriceBp), Ranges(ranges));
      StakeOk(x, bankroll);
      if ReachesSize(x, ranges, ask) { CountOk(StakeAt(x, bankroll), LimitAt(x, ranges, ask).value); }
    }
  }

  /** The most that one game can move the bankroll by. */
  function Swing(x: Input): int {
    10_000 * x.version.sizing.maxStake + FeeBound(x.version.sizing.maxStake, x.milli, x.prec)
  }

  /** That many games leave the bankroll a safe integer. */
  predicate StaysSafe(x: Input, initial: int, games: nat) {
    IsSafe(initial - games * Swing(x)) && IsSafe(initial + games * Swing(x))
  }

  lemma FillSwing(x: Input, g: Game, before: int, r: Row, side: Side, minute: int)
    requires r.bought.Some? && FillOk(x, g, side, minute, before, r) && SettingsOk(x)
    ensures -Swing(x) <= r.bought.value.pnl <= Swing(x)
  {
    var b, most, limit := r.bought.value, x.version.sizing.maxStake, r.priceBp.value;
    AcceptCosts(SimEntry(x, RangesOf(x, g, side), PriceAt(x, g, side, minute).value.value.bp, before));
    FeeIsLeast(b.cc, limit, x.milli, x.prec);
    FeeWithinStep(b.cc, limit, x.milli, x.prec);
    RawFeeByStake(b.cc, limit, x.milli, most);
    Arithmetic.MulMonotone(1, limit, b.cc);
    Arithmetic.MulNonNegative(b.cc, b.valueBp);
    Arithmetic.MulMonotone(b.valueBp, 10_000, b.cc);
  }

  lemma GameSwing(x: Input, g: Game, bankroll: int)
    requires SettingsOk(x) && PlayGame(x, g, bankroll).Some?
    ensures bankroll - Swing(x) <= PlayGame(x, g, bankroll).value.bankroll <= bankroll + Swing(x)
  {
    GameMeaning(x, g, bankroll);
    SwingNotNegative(x);
    var p := PlayGame(x, g, bankroll).value;
    if p.row.Some? { RowSwing(x, g, bankroll, p.row.value); }
  }

  lemma RowSwing(x: Input, g: Game, before: int, r: Row)
    requires SettingsOk(x)
    requires var first := x.version.rule.atMinute; RowOk(x, g, before, r, first, Max(first, LastTick(x) + 1))
    ensures before - Swing(x) <= r.bankrollAfter <= before + Swing(x)
  {
    SwingNotNegative(x);
    if r.bought.Some? { FillSwing(x, g, before, r, r.side, r.minute); }
  }

  lemma {:induction false} BankrollWithin(x: Input, games: seq<Game>, initial: int)
    requires SettingsOk(x) && Simulation(x, games, initial).Some?
    ensures initial - |games| * Swing(x) <= Simulation(x, games, initial).value.bankroll <= initial + |games| * Swing(x)
    decreases |games|
  {
    if games != [] {
      var n := |games| - 1;
      SimulationLast(x, games, initial);
      BankrollWithin(x, games[..n], initial);
      GameSwing(x, games[n], Simulation(x, games[..n], initial).value.bankroll);
      assert |games| * Swing(x) == n * Swing(x) + Swing(x);
    }
  }

  lemma BankrollStaysSafe(x: Input, games: seq<Game>, initial: int, k: nat)
    requires SettingsOk(x) && StaysSafe(x, initial, |games|)
    requires k <= |games| && Simulation(x, games[..k], initial).Some?
    ensures IsSafe(Simulation(x, games[..k], initial).value.bankroll)
  {
    BankrollWithin(x, games[..k], initial);
    SwingNotNegative(x);
    BetweenSafe(initial, Simulation(x, games[..k], initial).value.bankroll, k, |games|, Swing(x));
  }

  lemma SwingNotNegative(x: Input)
    requires SettingsOk(x)
    ensures 0 <= Swing(x)
  {
    Arithmetic.MulNonNegative(7 * x.milli, x.version.sizing.maxStake);
  }

  lemma BetweenSafe(initial: int, b: int, k: nat, n: nat, swing: int)
    requires k <= n && 0 <= swing && initial - k * swing <= b <= initial + k * swing
    requires IsSafe(initial - n * swing) && IsSafe(initial + n * swing)
    ensures IsSafe(b)
  {
    Arithmetic.MulMonotone(k, n, swing);
  }

  /** With such settings, a table that has the cells of the matching ticks, and a bankroll that stays a safe integer
      whatever the games bring, a backtest returns. */
  lemma InputsReturn(x: Input, games: seq<Game>, initial: int)
    requires SettingsOk(x) && StaysSafe(x, initial, |games|) && forall k :: 0 <= k < |games| ==> CellsOk(x, games[k])
    ensures Simulation(x, games, initial).Some?
  {
    SimulationThrowsExactly(x, games, initial);
    if k: nat :| ThrowsInGame(x, games, initial, k) {
      var bankroll := Simulation(x, games[..k], initial).value.bankroll;
      BankrollStaysSafe(x, games, initial, k);
      CannotThrow(x, games[k], bankroll);
      assert false;
    }
  }

  lemma CannotThrow(x: Input, g: Game, bankroll: int)
    requires SettingsOk(x) && IsSafe(bankroll) && CellsOk(x, g)
    ensures !GameThrows(x, g, bankroll)
  {
    if m :| x.version.rule.atMinute <= m <= LastTick(x) && ThrowsAt(x, g, bankroll, x.version.rule.atMinute, m) {
      OnlyCellsThrow(x, g, RuleAt(x, g, m).side, m, bankroll);
      assert false;
    }
  }

  lemma GameReturns(x: Input, g: Game, bankroll: int)
    requires SettingsOk(x) && IsSafe(bankroll) && CellsOk(x, g)
    ensures PlayGame(x, g, bankroll).Some?
  {
    CannotThrow(x, g, bankroll);
    GameThrowsExactly(x, g, bankroll);
  }

  // ---- inputs that throw --------------------------------------------------------------------------------

  const RULE := LeadRule(1, 10, 0, None, None, false)

  const VERSION := Version(RULE, Execution(9_900, None, 0, 0, 15), Sizing(10_000, 0, 500_000))

  const GAME := Game(0, 1, 0, [Goal(5, Home)], Some(Market(0, [])), None, None)

  lemma LeadsAtTen(x: Input)
    requires x.sport == Soccer && x.version == VERSION
    ensures RuleAt(x, GAME, 10) == Match(Home, 10) && ScoreAt(GAME.goals, 10) == Score(1, 0) && LastTick(x) == 10
  {
    assert GAME.goals[..0] == [];
    assert GoalsBy(GAME.goals, Home, 10) == 1 && GoalsBy(GAME.goals, Away, 10) == 0;
  }

  /** With only the first tick to try, the game throws when that try does. */
  lemma ThrowsAtTen(x: Input, bankroll: int)
    requires x.sport == Soccer && x.version == VERSION && TryThrows(x, GAME, Home, 10, bankroll)
    ensures Simulation(x, [GAME], bankroll).None?
  {
    LeadsAtTen(x);
    assert MatchesFor(x, GAME, Home, 10);
    assert FirstLeader(x, GAME, Home, 10, 11);
    assert ThrowsAt(x, GAME, bankroll, 10, 10);
    GameThrowsExactly(x, GAME, bankroll);
    SimulationLast(x, [GAME], bankroll);
    assert [GAME][..0] == [];
  }

  /** A price table without the cell of the tick. */
  lemma EmptyTableThrows()
    ensures Simulation(Input(Soccer, VERSION, Modelled(map[]), 1_000, 100), [GAME], 500_000).None?
  {
    ThrowsAtTen(Input(Soccer, VERSION, Modelled(map[]), 1_000, 100), 500_000);
  }

  const NO_PRECISION := Input(Soccer, VERSION, Modelled(map[(1, 80) := 5_000]), 1_000, 0)

  lemma FeeRefusedAtHalf()
    ensures FeeRefused(NO_PRECISION, [], 5_000, 500_000)
  {
    assert LINEAR_CENT[..0] == [];
    assert LimitAt(NO_PRECISION, [], 5_000) == Some(5_000);
    assert StakeAt(NO_PRECISION, 500_000) == 500_000;
  }

  /** A balance precision of zero, when the entry is accepted. */
  lemma ZeroPrecisionThrows()
    ensures Simulation(NO_PRECISION, [GAME], 500_000).None?
  {
    LeadsAtTen(NO_PRECISION);
    assert PriceAt(NO_PRECISION, GAME, Home, 10) == Some(Some(Ask(5_000, FromModel)));
    FeeRefusedAtHalf();
    ThrowsAtTen(NO_PRECISION, 500_000);
  }
}
