/** What a backtest's rows and bankroll mean (app/src/backtest/simulator.ts). */
module Backtest {
  import opened Arithmetic
  import opened Pricing
  import opened Guards
  import opened Rule
  import opened Simulator

  // ---- one game: which tick decides ---------------------------------------------------------------------

  predicate MatchesFor(x: Input, g: Game, side: Side, minute: int) {
    RuleAt(x, g, minute).Match? && RuleAt(x, g, minute).side == side
  }

  /** With this bankroll the tick ends the entry: a fill or a hard rejection. */
  predicate Decides(x: Input, g: Game, side: Side, minute: int, bankroll: int) {
    var price := PriceAt(x, g, side, minute);
    && MatchesFor(x, g, side, minute) && price.Some? && price.value.Some?
    && var r := EvaluateEntry(SimEntry(x, RangesOf(x, g, side), price.value.value.bp, bankroll));
    r.Accept? || (r.Reject? && IsHard(r.reason))
  }

  /** `side` is the leader of the first tick from `first` on at which the rule matches; that tick is before `m`. */
  ghost predicate FirstLeader(x: Input, g: Game, side: Side, first: int, m: int) {
    exists m0 :: first <= m0 < m && MatchesFor(x, g, side, m0) && forall k :: first <= k < m0 ==> RuleAt(x, g, k).NoMatch?
  }

  /** The last tick tried is the last one before `m` at which the rule matches for the side. */
  ghost predicate LastTried(x: Input, g: Game, side: Side, minute: int, first: int, m: int) {
    first <= minute < m && MatchesFor(x, g, side, minute) && forall k :: minute < k < m ==> !MatchesFor(x, g, side, k)
  }

  /** The fill of an accepted entry: what the guards promise, the exact fee, and the P&L at the final score. */
  ghost predicate FillOk(x: Input, g: Game, side: Side, minute: int, bankroll: int, r: Row)
    requires r.bought.Some?
  {
    var b := r.bought.value;
    var price := PriceAt(x, g, side, minute);
    && r.skip.None? && r.priceBp.Some? && price.Some? && price.value.Some? && r.source == Some(price.value.value.source)
    && var e := EvaluateEntry(SimEntry(x, RangesOf(x, g, side), price.value.value.bp, bankroll));
    && e.Accept? && e.limitBp == r.priceBp.value && e.requestedCc == b.cc && e.stake == b.stake
    && FeeMicros(b.cc, r.priceBp.value, x.milli, x.prec) == Some(b.fee)
    && WorthAtEnd(x.sport, g, side, b.valueBp) && b.pnl == b.cc * b.valueBp - b.cc * r.priceBp.value - b.fee
  }

  /** A tick that is tried and finds a price. */
  predicate PricedAt(x: Input, g: Game, side: Side, k: int) {
    MatchesFor(x, g, side, k) && PriceAt(x, g, side, k).Some? && PriceAt(x, g, side, k).value.Some?
  }

  /** `ask` is the price of the last tick before `m` that found one. */
  ghost predicate LastPriced(x: Input, g: Game, side: Side, ask: Option<int>, first: int, m: int) {
    match ask
    case None => forall k :: first <= k < m ==> !PricedAt(x, g, side, k)
    case Some(a) =>
      exists k :: first <= k < m && PricedAt(x, g, side, k) && PriceAt(x, g, side, k).value.value.bp == a
                  && forall j :: k < j < m ==> !PricedAt(x, g, side, j)
  }

  /** The try at the tick was turned down for this reason, at a price from this source. */
  predicate TurnedDown(x: Input, g: Game, side: Side, minute: int, bankroll: int, reason: Reason, source: Option<Source>) {
    var price := PriceAt(x, g, side, minute);
    && MatchesFor(x, g, side, minute) && price.Some?
    && match price.value
       case None => reason == NoPrice && source.None?
       case Some(ask) =>
         var e := EvaluateEntry(SimEntry(x, RangesOf(x, g, side), ask.bp, bankroll));
         e.Reject? && reason == e.reason && source == Some(ask.source)
  }

  /** The row of a game: for the first leader; a fill or a hard skip is at the first deciding tick, a soft skip at
      the last tick tried when none decides; a skip has the reason and the source of the try at its tick and the
      last price found; the bankroll moves by exactly the P&L of a fill. */
  ghost predicate RowOk(x: Input, g: Game, before: int, r: Row, first: int, m: int) {
    && r.game == g.id && r.bankrollAfter == before + PnlOf(r)
    && FirstLeader(x, g, r.side, first, m)
    && first <= r.minute < m && MatchesFor(x, g, r.side, r.minute)
    && (forall k :: first <= k < r.minute ==> !Decides(x, g, r.side, k, before))
    && (Decides(x, g, r.side, r.minute, before) || LastTried(x, g, r.side, r.minute, first, m))
    && match r.bought
       case Some(b) => Decides(x, g, r.side, r.minute, before) && FillOk(x, g, r.side, r.minute, before, r)
       case None =>
         && r.skip.Some? && TurnedDown(x, g, r.side, r.minute, before, r.skip.value, r.source)
         && LastPriced(x, g, r.side, r.priceBp, first, r.minute + 1)
         && (IsHard(r.skip.value) <==> Decides(x, g, r.side, r.minute, before))
  }

  function PnlOf(r: Row): int { if r.bought.Some? then r.bought.value.pnl else 0 }

  /** The loop's variables after the ticks before `m`. */
  ghost predicate PlayOk(x: Input, g: Game, before: int, p: Play, first: int, m: int) {
    match p.side
    case None => p == Kickoff(before) && forall k :: first <= k < m ==> RuleAt(x, g, k).NoMatch?
    case Some(side) =>
      match p.row
      case None =>
        && p.bankroll == before && FirstLeader(x, g, side, first, m) && LastTried(x, g, side, p.lastMinute, first, m)
        && (forall k :: first <= k < m ==> !Decides(x, g, side, k, before))
        && p.lastReason.Some? && !IsHard(p.lastReason.value)
        && TurnedDown(x, g, side, p.lastMinute, before, p.lastReason.value, p.lastSource)
        && LastPriced(x, g, side, p.lastAsk, first, p.lastMinute + 1)
      case Some(r) => r.side == side && r.bankrollAfter == p.bankroll && RowOk(x, g, before, r, first, m) && Decides(x, g, side, r.minute, before)
  }

  /** A tick that is tried makes its leader the first one if there was none. */
  lemma TriedLeader(x: Input, g: Game, before: int, p: Play, first: int, m: int, side: Side)
    requires PlayOk(x, g, before, p, first, m) && p.row.None? && first <= m
    requires MatchesFor(x, g, side, m) && (p.side.None? || p.side == Some(side))
    ensures FirstLeader(x, g, side, first, m + 1)
    ensures forall k :: first <= k < m ==> !Decides(x, g, side, k, before)
  {
    if p.side.Some? {
      LeaderStays(x, g, side, first, m, m + 1);
    }
  }

  /** The guards of the simulator reject for a price or for the size, nothing else. */
  lemma SimReasons(x: Input, ranges: seq<PriceRange>, ask: int, bankroll: int)
    requires EvaluateEntry(SimEntry(x, ranges, ask, bankroll)).Reject?
    ensures EvaluateEntry(SimEntry(x, ranges, ask, bankroll)).reason in {PriceReason, MinPrice, TooSmall}
  {
    var i := SimEntry(x, ranges, ask, bankroll);
    assert i.asks[..0] == [];
    assert BestAsk(i.asks) == Some(ask);
    var limit := LimitPriceBp(ask, i.maxSlippageBp, i.maxPriceBp, i.ranges);
    if limit.Some? && limit.value.Some? { OneLevel(AskLevel(ask, MAX_SAFE), limit.value.value); }
  }

  /** A skip never falls back on `window_expired`: it is for want of a price, for the price or for the size. */
  lemma SkipHasTry(x: Input, g: Game, side: Side, minute: int, bankroll: int, reason: Reason, source: Option<Source>)
    requires TurnedDown(x, g, side, minute, bankroll, reason, source)
    ensures reason in {NoPrice, PriceReason, MinPrice, TooSmall}
  {
    var price := PriceAt(x, g, side, minute).value;
    if price.Some? { SimReasons(x, RangesOf(x, g, side), price.value.bp, bankroll); }
  }

  lemma LastPricedStays(x: Input, g: Game, side: Side, ask: Option<int>, first: int, q: int, m: int)
    requires LastPriced(x, g, side, ask, first, q) && q <= m && forall k :: q <= k < m ==> !PricedAt(x, g, side, k)
    ensures LastPriced(x, g, side, ask, first, m)
  {
    if ask.Some? {
      var k :| first <= k < q && PricedAt(x, g, side, k) && PriceAt(x, g, side, k).value.value.bp == ask.value
               && forall j :: k < j < q ==> !PricedAt(x, g, side, j);
      assert forall j :: k < j < m ==> !PricedAt(x, g, side, j);
    }
  }

  lemma UnmatchedUnpriced(x: Input, g: Game, side: Side, first: int, m: int)
    requires forall k :: first <= k < m ==> !MatchesFor(x, g, side, k)
    ensures forall k :: first <= k < m ==> !PricedAt(x, g, side, k)
  {
  }

  /** A try that finds no price leaves the last price found as it was. */
  lemma PriceStays(x: Input, g: Game, before: int, p: Play, first: int, m: int, side: Side)
    requires PlayOk(x, g, before, p, first, m) && p.row.None? && first <= m && (p.side.None? || p.side == Some(side))
    requires !PricedAt(x, g, side, m)
    ensures LastPriced(x, g, side, p.lastAsk, first, m + 1)
  {
    if p.side.Some? {
      UnmatchedUnpriced(x, g, side, p.lastMinute + 1, m);
      LastPricedStays(x, g, side, p.lastAsk, first, p.lastMinute + 1, m + 1);
    } else {
      UnmatchedUnpriced(x, g, side, first, m);
    }
  }

  lemma EnterOk(x: Input, g: Game, before: int, p: Play, first: int, m: int, side: Side, ask: Ask)
    requires first <= m && p.row.None? && p.bankroll == before && p.side == Some(side) && p.lastMinute == m
    requires p.lastAsk == Some(ask.bp) && p.lastSource == Some(ask.source)
    requires MatchesFor(x, g, side, m) && FirstLeader(x, g, side, first, m + 1)
    requires forall k :: first <= k < m ==> !Decides(x, g, side, k, before)
    requires PriceAt(x, g, side, m) == Some(Some(ask)) && Enter(x, g, p, side, m, ask).Some?
    ensures PlayOk(x, g, before, Enter(x, g, p, side, m, ask).value, first, m + 1)
  {
    var e := EvaluateEntry(SimEntry(x, RangesOf(x, g, side), ask.bp, before));
    assert LastTried(x, g, side, m, first, m + 1);
    assert PricedAt(x, g, side, m) && LastPriced(x, g, side, Some(ask.bp), first, m + 1);
    match e
    case Reject(reason, _) =>
      assert TurnedDown(x, g, side, m, before, reason, Some(ask.source));
      assert Decides(x, g, side, m, before) <==> IsHard(reason);
    case Accept(_, _, _, _, _) =>
      assert Decides(x, g, side, m, before);
  }

  /** A try without a price. */
  lemma UnpricedTickOk(x: Input, g: Game, before: int, p: Play, first: int, m: int, side: Side)
    requires PlayOk(x, g, before, p, first, m) && p.row.None? && first <= m && (p.side.None? || p.side == Some(side))
    requires MatchesFor(x, g, side, m) && FirstLeader(x, g, side, first, m + 1) && LastTried(x, g, side, m, first, m + 1)
    requires forall k :: first <= k < m ==> !Decides(x, g, side, k, before)
    requires PriceAt(x, g, side, m) == Some(None)
    ensures PlayOk(x, g, before, p.(side := Some(side), lastMinute := m, lastReason := Some(NoPrice), lastSource := None), first, m + 1)
  {
    PriceStays(x, g, before, p, first, m, side);
    assert TurnedDown(x, g, side, m, before, NoPrice, None);
  }

  lemma TickOk(x: Input, g: Game, before: int, p: Play, first: int, m: int)
    requires PlayOk(x, g, before, p, first, m) && p.row.None? && first <= m && Tick(x, g, p, m).Some?
    ensures PlayOk(x, g, before, Tick(x, g, p, m).value, first, m + 1)
  {
    var r := RuleAt(x, g, m);
    if r.Match? && (p.side.None? || p.side == Some(r.side)) {
      TriedLeader(x, g, before, p, first, m, r.side);
      assert LastTried(x, g, r.side, m, first, m + 1);
      var price := PriceAt(x, g, r.side, m).value;
      if price.Some? {
        EnterOk(x, g, before, p.(side := Some(r.side), lastMinute := m, lastAsk := Some(price.value.bp), lastSource := Some(price.value.source)),
                first, m, r.side, price.value);
      } else {
        UnpricedTickOk(x, g, before, p, first, m, r.side);
      }
    } else if p.side.Some? {
      IdleTickOk(x, g, before, p, first, m);
    }
  }

  lemma IdleTickOk(x: Input, g: Game, before: int, p: Play, first: int, m: int)
    requires PlayOk(x, g, before, p, first, m) && p.row.None? && first <= m && p.side.Some? && !MatchesFor(x, g, p.side.value, m)
    ensures PlayOk(x, g, before, p, first, m + 1)
  {
    LeaderStays(x, g, p.side.value, first, m, m + 1);
  }

  /** Later ticks do not change what a row means. */
  lemma RowStays(x: Input, g: Game, before: int, r: Row, first: int, m: int, m': int)
    requires RowOk(x, g, before, r, first, m) && m <= m' && Decides(x, g, r.side, r.minute, before)
    ensures RowOk(x, g, before, r, first, m')
  {
    LeaderStays(x, g, r.side, first, m, m');
  }

  lemma LeaderStays(x: Input, g: Game, side: Side, first: int, m: int, m': int)
    requires FirstLeader(x, g, side, first, m) && m <= m'
    ensures FirstLeader(x, g, side, first, m')
  {
    var m0 :| first <= m0 < m && MatchesFor(x, g, side, m0) && forall k :: first <= k < m0 ==> RuleAt(x, g, k).NoMatch?;
    assert first <= m0 < m';
  }

  lemma {:induction false} TicksOk(x: Input, g: Game, before: int, p: Play, first: int, from: int, last: int)
    requires PlayOk(x, g, before, p, first, from) && first <= from <= Max(first, last + 1) && Ticks(x, g, p, from, last).Some?
    ensures PlayOk(x, g, before, Ticks(x, g, p, from, last).value, first, Max(first, last + 1))
    decreases 1 + last - from
  {
    if p.row.Some? {
      TicksStop(x, g, p, from, last);
      RowStays(x, g, before, p.row.value, first, from, Max(first, last + 1));
    } else if from > last {
      TicksStop(x, g, p, from, last);
    } else {
      TickGoesOn(x, g, p, from, last);
      var next := Tick(x, g, p, from).value;
      TickOk(x, g, before, p, first, from);
      TicksOk(x, g, before, next, first, from + 1, last);
    }
  }

  lemma TickGoesOn(x: Input, g: Game, p: Play, from: int, last: int)
    requires p.row.None? && from <= last && Ticks(x, g, p, from, last).Some?
    ensures Tick(x, g, p, from).Some? && Ticks(x, g, p, from, last) == Ticks(x, g, Tick(x, g, p, from).value, from + 1, last)
  {
  }

  /** The whole game: a row exactly when the rule matches on some tick, and then it means what it says. */
  lemma GameMeaning(x: Input, g: Game, before: int)
    requires PlayGame(x, g, before).Some?
    ensures var p := PlayGame(x, g, before).value;
            var first, last := x.version.rule.atMinute, LastTick(x);
            && (p.row.None? <==> forall k :: first <= k <= last ==> RuleAt(x, g, k).NoMatch?)
            && (p.row.None? ==> p.bankroll == before)
            && (p.row.Some? ==> p.row.value.bankrollAfter == p.bankroll && RowOk(x, g, before, p.row.value, first, Max(first, last + 1)))
  {
    var first, last := x.version.rule.atMinute, LastTick(x);
    TicksOk(x, g, before, Kickoff(before), first, first, last);
    var p := Ticks(x, g, Kickoff(before), first, last).value;
    if p.side.Some? && p.row.None? {
      assert !Decides(x, g, p.side.value, p.lastMinute, before);
    }
    if p.side.Some? {
      assert FirstLeader(x, g, p.side.value, first, Max(first, last + 1));
    }
  }

  // ---- the bankroll over a whole backtest ---------------------------------------------------------------

  function SumPnl(rows: seq<Row>): int {
    if rows == [] then 0 else SumPnl(rows[..|rows| - 1]) + PnlOf(rows[|rows| - 1])
  }

  /** The bankroll a row found: the one the row before it left. */
  function Before(rows: seq<Row>, initial: int, k: nat): int
    requires k <= |rows|
  {
    if k == 0 then initial else rows[k - 1].bankrollAfter
  }

  predicate Compounds(rows: seq<Row>, initial: int, k: nat)
    requires k < |rows|
  {
    rows[k].bankrollAfter == Before(rows, initial, k) + PnlOf(rows[k])
  }

  ghost predicate RowFor(x: Input, games: seq<Game>, rows: seq<Row>, initial: int, i: nat, k: nat)
    requires i < |games| && k < |rows|
  {
    var first := x.version.rule.atMinute;
    RowOk(x, games[i], Before(rows, initial, k), rows[k], first, Max(first, LastTick(x) + 1))
  }

  predicate NeverMatches(x: Input, g: Game) {
    forall m :: x.version.rule.atMinute <= m <= LastTick(x) ==> RuleAt(x, g, m).NoMatch?
  }

  predicate Increasing(idx: seq<nat>) { forall j, k :: 0 <= j < k < |idx| ==> idx[j] < idx[k] }

  lemma IncreasingGrows(idx: seq<nat>, n: nat)
    requires Increasing(idx) && forall k :: 0 <= k < |idx| ==> idx[k] < n
    ensures Increasing(idx + [n])
  {
  }

  /** The rows are those of the games on which the rule matches, one each, in game order; each compounds the
      bankroll the one before left. */
  ghost predicate RowsOk(x: Input, games: seq<Game>, rows: seq<Row>, initial: int, idx: seq<nat>) {
    && |idx| == |rows| && Increasing(idx)
    && (forall k :: 0 <= k < |idx| ==> idx[k] < |games| && RowFor(x, games, rows, initial, idx[k], k))
    && (forall i :: 0 <= i < |games| ==> i in idx || NeverMatches(x, games[i]))
  }

  lemma RowForGrows(x: Input, games: seq<Game>, rows: seq<Row>, initial: int, i: nat, k: nat, row: Row)
    requires games != [] && i < |games| - 1 && k < |rows| && RowFor(x, games[..|games| - 1], rows, initial, i, k)
    ensures RowFor(x, games, rows + [row], initial, i, k)
  {
    assert Before(rows + [row], initial, k) == Before(rows, initial, k);
  }

  lemma RowForNew(x: Input, games: seq<Game>, rows: seq<Row>, initial: int, row: Row)
    requires games != []
    requires var first := x.version.rule.atMinute;
             RowOk(x, games[|games| - 1], Before(rows, initial, |rows|), row, first, Max(first, LastTick(x) + 1))
    ensures RowFor(x, games, rows + [row], initial, |games| - 1, |rows|)
  {
    assert Before(rows + [row], initial, |rows|) == Before(rows, initial, |rows|);
  }

  lemma Covered(x: Input, games: seq<Game>, idx: seq<nat>, i: nat)
    requires i < |games| && forall j :: 0 <= j < |games| - 1 ==> j in idx || NeverMatches(x, games[..|games| - 1][j])
    ensures i in idx + [|games| - 1] || NeverMatches(x, games[i])
  {
    if i == |games| - 1 { assert (idx + [i])[|idx|] == i; } else { assert games[..|games| - 1][i] == games[i]; }
  }

  lemma RowsOkGrow(x: Input, games: seq<Game>, rows: seq<Row>, initial: int, idx: seq<nat>, row: Row)
    requires games != [] && RowsOk(x, games[..|games| - 1], rows, initial, idx)
    requires var first := x.version.rule.atMinute;
             RowOk(x, games[|games| - 1], Before(rows, initial, |rows|), row, first, Max(first, LastTick(x) + 1))
    ensures RowsOk(x, games, rows + [row], initial, idx + [|games| - 1])
  {
    var n := |games| - 1;
    var all := idx + [n];
    IncreasingGrows(idx, n);
    forall k | 0 <= k < |all|
      ensures all[k] < |games| && RowFor(x, games, rows + [row], initial, all[k], k)
    {
      if k < |idx| { RowForGrows(x, games, rows, initial, idx[k], k, row); } else { RowForNew(x, games, rows, initial, row); }
    }
    forall i | 0 <= i < |games|
      ensures i in all || NeverMatches(x, games[i])
    {
      Covered(x, games, idx, i);
    }
  }

  lemma RowsOkSkip(x: Input, games: seq<Game>, rows: seq<Row>, initial: int, idx: seq<nat>)
    requires games != [] && RowsOk(x, games[..|games| - 1], rows, initial, idx) && NeverMatches(x, games[|games| - 1])
    ensures RowsOk(x, games, rows, initial, idx)
  {
    var n := |games| - 1;
    forall k | 0 <= k < |idx|
      ensures RowFor(x, games, rows, initial, idx[k], k)
    {
      assert RowFor(x, games[..n], rows, initial, idx[k], k);
    }
    forall i | 0 <= i < |games|
      ensures i in idx || NeverMatches(x, games[i])
    {
      if i < n { assert games[..n][i] == games[i]; }
    }
  }

  /** The rows of a backtest, with the game of each. */
  lemma {:induction false} BacktestMeaning(x: Input, games: seq<Game>, initial: int) returns (idx: seq<nat>)
    requires Simulation(x, games, initial).Some?
    ensures RowsOk(x, games, Simulation(x, games, initial).value.rows, initial, idx)
    ensures var r := Simulation(x, games, initial).value; r.bankroll == Before(r.rows, initial, |r.rows|)
  {
    idx := [];
    if games != [] {
      var n := |games| - 1;
      idx := BacktestMeaning(x, games[..n], initial);
      var before := Simulation(x, games[..n], initial).value;
      GameMeaning(x, games[n], before.bankroll);
      var p := PlayGame(x, games[n], before.bankroll).value;
      if p.row.Some? {
        RowsOkGrow(x, games, before.rows, initial, idx, p.row.value);
        idx := idx + [n];
      } else {
        assert before.rows + [] == before.rows;
        assert NeverMatches(x, games[n]);
        RowsOkSkip(x, games, before.rows, initial, idx);
      }
    }
  }

  /** The row is a fill of one of the games, at what its goals make of the market. */
  ghost predicate AtResult(x: Input, games: seq<Game>, r: Row) {
    r.bought.Some? ==>
      exists i :: 0 <= i < |games| && games[i].id == r.game && WorthAtEnd(x.sport, games[i], r.side, r.bought.value.valueBp)
  }

  lemma RowsAtResult(x: Input, games: seq<Game>, initial: int)
    requires Simulation(x, games, initial).Some?
    ensures forall k :: 0 <= k < |Simulation(x, games, initial).value.rows| ==> AtResult(x, games, Simulation(x, games, initial).value.rows[k])
  {
    var idx := BacktestMeaning(x, games, initial);
    var rows := Simulation(x, games, initial).value.rows;
    forall k | 0 <= k < |rows|
      ensures AtResult(x, games, rows[k])
    {
      assert RowFor(x, games, rows, initial, idx[k], k);
    }
  }

  lemma {:induction false} CompoundedSum(rows: seq<Row>, initial: int)
    requires forall k :: 0 <= k < |rows| ==> Compounds(rows, initial, k)
    ensures Before(rows, initial, |rows|) == initial + SumPnl(rows)
  {
    if rows != [] {
      var n := |rows| - 1;
      forall k | 0 <= k < n
        ensures Compounds(rows[..n], initial, k)
      {
        assert Compounds(rows, initial, k);
      }
      CompoundedSum(rows[..n], initial);
      assert Compounds(rows, initial, n);
    }
  }

  lemma {:induction false} PrefixSum(rows: seq<Row>, initial: int, k: nat)
    requires k < |rows| && forall j :: 0 <= j < |rows| ==> Compounds(rows, initial, j)
    ensures rows[k].bankrollAfter == initial + SumPnl(rows[..k + 1])
  {
    var some := rows[..k + 1];
    forall j | 0 <= j < |some|
      ensures Compounds(some, initial, j)
    {
      assert Compounds(rows, initial, j);
    }
    CompoundedSum(some, initial);
  }

  lemma RowsCompound(x: Input, games: seq<Game>, rows: seq<Row>, initial: int, idx: seq<nat>, k: nat)
    requires RowsOk(x, games, rows, initial, idx) && k < |rows|
    ensures Compounds(rows, initial, k)
  {
    assert RowFor(x, games, rows, initial, idx[k], k);
  }

  /** At the end, and after every row, the bankroll is the initial one plus the P&L so far. */
  lemma BankrollIsInitialPlusPnl(x: Input, games: seq<Game>, initial: int)
    requires Simulation(x, games, initial).Some?
    ensures var r := Simulation(x, games, initial).value;
            && r.bankroll == initial + SumPnl(r.rows)
            && forall k :: 0 <= k < |r.rows| ==> r.rows[k].bankrollAfter == initial + SumPnl(r.rows[..k + 1])
  {
    var rows := Simulation(x, games, initial).value.rows;
    var idx := BacktestMeaning(x, games, initial);
    forall k | 0 <= k < |rows|
      ensures Compounds(rows, initial, k)
    {
      RowsCompound(x, games, rows, initial, idx, k);
    }
    CompoundedSum(rows, initial);
    forall k | 0 <= k < |rows|
      ensures rows[k].bankrollAfter == initial + SumPnl(rows[..k + 1])
    {
      PrefixSum(rows, initial, k);
    }
  }

  /** One more game after the others. */
  function OneMore(x: Input, r: Option<Result>, g: Game): Option<Result> {
    if r.None? then None
    else
      var p := PlayGame(x, g, r.value.bankroll);
      if p.None? then None else Some(Result(r.value.rows + RowsOf(p.value), p.value.bankroll))
  }

  lemma SimulationLast(x: Input, games: seq<Game>, initial: int)
    requires games != []
    ensures Simulation(x, games, initial) == OneMore(x, Simulation(x, games[..|games| - 1], initial), games[|games| - 1])
  {
  }

  /** `r2`, started where `r1` ended, put behind `r1`. */
  function Joined(r1: Result, r2: Option<Result>): Option<Result> {
    if r2.None? then None else Some(Result(r1.rows + r2.value.rows, r2.value.bankroll))
  }

  lemma JoinedOneMore(x: Input, r1: Result, r2: Option<Result>, g: Game)
    ensures OneMore(x, Joined(r1, r2), g) == Joined(r1, OneMore(x, r2, g))
  {
    if r2.Some? && PlayGame(x, g, r2.value.bankroll).Some? {
      var more := RowsOf(PlayGame(x, g, r2.value.bankroll).value);
      assert (r1.rows + r2.value.rows) + more == r1.rows + (r2.value.rows + more);
    }
  }

  /** Two stretches of games are one backtest: the second starts from the bankroll the first leaves. */
  lemma {:induction false} Composes(x: Input, first: seq<Game>, second: seq<Game>, initial: int)
    ensures var r1 := Simulation(x, first, initial);
            Simulation(x, first + second, initial)
            == if r1.None? then None else Joined(r1.value, Simulation(x, second, r1.value.bankroll))
    decreases |second|
  {
    var games := first + second;
    var r1 := Simulation(x, first, initial);
    if second == [] {
      assert games == first;
      if r1.Some? {
        assert r1.value.rows + [] == r1.value.rows;
      }
    } else {
      var n, m := |games| - 1, |second| - 1;
      assert games[..n] == first + second[..m] && games[n] == second[m];
      Composes(x, first, second[..m], initial);
      SimulationLast(x, games, initial);
      if r1.Some? {
        SimulationLast(x, second, r1.value.bankroll);
        JoinedOneMore(x, r1.value, Simulation(x, second[..m], r1.value.bankroll), second[m]);
      }
    }
  }

  // ---- how deep a bankroll can fall ---------------------------------------------------------------------

  /** The most an order of at most `stake` micro-dollars can cost in fees. */
  function FeeBound(stake: int, milli: int, prec: int): int { CeilDiv(7 * milli * stake, 100_000) + prec }

  lemma RawFeeByStake(cc: int, bp: int, milli: int, stake: int)
    requires 0 <= cc && 0 <= bp <= 10_000 && 0 <= milli && CostMicros(cc, bp) <= stake
    ensures RawFee(cc, bp, milli) <= CeilDiv(7 * milli * stake, 100_000)
  {
    var m := 7 * milli;
    MulNonNegative(cc, bp);
    assert m * cc * Spread(bp) == m * (cc * bp) * (10_000 - bp);
    NumeratorMonotone(milli, cc * bp, stake, 10_000 - bp, 10_000);
    TenThousandth(m * stake);
  }

  lemma TenThousandth(a: int)
    ensures CeilDiv(a * 10_000, 1_000_000_000) == CeilDiv(a, 100_000)
  {
  }

  predicate SizingOk(z: Sizing) { 0 <= z.percentCenti <= 10_000 && 0 <= z.minStake <= z.maxStake }

  lemma StakeAtMost(balance: int, z: Sizing)
    requires SizingOk(z) && balance > 0
    ensures StakeMicros(balance, z.percentCenti, z.minStake, z.maxStake) <= Max(balance, z.minStake)
    ensures StakeMicros(balance, z.percentCenti, z.minStake, z.maxStake) <= z.maxStake
  {
    MulMonotone(z.percentCenti, 10_000, balance);
    MulNonNegative(balance, z.percentCenti);
  }

  /** A fill comes from a positive bankroll and costs at most the stake; its loss is bounded. */
  lemma FillLoss(x: Input, g: Game, before: int, r: Row, side: Side, minute: int)
    requires r.bought.Some? && FillOk(x, g, side, minute, before, r) && SizingOk(x.version.sizing)
    ensures before > 0
    ensures before + r.bought.value.pnl >= -(x.version.sizing.minStake + FeeBound(x.version.sizing.maxStake, x.milli, x.prec))
  {
    var b := r.bought.value;
    var z := x.version.sizing;
    var limit := r.priceBp.value;
    var input := SimEntry(x, RangesOf(x, g, side), PriceAt(x, g, side, minute).value.value.bp, before);
    AcceptCosts(input);
    StakeAtMost(before, z);
    FeeIsLeast(b.cc, limit, x.milli, x.prec);
    FeeWithinStep(b.cc, limit, x.milli, x.prec);
    RawFeeByStake(b.cc, limit, x.milli, z.maxStake);
    MulNonNegative(b.cc, b.valueBp);
  }

  lemma AcceptCosts(i: EntryInput)
    requires EvaluateEntry(i).Accept?
    ensures var r := EvaluateEntry(i);
            && i.balance > 0 && r.requestedCc >= 0 && r.stake == StakeMicros(i.balance, i.percentCenti, i.minStake, i.maxStake)
            && CostMicros(r.requestedCc, r.limitBp) <= r.stake
  {
    var r := EvaluateEntry(i);
    ContractsAreMost(r.stake, r.limitBp, r.requestedCc / 100);
  }

  /** Over a whole backtest the bankroll never falls below the initial one or the minimum stake and one fee in
      debt, whichever is lower: a bankroll that is not positive never buys. */
  lemma {:induction false} BankrollFloor(x: Input, games: seq<Game>, initial: int)
    requires Simulation(x, games, initial).Some? && SizingOk(x.version.sizing)
    ensures var floor := Min(initial, -(x.version.sizing.minStake + FeeBound(x.version.sizing.maxStake, x.milli, x.prec)));
            var r := Simulation(x, games, initial).value;
            && floor <= r.bankroll
            && forall k :: 0 <= k < |r.rows| ==> floor <= r.rows[k].bankrollAfter
    decreases |games|
  {
    if games != [] {
      var n := |games| - 1;
      BankrollFloor(x, games[..n], initial);
      var before := Simulation(x, games[..n], initial).value.bankroll;
      GameMeaning(x, games[n], before);
      var p := PlayGame(x, games[n], before).value;
      if p.row.Some? && p.row.value.bought.Some? {
        FillLoss(x, games[n], before, p.row.value, p.row.value.side, p.row.value.minute);
      }
    }
  }
}
