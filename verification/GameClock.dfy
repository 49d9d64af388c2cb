/** The synthetic clock of the backtester (app/src/backtest/clock.ts). */
module GameClock {
  import opened Arithmetic
  import opened Pricing
  import opened Rule

  datatype Goal = Goal(minute: int, side: Side)

  function LastMinute(sport: Sport): int { if sport == Soccer then 90 else 59 }

  function GoalsBy(goals: seq<Goal>, side: Side, minute: int): nat {
    if goals == [] then 0
    else
      var n := |goals| - 1;
      GoalsBy(goals[..n], side, minute) + if goals[n].minute <= minute && goals[n].side == side then 1 else 0
  }

  function ScoreAt(goals: seq<Goal>, minute: int): Score {
    Score(GoalsBy(goals, Home, minute), GoalsBy(goals, Away, minute))
  }

  method CountScore(goals: seq<Goal>, minute: int) returns (home: nat, away: nat)
    ensures Score(home, away) == ScoreAt(goals, minute)
  {
    home, away := 0, 0;
    for i := 0 to |goals|
      invariant Score(home, away) == ScoreAt(goals[..i], minute)
    {
      assert goals[..i + 1][..i] == goals[..i];
      if goals[i].minute <= minute {
        if goals[i].side == Home {
          home := home + 1;
        } else {
          away := away + 1;
        }
      }
    }
    assert goals[..|goals|] == goals;
  }

  /** A side's goals up to a minute add up over the list; a single goal counts for its side from its minute on. */
  lemma {:induction false} GoalsAdd(a: seq<Goal>, b: seq<Goal>, side: Side, minute: int)
    ensures GoalsBy(a + b, side, minute) == GoalsBy(a, side, minute) + GoalsBy(b, side, minute)
    ensures |a| == 1 ==> GoalsBy(a, side, minute) == if a[0].side == side && a[0].minute <= minute then 1 else 0
    decreases |b|
  {
    if |a| == 1 { assert a[..0] == []; }
    if b == [] {
      assert a + b == a;
    } else {
      assert (a + b)[..|a + b| - 1] == a + b[..|b| - 1];
      GoalsAdd(a, b[..|b| - 1], side, minute);
    }
  }

  /** The rule's view of the game at a tick. */
  function StateAt(sport: Sport, goals: seq<Goal>, minute: int, pregame: Pregame): GameState {
    var score := ScoreAt(goals, minute);
    var clock :=
      if sport == Hockey then
        var period := Min(3, minute / 20 + 1);
        Clock(Some(minute), Some(period), Some(1200 - (minute - (period - 1) * 20) * 60), false)
      else Clock(Some(minute), Some(if minute > 45 then 2 else 1), None, false);
    GameState(InPlay, score.home, score.away, clock, false, pregame)
  }

  /** The derived clock shows the tick it was built for; the game is in regular play, unblocked, with the goals scored
      so far. */
  lemma TickIsRuleMinute(sport: Sport, goals: seq<Goal>, minute: int, pregame: Pregame)
    ensures var st := StateAt(sport, goals, minute, pregame);
            && RuleMinute(sport, st.clock) == Some(minute) && Shows(sport, st.clock, minute)
            && RegularPlay(sport, st) && !st.blocked && st.pregame == pregame
            && st.home == GoalsBy(goals, Home, minute) && st.away == GoalsBy(goals, Away, minute)
  {
    var period := Min(3, minute / 20 + 1);
    var elapsed := (period - 1) * 1200 + (minute - (period - 1) * 20) * 60;
    assert elapsed == minute * 60;
    assert elapsed / 60 == minute;
  }

  /** A tick inside the window never closes it, and never misses the rule because of the window. */
  lemma TickInsideWindow(rule: LeadRule, sport: Sport, goals: seq<Goal>, minute: int, pregame: Pregame)
    requires rule.atMinute <= minute <= rule.atMinute + rule.windowMinutes
    ensures var st := StateAt(sport, goals, minute, pregame);
            var r := EvaluateLeadAtTime(rule, sport, st);
            !WindowClosed(r, rule, st, sport) && (r.NoMatch? ==> r.reason in {Lead, WrongSide, OpponentGoals, Underdog})
  {
    TickIsRuleMinute(sport, goals, minute, pregame);
  }

  /** Only an `underdogOnly` rule looks at the kick-off prices. */
  lemma PregameIgnored(rule: LeadRule, sport: Sport, goals: seq<Goal>, minute: int, p: Pregame, q: Pregame)
    requires rule.underdogOnly ==> p == q
    ensures EvaluateLeadAtTime(rule, sport, StateAt(sport, goals, minute, p)) == EvaluateLeadAtTime(rule, sport, StateAt(sport, goals, minute, q))
  {
  }

  function CeilOf(a: int, b: int): int
    requires b > 0
  {
    -((-a) / b)
  }

  /** The wall-clock minute whose candle stands for a game minute. */
  function WallMinuteOf(sport: Sport, minute: int): int {
    if sport == Hockey then
      var p := Min(2, minute / 20);
      p * 54 + CeilOf((minute - p * 20) * 36, 20)
    else if minute <= 45 then minute
    else minute + 17
  }

  /** The clock model of the price table (`matchMinute` in app/src/backtest/priceModel.ts): the game minute at a whole
      wall minute after the start, or none outside play. */
  function MatchMinute(sport: Sport, e: int): Option<int> {
    if e < 0 then None
    else if sport == Soccer then
      if e < 47 then Some(Min(e, 45))
      else if e < 62 then None
      else if 45 + (e - 62) > 97 then None
      else Some(Min(45 + (e - 62), 90))
    else
      var period := e / 54;
      var w := e - period * 54;
      if period > 2 || w >= 36 then None else Some(period * 20 + w * 20 / 36)
  }

  /** The last tick, as `LAST_MINUTE` has it. */
  predicate IsTick(sport: Sport, minute: int) { 0 <= minute <= LastMinute(sport) }

  /** `k` minutes into a hockey period, in wall minutes. */
  lemma IntoPeriod(k: int)
    requires 0 <= k < 20
    ensures var w := CeilOf(k * 36, 20);
            0 <= w < 36 && 20 * (w - 1) < 36 * k <= 20 * w < 36 * (k + 1)
  {
  }

  lemma HockeyTick(p: int, k: int)
    requires 0 <= p <= 2 && 0 <= k < 20
    ensures var w := CeilOf(k * 36, 20);
            WallMinuteOf(Hockey, p * 20 + k) == p * 54 + w && MatchMinute(Hockey, p * 54 + w) == Some(p * 20 + k)
  {
    IntoPeriod(k);
    var w := CeilOf(k * 36, 20);
    DivIs(p * 20 + k, 20, p);
    DivIs(p * 54 + w, 54, p);
    DivIs(w * 20, 36, k);
  }

  lemma HockeyShown(e: int, p: int, k: int)
    requires 0 <= p <= 2 && 0 <= k < 20 && MatchMinute(Hockey, e) == Some(p * 20 + k)
    ensures e >= p * 54 + CeilOf(k * 36, 20)
  {
    var period, w := e / 54, e - e / 54 * 54;
    assert 0 <= w * 20 / 36 < 20;
    assert period == p && w * 20 / 36 == k;
    IntoPeriod(k);
  }

  /** A tick is read from the first wall minute at which the clock model shows its minute. */
  lemma WallMinuteIsFirst(sport: Sport, minute: int, e: int)
    requires IsTick(sport, minute)
    ensures MatchMinute(sport, WallMinuteOf(sport, minute)) == Some(minute)
    ensures e < WallMinuteOf(sport, minute) ==> MatchMinute(sport, e) != Some(minute)
  {
    if sport == Hockey {
      HockeyTick(minute / 20, minute % 20);
      if MatchMinute(sport, e) == Some(minute) { HockeyShown(e, minute / 20, minute % 20); }
    }
  }

  /** The ticks end where the clock model's minutes end: soccer's last one is 90, and hockey's 60th is over. */
  lemma LastTickIsLast(sport: Sport, e: int)
    ensures MatchMinute(sport, e).Some? ==> IsTick(sport, MatchMinute(sport, e).value)
    ensures MatchMinute(sport, WallMinuteOf(sport, LastMinute(sport))) == Some(if sport == Soccer then 90 else 59)
  {
    WallMinuteIsFirst(sport, LastMinute(sport), e);
  }

  lemma WallClockStep(sport: Sport, minute: nat)
    ensures WallMinuteOf(sport, minute) < WallMinuteOf(sport, minute + 1)
  {
    if sport == Hockey {
      var p, p' := Min(2, minute / 20), Min(2, (minute + 1) / 20);
      var a := (minute - p * 20) * 36;
      assert p' == p || (p' == p + 1 && minute - p * 20 == 19);
      if p' == p {
        assert (minute + 1 - p * 20) * 36 == a + 36;
      }
    }
  }

  /** Later game minutes are read from strictly later candles. */
  lemma {:induction false} WallClockGrows(sport: Sport, minute: nat, later: nat)
    requires minute < later
    ensures WallMinuteOf(sport, minute) < WallMinuteOf(sport, later)
    decreases later
  {
    WallClockStep(sport, later - 1);
    if minute < later - 1 {
      WallClockGrows(sport, minute, later - 1);
    }
  }
}
