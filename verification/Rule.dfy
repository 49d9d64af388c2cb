/** The `lead_at_time` rule (app/src/core/engine.ts), the executor's reading of a closed window
    (app/src/core/executor.ts) and the backtest clock (app/src/backtest/clock.ts). */
module Rule {
  import opened Pricing

  datatype Side = Home | Away

  datatype Sport = Soccer | Hockey

  datatype Score = Score(home: int, away: int)

  datatype Phase = Scheduled | InPlay | Halftime | Intermission | Finished | Postponed

  datatype Clock = Clock(minute: Option<int>, period: Option<int>, secondsLeft: Option<int>, regulationOver: bool)

  datatype Pregame = Pregame(homeBp: Option<int>, awayBp: Option<int>)

  datatype GameState = GameState(phase: Phase, home: int, away: int, clock: Clock, blocked: bool, pregame: Pregame)

  /** `leaderSide` is `None` for "any". */
  datatype LeadRule = LeadRule(
    minLead: int, atMinute: int, windowMinutes: int, leaderSide: Option<Side>,
    maxOpponentGoals: Option<int>, underdogOnly: bool)

  datatype NoMatchReason =
    NotLive | Break | RegulationOver | Overtime | NoMinute | Lead | WrongSide | OpponentGoals | Underdog | Window | Blocked

  datatype RuleResult = Match(side: Side, minute: int) | NoMatch(reason: NoMatchReason)

  function RuleMinute(sport: Sport, c: Clock): Option<int> {
    if sport == Hockey && c.period.Some? && c.secondsLeft.Some?
    then Some(((c.period.value - 1) * 1200 + (1200 - c.secondsLeft.value)) / 60)
    else c.minute
  }

  function Leader(s: GameState): Side { if s.home > s.away then Home else Away }

  function Abs(v: int): int { if v < 0 then -v else v }

  /** The leader's kick-off ask is known and strictly below the opponent's known ask. */
  predicate IsUnderdog(p: Pregame, side: Side) {
    p.homeBp.Some? && p.awayBp.Some?
    && if side == Home then p.homeBp.value < p.awayBp.value else p.awayBp.value < p.homeBp.value
  }

  function EvaluateLeadAtTime(rule: LeadRule, sport: Sport, s: GameState): RuleResult {
    if s.phase == Halftime || s.phase == Intermission then NoMatch(Break)
    else if s.phase != InPlay then NoMatch(NotLive)
    else if s.clock.regulationOver then NoMatch(RegulationOver)
    else if sport == Hockey && s.clock.period.Some? && s.clock.period.value >= 4 then NoMatch(Overtime)
    else
      var minute := RuleMinute(sport, s.clock);
      if minute.None? then NoMatch(NoMinute)
      else if Abs(s.home - s.away) < rule.minLead then NoMatch(Lead)
      else
        var side := Leader(s);
        var conceded := if side == Home then s.away else s.home;
        if rule.leaderSide.Some? && rule.leaderSide.value != side then NoMatch(WrongSide)
        else if rule.maxOpponentGoals.Some? && conceded > rule.maxOpponentGoals.value then NoMatch(OpponentGoals)
        else if rule.underdogOnly && !IsUnderdog(s.pregame, side) then NoMatch(Underdog)
        else if !(rule.atMinute <= minute.value <= rule.atMinute + rule.windowMinutes) then NoMatch(Window)
        else if s.blocked then NoMatch(Blocked)
        else Match(side, minute.value)
  }

  /** The entry window is over for good, not just unmatched on this tick. */
  predicate WindowClosed(result: RuleResult, rule: LeadRule, s: GameState, sport: Sport) {
    && result.NoMatch?
    && match result.reason
       case RegulationOver => true
       case Overtime => true
       case NotLive => s.phase == Finished || s.phase == Postponed
       case Window =>
         var minute := RuleMinute(sport, s.clock);
         minute.Some? && minute.value > rule.atMinute + rule.windowMinutes
       case _ => false
  }

  function Goals(s: GameState, side: Side): int { if side == Home then s.home else s.away }

  function Opponent(side: Side): Side { if side == Home then Away else Home }

  /** The clock shows the minute: hockey counts whole elapsed minutes from the period and the seconds left in it, when
      both are known. */
  ghost predicate Shows(sport: Sport, c: Clock, minute: int) {
    if sport == Hockey && c.period.Some? && c.secondsLeft.Some?
    then 60 * minute <= 1200 * c.period.value - c.secondsLeft.value < 60 * minute + 60
    else c.minute == Some(minute)
  }

  lemma RuleMinuteShows(sport: Sport, c: Clock, minute: int)
    ensures RuleMinute(sport, c) == Some(minute) <==> Shows(sport, c, minute)
  {
  }

  /** Regular play: not over, not in overtime. */
  ghost predicate RegularPlay(sport: Sport, s: GameState) {
    && s.phase == InPlay && !s.clock.regulationOver
    && (sport == Hockey && s.clock.period.Some? ==> s.clock.period.value <= 3)
  }

  /** The side strictly leads by enough, and the limits on the leader hold. */
  ghost predicate LeadsAs(rule: LeadRule, s: GameState, side: Side) {
    && Goals(s, side) - Goals(s, Opponent(side)) >= rule.minLead
    && (rule.leaderSide.Some? ==> rule.leaderSide.value == side)
    && (rule.maxOpponentGoals.Some? ==> Goals(s, Opponent(side)) <= rule.maxOpponentGoals.value)
    && (rule.underdogOnly ==>
          && s.pregame.homeBp.Some? && s.pregame.awayBp.Some?
          && (side == Home ==> s.pregame.homeBp.value < s.pregame.awayBp.value)
          && (side == Away ==> s.pregame.awayBp.value < s.pregame.homeBp.value))
  }

  /** What a match promises. */
  ghost predicate MatchesAs(rule: LeadRule, sport: Sport, s: GameState, side: Side, minute: int) {
    && RegularPlay(sport, s) && !s.blocked && LeadsAs(rule, s, side)
    && Shows(sport, s.clock, minute) && rule.atMinute <= minute <= rule.atMinute + rule.windowMinutes
  }

  /** The rule matches for a side and a minute exactly when all of its conditions hold for them. */
  lemma MatchMeaning(rule: LeadRule, sport: Sport, s: GameState, side: Side, minute: int)
    requires rule.minLead > 0
    ensures EvaluateLeadAtTime(rule, sport, s) == Match(side, minute) <==> MatchesAs(rule, sport, s, side, minute)
  {
    RuleMinuteShows(sport, s.clock, minute);
    if MatchesAs(rule, sport, s, side, minute) {
      assert Leader(s) == side;
    }
  }

  /** The window is closed for good exactly when the game is finished or postponed, regulation is over, overtime is
      played, or a leader that the rule would take leads at a minute past the window. A trade whose lead is gone is
      left waiting past the window. */
  lemma ClosedExactly(rule: LeadRule, sport: Sport, s: GameState)
    requires rule.minLead > 0
    ensures WindowClosed(EvaluateLeadAtTime(rule, sport, s), rule, s, sport)
            <==> || s.phase == Finished || s.phase == Postponed
                 || (s.phase == InPlay && !RegularPlay(sport, s))
                 || (RegularPlay(sport, s)
                     && exists side, minute :: LeadsAs(rule, s, side) && Shows(sport, s.clock, minute) && minute > rule.atMinute + rule.windowMinutes)
  {
    var m := RuleMinute(sport, s.clock);
    if m.Some? { RuleMinuteShows(sport, s.clock, m.value); }
    if RegularPlay(sport, s) && WindowClosed(EvaluateLeadAtTime(rule, sport, s), rule, s, sport) {
      assert LeadsAs(rule, s, Leader(s)) && Shows(sport, s.clock, m.value);
    }
    if side, minute :| LeadsAs(rule, s, side) && Shows(sport, s.clock, minute) && minute > rule.atMinute + rule.windowMinutes {
      RuleMinuteShows(sport, s.clock, minute);
      assert Leader(s) == side;
    }
  }

  /** A window that is closed by the minute stays closed at every later one. */
  lemma ClosedForGood(rule: LeadRule, sport: Sport, s: GameState, later: GameState)
    requires EvaluateLeadAtTime(rule, sport, s) == NoMatch(Window) && WindowClosed(NoMatch(Window), rule, s, sport)
    requires RuleMinute(sport, later.clock).Some? ==> RuleMinute(sport, later.clock).value >= RuleMinute(sport, s.clock).value
    ensures EvaluateLeadAtTime(rule, sport, later).NoMatch?
  {
  }

  datatype Execution = Execution(maxPriceBp: int, minPriceBp: Option<int>, maxSlippageBp: int, minDepthContracts: int, maxFeedAgeSec: int)

  datatype Sizing = Sizing(percentCenti: int, minStake: int, maxStake: int)

  /** The versioned part of a strategy, prices and amounts already in integer units. */
  datatype Version = Version(rule: LeadRule, exec: Execution, sizing: Sizing)
}
