/** Goal timelines rebuilt from observed scores: `goalEventsFromSnapshots` (app/src/core/tracker.ts) and the
    play-by-play reader (app/src/backtest/kalshiPbp.ts). */
module Timeline {
  import opened Pricing
  import opened Rule

  datatype Mark = Mark(period: int, minute: int, second: int)

  datatype Event = Event(side: Side, at: Mark)

  /** One snapshot; a snapshot without both scores is passed over. */
  datatype Obs = Obs(score: Option<Score>, at: Mark)

  function For(s: Score, side: Side): int { if side == Home then s.home else s.away }

  // ---- the specification of the loops -------------------------------------------------------------------

  /** The position of the side's last event, or -1. */
  function LastOf(events: seq<Event>, side: Side): int
    ensures -1 <= LastOf(events, side) < |events|
  {
    if events == [] then -1
    else if events[|events| - 1].side == side then |events| - 1
    else LastOf(events[..|events| - 1], side)
  }

  function DropLast(events: seq<Event>, side: Side): seq<Event> {
    var last := LastOf(events, side);
    if last == -1 then events else events[..last] + events[last + 1..]
  }

  function Drop(events: seq<Event>, side: Side, k: int): seq<Event>
    decreases k
  {
    if k <= 0 then events else DropLast(Drop(events, side, k - 1), side)
  }

  function Push(events: seq<Event>, e: Event, k: int): seq<Event>
    decreases k
  {
    if k <= 0 then events else Push(events, e, k - 1) + [e]
  }

  /** A side's score went from `before` to `now`: a rise adds one event per goal, a fall takes the last ones back. */
  function Moved(events: seq<Event>, side: Side, now: int, before: int, at: Mark): seq<Event> {
    if now >= before then Push(events, Event(side, at), now - before) else Drop(events, side, before - now)
  }

  function BothMoved(events: seq<Event>, now: Score, before: Score, at: Mark): seq<Event> {
    Moved(Moved(events, Home, now.home, before.home, at), Away, now.away, before.away, at)
  }

  function Repeated(e: Event, k: int): seq<Event> { if k <= 0 then [] else Repeated(e, k - 1) + [e] }

  lemma {:induction false} PushAppends(events: seq<Event>, e: Event, k: int)
    ensures Push(events, e, k) == events + Repeated(e, k) && |Repeated(e, k)| == Max(k, 0)
    decreases k
  {
    if k <= 0 {
      assert events + [] == events;
    } else {
      PushAppends(events, e, k - 1);
      assert (events + Repeated(e, k - 1)) + [e] == events + (Repeated(e, k - 1) + [e]);
    }
  }

  /** Where no score falls, the snapshot's goals come after those before it, the home side's first. */
  lemma RisesAppend(obs: seq<Obs>)
    requires obs != [] && obs[|obs| - 1].score.Some?
    requires var now, before := obs[|obs| - 1].score.value, Current(obs[..|obs| - 1]); now.home >= before.home && now.away >= before.away
    ensures var now, before, at := obs[|obs| - 1].score.value, Current(obs[..|obs| - 1]), obs[|obs| - 1].at;
            Events(obs) == Events(obs[..|obs| - 1]) + Repeated(Event(Home, at), now.home - before.home) + Repeated(Event(Away, at), now.away - before.away)
  {
    var now, before, at := obs[|obs| - 1].score.value, Current(obs[..|obs| - 1]), obs[|obs| - 1].at;
    var earlier := Events(obs[..|obs| - 1]);
    PushAppends(earlier, Event(Home, at), now.home - before.home);
    PushAppends(earlier + Repeated(Event(Home, at), now.home - before.home), Event(Away, at), now.away - before.away);
  }

  /** The score of the last snapshot that has one; 0-0 before any. */
  function Current(obs: seq<Obs>): Score {
    if obs == [] then Score(0, 0)
    else if obs[|obs| - 1].score.Some? then obs[|obs| - 1].score.value
    else Current(obs[..|obs| - 1])
  }

  function Events(obs: seq<Obs>): seq<Event> {
    if obs == [] then []
    else
      var n := |obs| - 1;
      var events := Events(obs[..n]);
      if obs[n].score.None? then events else BothMoved(events, obs[n].score.value, Current(obs[..n]), obs[n].at)
  }

  // ---- the loops ----------------------------------------------------------------------------------------

  method MoveSide(events: seq<Event>, side: Side, now: int, before: int, at: Mark) returns (moved: seq<Event>)
    ensures moved == Moved(events, side, now, before, at)
  {
    moved := events;
    var i := before;
    while i < now
      invariant before <= i && (i <= now || i == before) && moved == Push(events, Event(side, at), i - before)
    {
      moved := moved + [Event(side, at)];
      i := i + 1;
    }
    var pushed := moved;
    assert pushed == Push(events, Event(side, at), now - before);
    i := now;
    while i < before
      invariant now <= i && (i <= before || i == now) && moved == Drop(pushed, side, i - now)
    {
      var last := LastOf(moved, side);
      if last != -1 {
        moved := moved[..last] + moved[last + 1..];
      }
      i := i + 1;
    }
    assert moved == Drop(pushed, side, before - now);
  }

  method GoalEvents(obs: seq<Obs>) returns (events: seq<Event>)
    ensures events == Events(obs)
  {
    events := [];
    var home, away := 0, 0;
    var n := 0;
    while n < |obs|
      invariant 0 <= n <= |obs|
      invariant events == Events(obs[..n]) && Score(home, away) == Current(obs[..n])
    {
      var s := obs[n];
      assert obs[..n + 1][..n] == obs[..n] && obs[..n + 1][n] == s;
      if s.score.Some? {
        events := MoveSide(events, Home, s.score.value.home, home, s.at);
        events := MoveSide(events, Away, s.score.value.away, away, s.at);
        home, away := s.score.value.home, s.score.value.away;
      }
      n := n + 1;
    }
    assert obs[..n] == obs;
  }

  // ---- what the timeline means --------------------------------------------------------------------------

  /** The clocks of one side's events, in order. */
  function Of(events: seq<Event>, side: Side): seq<Mark> {
    if events == [] then []
    else
      var n := |events| - 1;
      Of(events[..n], side) + if events[n].side == side then [events[n].at] else []
  }

  lemma {:induction false} OfConcat(a: seq<Event>, b: seq<Event>, side: Side)
    ensures Of(a + b, side) == Of(a, side) + Of(b, side)
    decreases |b|
  {
    if b == [] {
      assert a + b == a;
    } else {
      var n := |b| - 1;
      assert (a + b)[..|a + b| - 1] == a + b[..n];
      OfConcat(a, b[..n], side);
    }
  }

  function Copies(at: Mark, k: int): seq<Mark> { if k <= 0 then [] else Copies(at, k - 1) + [at] }

  lemma {:induction false} CopiesAre(at: Mark, k: int)
    ensures |Copies(at, k)| == Max(k, 0) && forall i :: 0 <= i < |Copies(at, k)| ==> Copies(at, k)[i] == at
  {
    if k > 0 {
      CopiesAre(at, k - 1);
    }
  }

  function One(e: Event, side: Side): seq<Mark> { if e.side == side then [e.at] else [] }

  lemma OfAppend(events: seq<Event>, e: Event, side: Side)
    ensures Of(events + [e], side) == Of(events, side) + One(e, side)
  {
    assert (events + [e])[..|events|] == events;
  }

  lemma Associate(a: seq<Mark>, b: seq<Mark>, c: seq<Mark>)
    ensures (a + b) + c == a + (b + c)
  {
  }

  lemma {:induction false} PushOwn(events: seq<Event>, e: Event, k: int)
    ensures Of(Push(events, e, k), e.side) == Of(events, e.side) + Copies(e.at, k)
    decreases k
  {
    if k <= 0 {
      NothingAdded(Of(events, e.side));
    } else {
      PushOwn(events, e, k - 1);
      OfAppend(Push(events, e, k - 1), e, e.side);
      Associate(Of(events, e.side), Copies(e.at, k - 1), [e.at]);
    }
  }

  lemma {:induction false} PushOther(events: seq<Event>, e: Event, k: int, side: Side)
    requires side != e.side
    ensures Of(Push(events, e, k), side) == Of(events, side)
    decreases k
  {
    if k > 0 {
      PushOther(events, e, k - 1, side);
      OfAppend(Push(events, e, k - 1), e, side);
      NothingAdded(Of(events, side));
    }
  }

  lemma NothingAdded(s: seq<Mark>)
    ensures s + [] == s
  {
  }

  lemma {:induction false} LastOfFound(events: seq<Event>, side: Side)
    ensures LastOf(events, side) == -1 ==> Of(events, side) == []
    ensures LastOf(events, side) >= 0 ==> events[LastOf(events, side)].side == side
  {
    if events != [] && events[|events| - 1].side != side {
      LastOfFound(events[..|events| - 1], side);
    }
  }

  lemma Tail(events: seq<Event>, k: nat)
    requires k < |events|
    ensures events[k..] == events[..|events| - 1][k..] + [events[|events| - 1]]
  {
  }

  lemma TailOf(events: seq<Event>, k: nat, side: Side)
    requires k < |events|
    ensures Of(events[k..], side) == Of(events[..|events| - 1][k..], side) + One(events[|events| - 1], side)
  {
    Tail(events, k);
    OfAppend(events[..|events| - 1][k..], events[|events| - 1], side);
  }

  lemma {:induction false} NoneAfterLast(events: seq<Event>, side: Side)
    requires LastOf(events, side) >= 0
    ensures Of(events[LastOf(events, side) + 1..], side) == []
  {
    if events[|events| - 1].side != side {
      NoneAfterLast(events[..|events| - 1], side);
      TailOf(events, LastOf(events, side) + 1, side);
    }
  }

  function Front(s: seq<Mark>): seq<Mark> { if s == [] then [] else s[..|s| - 1] }

  lemma FrontOfAppend(s: seq<Mark>, at: Mark)
    ensures Front(s + [at]) == s
  {
  }

  lemma SplitAt(events: seq<Event>, i: nat, side: Side)
    requires i < |events|
    ensures Of(events, side) == Of(events[..i], side) + One(events[i], side) + Of(events[i + 1..], side)
  {
    assert events == (events[..i] + [events[i]]) + events[i + 1..];
    OfConcat(events[..i] + [events[i]], events[i + 1..], side);
    OfAppend(events[..i], events[i], side);
  }

  /** Taking an event back removes the side's last clock and nothing else. */
  lemma DropLastOf(events: seq<Event>, dropped: Side, side: Side)
    ensures Of(DropLast(events, dropped), side) == if side == dropped then Front(Of(events, side)) else Of(events, side)
  {
    var last := LastOf(events, dropped);
    LastOfFound(events, dropped);
    if last >= 0 {
      NoneAfterLast(events, dropped);
      var before := Of(events[..last], side);
      SplitAt(events, last, side);
      OfConcat(events[..last], events[last + 1..], side);
      if side == dropped {
        FrontOfAppend(before, events[last].at);
        assert before + [] == before;
        assert before + [events[last].at] + [] == before + [events[last].at];
      } else {
        assert before + [] == before;
      }
    }
  }

  function Keep(s: seq<Mark>, n: int): seq<Mark> { if n <= 0 then [] else if n >= |s| then s else s[..n] }

  lemma KeepAll(s: seq<Mark>)
    ensures Keep(s, |s|) == s
  {
  }

  lemma KeepFront(s: seq<Mark>, k: int)
    requires k > 0
    ensures Front(Keep(s, |s| - (k - 1))) == Keep(s, |s| - k)
  {
  }

  lemma {:induction false} DropOther(events: seq<Event>, dropped: Side, k: int, side: Side)
    requires side != dropped
    ensures Of(Drop(events, dropped, k), side) == Of(events, side)
    decreases k
  {
    if k > 0 {
      DropOther(events, dropped, k - 1, side);
      DropLastOf(Drop(events, dropped, k - 1), dropped, side);
    }
  }

  lemma {:induction false} DropOwn(events: seq<Event>, side: Side, k: int)
    requires k >= 0
    ensures Of(Drop(events, side, k), side) == Keep(Of(events, side), |Of(events, side)| - k)
    decreases k
  {
    if k == 0 {
      KeepAll(Of(events, side));
    } else {
      DropOwn(events, side, k - 1);
      DropLastOf(Drop(events, side, k - 1), side, side);
      KeepFront(Of(events, side), k);
    }
  }

  /** The timeline of one side alone: a stack of clocks, as high as the score. */
  function Stack(obs: seq<Obs>, side: Side): seq<Mark> {
    if obs == [] then []
    else
      var n := |obs| - 1;
      var below := Stack(obs[..n], side);
      if obs[n].score.None? then below else Restacked(below, For(obs[n].score.value, side), obs[n].at)
  }

  predicate NonNegative(obs: seq<Obs>) {
    forall i :: 0 <= i < |obs| && obs[i].score.Some? ==> obs[i].score.value.home >= 0 && obs[i].score.value.away >= 0
  }

  lemma MovedOther(events: seq<Event>, moved: Side, now: int, before: int, at: Mark, side: Side)
    requires side != moved
    ensures Of(Moved(events, moved, now, before, at), side) == Of(events, side)
  {
    if now >= before {
      PushOther(events, Event(moved, at), now - before, side);
    } else {
      DropOther(events, moved, before - now, side);
    }
  }

  lemma RiseOwn(events: seq<Event>, side: Side, now: int, before: int, at: Mark)
    requires now >= before == |Of(events, side)|
    ensures Of(Moved(events, side, now, before, at), side) == Restacked(Of(events, side), now, at)
  {
    PushOwn(events, Event(side, at), now - before);
  }

  lemma FallOwn(events: seq<Event>, side: Side, now: int, before: int, at: Mark)
    requires 0 <= now < before == |Of(events, side)|
    ensures Of(Moved(events, side, now, before, at), side) == Restacked(Of(events, side), now, at)
  {
    DropOwn(events, side, before - now);
  }

  lemma MovedOwn(events: seq<Event>, side: Side, now: int, before: int, at: Mark)
    requires now >= 0 && before == |Of(events, side)|
    ensures Of(Moved(events, side, now, before, at), side) == Restacked(Of(events, side), now, at)
  {
    if now >= before { RiseOwn(events, side, now, before, at); } else { FallOwn(events, side, now, before, at); }
  }

  predicate AsStack(obs: seq<Obs>, side: Side) {
    Of(Events(obs), side) == Stack(obs, side) && |Stack(obs, side)| == For(Current(obs), side)
  }

  /** The new stack of a side, from its old one. */
  function Restacked(s: seq<Mark>, now: int, at: Mark): seq<Mark> {
    if now >= |s| then s + Copies(at, now - |s|) else Keep(s, now)
  }

  lemma RestackedHeight(s: seq<Mark>, now: int, at: Mark)
    requires now >= 0
    ensures |Restacked(s, now, at)| == now
  {
    CopiesAre(at, now - |s|);
  }

  lemma BothMovedOf(events: seq<Event>, now: Score, before: Score, at: Mark, side: Side)
    requires now.home >= 0 && now.away >= 0 && before.home == |Of(events, Home)| && before.away == |Of(events, Away)|
    ensures Of(BothMoved(events, now, before, at), side) == Restacked(Of(events, side), For(now, side), at)
  {
    var moved := Moved(events, Home, now.home, before.home, at);
    MovedOther(events, Home, now.home, before.home, at, Away);
    if side == Home {
      MovedOwn(events, Home, now.home, before.home, at);
      MovedOther(moved, Away, now.away, before.away, at, Home);
    } else {
      MovedOwn(moved, Away, now.away, before.away, at);
    }
  }

  /** After every snapshot the kept events of a side are its stack, and there are as many as its score. */
  lemma {:induction false} EventsAreStack(obs: seq<Obs>, side: Side)
    requires NonNegative(obs)
    ensures AsStack(obs, side)
    decreases |obs|
  {
    if obs != [] {
      var n := |obs| - 1;
      EventsAreStack(obs[..n], Home);
      EventsAreStack(obs[..n], Away);
      if obs[n].score.Some? {
        BothMovedOf(Events(obs[..n]), obs[n].score.value, Current(obs[..n]), obs[n].at, side);
        RestackedHeight(Stack(obs[..n], side), For(obs[n].score.value, side), obs[n].at);
      }
    }
  }

  /** The side's score rose from below `k` to at least `k` at snapshot `j`. */
  predicate Rises(obs: seq<Obs>, side: Side, k: int, j: nat)
    requires j < |obs|
  {
    obs[j].score.Some? && For(Current(obs[..j]), side) < k <= For(obs[j].score.value, side)
  }

  /** `j` is the last snapshot at which the score rose to `k`. */
  predicate LastRise(obs: seq<Obs>, side: Side, k: int, j: nat) {
    j < |obs| && Rises(obs, side, k, j) && forall i :: j < i < |obs| ==> !Rises(obs, side, k, i)
  }

  lemma LastRiseStays(obs: seq<Obs>, side: Side, k: int, j: nat)
    requires obs != [] && LastRise(obs[..|obs| - 1], side, k, j) && !Rises(obs, side, k, |obs| - 1)
    ensures LastRise(obs, side, k, j)
  {
    var n := |obs| - 1;
    forall i | j <= i < n
      ensures Rises(obs, side, k, i) <==> Rises(obs[..n], side, k, i)
    {
      assert obs[..n][..i] == obs[..i];
    }
  }

  /** An event that the last snapshot has pushed. */
  lemma NewRise(obs: seq<Obs>, side: Side, k: nat)
    requires NonNegative(obs) && obs != [] && |Stack(obs[..|obs| - 1], side)| <= k < |Stack(obs, side)|
    ensures LastRise(obs, side, k + 1, |obs| - 1) && Stack(obs, side)[k] == obs[|obs| - 1].at
  {
    var n := |obs| - 1;
    var below := Stack(obs[..n], side);
    EventsAreStack(obs[..n], side);
    EventsAreStack(obs, side);
    CopiesAre(obs[n].at, For(obs[n].score.value, side) - |below|);
  }

  /** An event that was there before, and stays. */
  lemma OldRise(obs: seq<Obs>, side: Side, k: nat)
    requires NonNegative(obs) && obs != [] && k < |Stack(obs, side)| && k < |Stack(obs[..|obs| - 1], side)|
    ensures Stack(obs, side)[k] == Stack(obs[..|obs| - 1], side)[k] && !Rises(obs, side, k + 1, |obs| - 1)
  {
    EventsAreStack(obs[..|obs| - 1], side);
  }

  /** The k-th kept event of a side carries the clock of the last snapshot at which its score rose to `k`. */
  lemma {:induction false} StackIsLastRise(obs: seq<Obs>, side: Side, k: nat) returns (j: nat)
    requires NonNegative(obs) && k < |Stack(obs, side)|
    ensures LastRise(obs, side, k + 1, j) && Stack(obs, side)[k] == obs[j].at
  {
    var n := |obs| - 1;
    if k < |Stack(obs[..n], side)| {
      OldRise(obs, side, k);
      j := StackIsLastRise(obs[..n], side, k);
      LastRiseStays(obs, side, k + 1, j);
    } else {
      NewRise(obs, side, k);
      j := n;
    }
  }

  ghost predicate FromLastRise(obs: seq<Obs>, side: Side, k: int, at: Mark) {
    exists j: nat :: LastRise(obs, side, k, j) && at == obs[j].at
  }

  /** The timeline: as many events as goals stand, each at the clock of the last rise to its number. */
  lemma TimelineMeaning(obs: seq<Obs>, side: Side)
    requires NonNegative(obs)
    ensures var kept := Of(Events(obs), side);
            && |kept| == For(Current(obs), side)
            && forall k :: 0 <= k < |kept| ==> FromLastRise(obs, side, k + 1, kept[k])
  {
    EventsAreStack(obs, side);
    forall k | 0 <= k < |Stack(obs, side)|
      ensures FromLastRise(obs, side, k + 1, Stack(obs, side)[k])
    {
      var j := StackIsLastRise(obs, side, k);
    }
  }

  // ---- play-by-play -------------------------------------------------------------------------------------

  /** One play with a clock and a score, in time order. */
  datatype Play = Play(score: Score, at: Mark, shootout: bool)

  datatype Reading = Usable(goals: seq<Event>, final: Score) | Unusable

  /** Shootout plays are passed over. */
  function AsObs(plays: seq<Play>): seq<Obs> {
    seq(|plays|, i requires 0 <= i < |plays| => Obs(if plays[i].shootout then None else Some(plays[i].score), plays[i].at))
  }

  predicate ShootoutSeen(plays: seq<Play>) { exists i :: 0 <= i < |plays| && plays[i].shootout }

  /** The events add up to the final score, up to the one goal a shootout decides. */
  predicate AddsUp(counted: Score, final: Score, shootout: bool) {
    || counted == final
    || (shootout && counted.home <= final.home && counted.away <= final.away
        && final.home - counted.home + final.away - counted.away == 1)
  }

  function CountOf(goals: seq<Event>, side: Side): nat { |Of(goals, side)| }

  function ReadPlays(plays: seq<Play>): Reading {
    if plays == [] then Unusable
    else
      var goals := Events(AsObs(plays));
      var final := plays[|plays| - 1].score;
      if AddsUp(Score(CountOf(goals, Home), CountOf(goals, Away)), final, ShootoutSeen(plays)) then Usable(goals, final) else Unusable
  }

  /** The loop's variables: goals so far and the score they stand at. */
  datatype Standing = Standing(goals: seq<Event>, score: Score, shootout: bool)

  function StandingAfter(plays: seq<Play>): Standing {
    Standing(Events(AsObs(plays)), Current(AsObs(plays)), ShootoutSeen(plays))
  }

  function Played(v: Standing, e: Play): Standing {
    if e.shootout then v.(shootout := true) else Standing(BothMoved(v.goals, e.score, v.score, e.at), e.score, v.shootout)
  }

  lemma NextPlay(plays: seq<Play>, n: nat)
    requires n < |plays|
    ensures StandingAfter(plays[..n + 1]) == Played(StandingAfter(plays[..n]), plays[n])
  {
    var obs := AsObs(plays[..n + 1]);
    assert obs[..n] == AsObs(plays[..n]);
    assert plays[..n + 1][n] == plays[n];
    assert forall i :: 0 <= i < n ==> plays[..n + 1][i] == plays[..n][i];
  }

  /** The goals of the plays outside a shootout. */
  method PlayedGoals(plays: seq<Play>) returns (goals: seq<Event>, shootoutSeen: bool)
    ensures goals == Events(AsObs(plays)) && (shootoutSeen <==> ShootoutSeen(plays))
  {
    goals, shootoutSeen := [], false;
    var score := Score(0, 0);
    var n := 0;
    while n < |plays|
      invariant 0 <= n <= |plays|
      invariant Standing(goals, score, shootoutSeen) == StandingAfter(plays[..n])
    {
      var e := plays[n];
      NextPlay(plays, n);
      if e.shootout {
        shootoutSeen := true;
      } else {
        goals := MoveSide(goals, Home, e.score.home, score.home, e.at);
        goals := MoveSide(goals, Away, e.score.away, score.away, e.at);
        score := e.score;
      }
      n := n + 1;
    }
    assert plays[..n] == plays;
  }

  method TimelineFromPlays(plays: seq<Play>) returns (r: Reading)
    ensures r == ReadPlays(plays)
  {
    if |plays| == 0 {
      return Unusable;
    }
    var goals, shootoutSeen := PlayedGoals(plays);
    var final := plays[|plays| - 1].score;
    var h := CountOf(goals, Home);
    var a := |goals| - h;
    BothSides(goals);
    var dh, da := final.home - h, final.away - a;
    if (dh == 0 && da == 0) || (shootoutSeen && dh >= 0 && da >= 0 && dh + da == 1) {
      return Usable(goals, final);
    }
    return Unusable;
  }

  lemma {:induction false} BothSides(goals: seq<Event>)
    ensures CountOf(goals, Home) + CountOf(goals, Away) == |goals|
  {
    if goals != [] {
      BothSides(goals[..|goals| - 1]);
    }
  }

  predicate ScoresOk(plays: seq<Play>) {
    forall i :: 0 <= i < |plays| ==> plays[i].score.home >= 0 && plays[i].score.away >= 0
  }

  /** The last play that is not one of a shootout. */
  predicate LastPlayed(plays: seq<Play>, i: nat) {
    i < |plays| && !plays[i].shootout && forall j :: i < j < |plays| ==> plays[j].shootout
  }

  /** The score before any shootout play. */
  ghost predicate StandsAt(plays: seq<Play>, score: Score) {
    if forall i :: 0 <= i < |plays| ==> plays[i].shootout then score == Score(0, 0)
    else exists i: nat :: LastPlayed(plays, i) && plays[i].score == score
  }

  lemma ObsBefore(plays: seq<Play>)
    requires plays != []
    ensures AsObs(plays)[..|plays| - 1] == AsObs(plays[..|plays| - 1])
  {
  }

  /** There is always one, and the loop stands at it. */
  lemma {:induction false} CurrentStands(plays: seq<Play>)
    ensures StandsAt(plays, Current(AsObs(plays)))
    ensures forall score :: StandsAt(plays, score) ==> score == Current(AsObs(plays))
  {
    if plays != [] {
      var n := |plays| - 1;
      ObsBefore(plays);
      CurrentStands(plays[..n]);
      if !plays[n].shootout {
        assert LastPlayed(plays, n);
      } else {
        forall i: nat
          ensures LastPlayed(plays, i) <==> LastPlayed(plays[..n], i)
        {
        }
      }
    }
  }

  /** What the consistency check decides: a play-by-play is usable exactly when its last score is the score before
      any shootout play, or one goal more after a shootout. So without a shootout it is never rejected, and its
      events are the goals of the final score. */
  lemma ConsistencyMeaning(plays: seq<Play>)
    requires plays != [] && ScoresOk(plays)
    ensures var final := plays[|plays| - 1].score;
            forall played :: StandsAt(plays, played) ==>
              && (ReadPlays(plays).Usable?
                  <==> played == final
                       || ((exists i :: 0 <= i < |plays| && plays[i].shootout)
                           && final in {Score(played.home + 1, played.away), Score(played.home, played.away + 1)}))
              && (ReadPlays(plays).Usable? ==>
                    && ReadPlays(plays).final == final
                    && CountOf(ReadPlays(plays).goals, Home) == played.home && CountOf(ReadPlays(plays).goals, Away) == played.away)
              && (!ShootoutSeen(plays) ==>
                    && ReadPlays(plays).Usable?
                    && CountOf(ReadPlays(plays).goals, Home) == final.home && CountOf(ReadPlays(plays).goals, Away) == final.away)
  {
    var obs := AsObs(plays);
    EventsAreStack(obs, Home);
    EventsAreStack(obs, Away);
    CurrentStands(plays);
    if !ShootoutSeen(plays) {
      assert !plays[|plays| - 1].shootout;
      assert obs[|obs| - 1].score == Some(plays[|plays| - 1].score);
    }
  }
}
