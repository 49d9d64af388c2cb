/** The merge of several score feeds into one game state (app/src/core/tracker.ts): disagreement timer, block and
    finish. */
module FeedMerge {
  import opened Pricing
  import opened Rule

  datatype Feed = KalshiLive | NhlOfficial | ApiFootball

  /** A feed's last observation of a game. */
  datatype FeedState = FeedState(feed: Feed, phase: Phase, score: Score, clock: Clock, at: int)

  /** The `games` row; `archives` are the final scores written to `hist_games`, one entry per write. */
  datatype Row = Row(sport: Sport, phase: Phase, score: Score, blocked: bool, final: Option<Score>, finishedAt: Option<int>, archived: bool, archives: seq<Score>)

  /** What is emitted for an observation. */
  datatype Tracked = Tracked(phase: Phase, score: Score, clock: Clock, blocked: bool, at: int)

  /** A game: its row, and what the process remembers of it. Feeds are in order of first observation. */
  datatype Game = Game(row: Row, feeds: seq<FeedState>, since: Option<int>, agreed: Option<Score>)

  const DISAGREEMENT_MS := 20_000
  const FRESH_MS := 60_000

  function NewGame(sport: Sport): Game {
    Game(Row(sport, Scheduled, Score(0, 0), false, None, None, false, []), [], None, None)
  }

  // ---- one observation ----------------------------------------------------------------------------------

  /** `Map.set`: a known feed keeps its place. */
  function Remember(feeds: seq<FeedState>, o: FeedState): seq<FeedState> {
    if feeds == [] then [o]
    else if feeds[0].feed == o.feed then [o] + feeds[1..]
    else [feeds[0]] + Remember(feeds[1..], o)
  }

  function Recent(feeds: seq<FeedState>, at: int): seq<FeedState> {
    if feeds == [] then []
    else (if at - feeds[0].at <= FRESH_MS then [feeds[0]] else []) + Recent(feeds[1..], at)
  }

  function OfFeed(feeds: seq<FeedState>, feed: Feed): Option<FeedState> {
    if feeds == [] then None else if feeds[0].feed == feed then Some(feeds[0]) else OfFeed(feeds[1..], feed)
  }

  function WithMinute(feeds: seq<FeedState>): Option<FeedState> {
    if feeds == [] then None
    else if feeds[0].feed == ApiFootball && feeds[0].clock.minute.Some? then Some(feeds[0])
    else WithMinute(feeds[1..])
  }

  function FirstFinished(feeds: seq<FeedState>): Option<FeedState> {
    if feeds == [] then None else if feeds[0].phase == Finished then Some(feeds[0]) else FirstFinished(feeds[1..])
  }

  function Or(o: Option<FeedState>, otherwise: FeedState): FeedState { if o.Some? then o.value else otherwise }

  /** `kalshi-live` when its last observation is recent, else the first recent feed. */
  function Primary(recent: seq<FeedState>): FeedState
    requires recent != []
  {
    Or(OfFeed(recent, KalshiLive), recent[0])
  }

  /** The feed whose phase and clock the merged state shows. */
  function Base(sport: Sport, recent: seq<FeedState>): FeedState
    requires recent != []
  {
    Or(FirstFinished(recent), Or(if sport == Hockey then OfFeed(recent, NhlOfficial) else WithMinute(recent), Primary(recent)))
  }

  predicate AllScore(recent: seq<FeedState>, score: Score) {
    forall i :: 0 <= i < |recent| ==> recent[i].score == score
  }

  function Since(g: Game, at: int): int { if g.since.Some? then g.since.value else at }

  /** The merge: block, score, and the timer and the agreed score it leaves. */
  datatype Verdict = Verdict(blocked: bool, score: Score, since: Option<int>, agreed: Option<Score>)

  function MergeOf(g: Game, recent: seq<FeedState>, at: int): Verdict
    requires recent != []
  {
    var score := Primary(recent).score;
    if |recent| < 2 then Verdict(g.row.blocked, score, g.since, if g.row.blocked then g.agreed else Some(score))
    else if AllScore(recent, score) then Verdict(false, score, None, Some(score))
    else
      Verdict(g.row.blocked || at - Since(g, at) > DISAGREEMENT_MS, if g.agreed.Some? then g.agreed.value else score,
            Some(Since(g, at)), g.agreed)
  }

  /** The observed state is always among the recent ones, so there is a primary feed. */
  lemma {:induction false} ObservedIsRecent(feeds: seq<FeedState>, o: FeedState)
    ensures Recent(Remember(feeds, o), o.at) != [] && o in Recent(Remember(feeds, o), o.at)
  {
    var r := Remember(feeds, o);
    if feeds == [] || feeds[0].feed == o.feed {
      assert r[0] == o;
    } else {
      assert r[1..] == Remember(feeds[1..], o);
      ObservedIsRecent(feeds[1..], o);
    }
  }

  function RecentAfter(g: Game, o: FeedState): (recent: seq<FeedState>)
    ensures recent != []
  {
    ObservedIsRecent(g.feeds, o);
    Recent(Remember(g.feeds, o), o.at)
  }

  /** The row after an observation. */
  function Shown(row: Row, phase: Phase, blocked: bool, score: Score, at: int): Row {
    var row1 := row.(phase := phase, score := score, blocked := blocked);
    if phase == Finished then row1.(final := Some(score), finishedAt := if row.finishedAt.None? then Some(at) else row.finishedAt)
    else row1
  }

  /** The first commit of an observation: the row. An archived game ignores it. */
  function Committed(g: Game, o: FeedState): Game {
    if g.row.archived then g
    else
      var recent := RecentAfter(g, o);
      var v := MergeOf(g, recent, o.at);
      Game(Shown(g.row, Base(g.row.sport, recent).phase, v.blocked, v.score, o.at), Remember(g.feeds, o), v.since, v.agreed)
  }

  /** The second commit, `archive`: the game is written to `hist_games`, once. */
  function Archived(row: Row): Row {
    if row.archived then row
    else row.(archived := true, archives := row.archives + [if row.final.Some? then row.final.value else row.score])
  }

  /** One observation to its end: both commits if the game is over, otherwise the first. */
  function Observed(g: Game, o: FeedState): Game {
    var c := Committed(g, o);
    if !g.row.archived && c.row.phase == Finished then c.(row := Archived(c.row)) else c
  }

  function Emitted(g: Game, o: FeedState): Option<Tracked> {
    if g.row.archived then None
    else
      var recent := RecentAfter(g, o);
      var m := MergeOf(g, recent, o.at);
      Some(Tracked(Base(g.row.sport, recent).phase, m.score, Base(g.row.sport, recent).clock, m.blocked, o.at))
  }

  /** A restart, or `forget`: the row stays. */
  function Forgotten(g: Game): Game { Game(g.row, [], None, None) }

  // ---- the tracker --------------------------------------------------------------------------------------

  class GameTracker {
    var rows: map<nat, Row>
    var latest: map<nat, seq<FeedState>>
    var disagreeSince: map<nat, int>
    var lastAgreed: map<nat, Score>
    var merged: map<nat, Tracked>

    function View(id: nat): Game
      requires id in rows
      reads this
    {
      Game(rows[id], if id in latest then latest[id] else [],
           if id in disagreeSince then Some(disagreeSince[id]) else None,
           if id in lastAgreed then Some(lastAgreed[id]) else None)
    }

    constructor ()
      ensures rows == map[] && latest == map[] && disagreeSince == map[] && lastAgreed == map[] && merged == map[]
    {
      rows, latest, disagreeSince, lastAgreed, merged := map[], map[], map[], map[], map[];
    }

    method Forget(id: nat)
      modifies this
      ensures rows == old(rows) && merged == old(merged) - {id}
      ensures forall k :: k in rows ==> View(k) == if k == id then Forgotten(old(View(k))) else old(View(k))
    {
      latest, merged, disagreeSince, lastAgreed := latest - {id}, merged - {id}, disagreeSince - {id}, lastAgreed - {id};
    }

    /** The score and the block of a game whose feed map has just been updated. */
    method Merge(id: nat, recent: seq<FeedState>, at: int) returns (blocked: bool, score: Score)
      requires id in rows && recent != []
      modifies this`disagreeSince, this`lastAgreed
      ensures MergeOf(old(View(id)), recent, at) == Verdict(blocked, score, View(id).since, View(id).agreed)
      ensures forall k :: k in rows && k != id ==> View(k) == old(View(k))
    {
      var wasBlocked := rows[id].blocked;
      blocked := wasBlocked;
      score := Primary(recent).score;
      if |recent| >= 2 {
        if AllScore(recent, score) {
          disagreeSince := disagreeSince - {id};
          lastAgreed := lastAgreed[id := score];
          blocked := false;
        } else {
          var since := if id in disagreeSince then disagreeSince[id] else at;
          disagreeSince := disagreeSince[id := since];
          if id in lastAgreed { score := lastAgreed[id]; }
          if at - since > DISAGREEMENT_MS { blocked := true; }
        }
      } else if !wasBlocked {
        lastAgreed := lastAgreed[id := score];
      }
    }

    method Archive(id: nat)
      requires id in rows
      modifies this`rows
      ensures rows == old(rows)[id := Archived(old(rows)[id])]
    {
      var row := rows[id];
      if !row.archived {
        rows := rows[id := row.(archived := true, archives := row.archives + [if row.final.Some? then row.final.value else row.score])];
      }
    }

    /** The row as the observation leaves it. */
    method Show(id: nat, phase: Phase, blocked: bool, score: Score, at: int)
      requires id in rows
      modifies this`rows
      ensures rows == old(rows)[id := Shown(old(rows)[id], phase, blocked, score, at)]
    {
      var row := rows[id].(phase := phase, score := score, blocked := blocked);
      if phase == Finished {
        row := row.(final := Some(score), finishedAt := if row.finishedAt.None? then Some(at) else row.finishedAt);
      }
      rows := rows[id := row];
    }

    /** The feed's new state joins the others and the score is merged. */
    method TakeIn(id: nat, o: FeedState) returns (base: FeedState, blocked: bool, score: Score)
      requires id in rows
      modifies this`latest, this`disagreeSince, this`lastAgreed
      ensures var g := old(View(id));
              var v := MergeOf(g, RecentAfter(g, o), o.at);
              && base == Base(g.row.sport, RecentAfter(g, o)) && blocked == v.blocked && score == v.score
              && View(id) == Game(g.row, Remember(g.feeds, o), v.since, v.agreed)
      ensures forall k :: k in rows && k != id ==> View(k) == old(View(k))
    {
      ghost var g := View(id);
      var feeds := Remember(if id in latest then latest[id] else [], o);
      latest := latest[id := feeds];
      ObservedIsRecent(g.feeds, o);
      var recent := Recent(feeds, o.at);
      base := Base(rows[id].sport, recent);
      blocked, score := Merge(id, recent, o.at);
      assert MergeOf(g.(feeds := feeds), recent, o.at) == MergeOf(g, recent, o.at);
    }

    /** The observation up to its first commit; its state is then emitted. */
    method CommitOne(id: nat, o: FeedState) returns (result: Option<Tracked>)
      modifies this
      ensures rows.Keys == old(rows.Keys)
      ensures result == if id in rows then old(Emitted(View(id), o)) else None
      ensures forall k :: k in rows ==> View(k) == if k == id then Committed(old(View(k)), o) else old(View(k))
      ensures merged == if result.Some? then old(merged)[id := result.value] else old(merged)
    {
      if id !in rows || rows[id].archived {
        return None;
      }
      var base, blocked, score := TakeIn(id, o);
      Show(id, base.phase, blocked, score, o.at);
      var state := Tracked(base.phase, score, base.clock, blocked, o.at);
      merged := merged[id := state];
      return Some(state);
    }

    method IngestOne(id: nat, o: FeedState) returns (result: Option<Tracked>)
      modifies this
      ensures rows.Keys == old(rows.Keys)
      ensures result == if id in rows then old(Emitted(View(id), o)) else None
      ensures forall k :: k in rows ==> View(k) == if k == id then Observed(old(View(k)), o) else old(View(k))
      ensures merged == if result.Some? then old(merged)[id := result.value] else old(merged)
    {
      result := CommitOne(id, o);
      if result.Some? && result.value.phase == Finished {
        Archive(id);
      }
    }
  }

  // ---- over any sequence of observations ----------------------------------------------------------------

  /** An observation, an observation that a restart cuts off after its first commit, a restart or `forget`. */
  datatype Call = Observe(o: FeedState) | CutOff(o: FeedState) | Forget

  predicate Observes(c: Call) { c.Observe? || c.CutOff? }

  function After(g: Game, c: Call): Game {
    match c
    case Observe(o) => Observed(g, o)
    case CutOff(o) => Forgotten(Committed(g, o))
    case Forget => Forgotten(g)
  }

  function Run(sport: Sport, calls: seq<Call>): Game {
    if calls == [] then NewGame(sport) else After(Run(sport, calls[..|calls| - 1]), calls[|calls| - 1])
  }

  /** The `i`-th call is an observation that the merge takes in. */
  predicate Taken(sport: Sport, calls: seq<Call>, i: nat) {
    i < |calls| && Observes(calls[i]) && !Run(sport, calls[..i]).row.archived
  }

  /** The feeds that are fresh at the `i`-th call. */
  function RecentAt(sport: Sport, calls: seq<Call>, i: nat): seq<FeedState>
    requires Taken(sport, calls, i)
  {
    RecentAfter(Run(sport, calls[..i]), calls[i].o)
  }

  predicate Unanimous(sport: Sport, calls: seq<Call>, i: nat, score: Score) {
    Taken(sport, calls, i) && AllScore(RecentAt(sport, calls, i), score)
  }

  /** Two or more fresh feeds report one score. */
  predicate Agreement(sport: Sport, calls: seq<Call>, i: nat) {
    Taken(sport, calls, i) && |RecentAt(sport, calls, i)| >= 2 && AllScore(RecentAt(sport, calls, i), Primary(RecentAt(sport, calls, i)).score)
  }

  predicate Disagreement(sport: Sport, calls: seq<Call>, i: nat) {
    Taken(sport, calls, i) && |RecentAt(sport, calls, i)| >= 2 && !AllScore(RecentAt(sport, calls, i), Primary(RecentAt(sport, calls, i)).score)
  }

  /** The `i`-th call stops the disagreement timer. */
  predicate StopsTimer(sport: Sport, calls: seq<Call>, i: nat) {
    i < |calls| && (!calls[i].Observe? || Agreement(sport, calls, i))
  }

  /** `j` is where the disagreement that stands after the first `n` calls began: the first one since the last
      agreement or restart. */
  predicate Onset(sport: Sport, calls: seq<Call>, j: nat, n: nat) {
    && j < n <= |calls| && Disagreement(sport, calls, j)
    && (forall k :: j <= k < n ==> !StopsTimer(sport, calls, k))
    && (forall k :: 0 <= k < j && Disagreement(sport, calls, k) ==> exists m :: k <= m < j && StopsTimer(sport, calls, m))
  }

  ghost predicate TimerOk(sport: Sport, calls: seq<Call>, n: nat)
    requires n <= |calls|
  {
    match Run(sport, calls[..n]).since
    case Some(t) => exists j: nat :: Onset(sport, calls, j, n) && calls[j].o.at == t
    case None => forall k :: 0 <= k < n && Disagreement(sport, calls, k) ==> exists m :: k <= m < n && StopsTimer(sport, calls, m)
  }

  lemma RunNext(sport: Sport, calls: seq<Call>, n: nat)
    requires n < |calls|
    ensures Run(sport, calls[..n + 1]) == After(Run(sport, calls[..n]), calls[n])
  {
    assert calls[..n + 1][..n] == calls[..n];
  }

  lemma PrimaryIsOne(recent: seq<FeedState>)
    requires recent != []
    ensures Primary(recent) in recent
  {
    OfFeedIsOne(recent, KalshiLive);
  }

  lemma {:induction false} OfFeedIsOne(feeds: seq<FeedState>, feed: Feed)
    ensures OfFeed(feeds, feed).Some? ==> OfFeed(feeds, feed).value in feeds && OfFeed(feeds, feed).value.feed == feed
  {
    if feeds != [] && feeds[0].feed != feed {
      OfFeedIsOne(feeds[1..], feed);
    }
  }

  lemma OnsetGoesOn(sport: Sport, calls: seq<Call>, j: nat, n: nat)
    requires 0 < n <= |calls| && Onset(sport, calls, j, n - 1) && !StopsTimer(sport, calls, n - 1)
    ensures Onset(sport, calls, j, n)
  {
  }

  lemma SinceStays(sport: Sport, calls: seq<Call>, n: nat)
    requires n < |calls| && Run(sport, calls[..n]).since.Some? && !StopsTimer(sport, calls, n)
    ensures Run(sport, calls[..n + 1]).since == Run(sport, calls[..n]).since
  {
    RunNext(sport, calls, n);
  }

  lemma OnsetStays(sport: Sport, calls: seq<Call>, n: nat)
    requires 0 < n <= |calls| && TimerOk(sport, calls, n - 1) && Run(sport, calls[..n - 1]).since.Some?
    requires !StopsTimer(sport, calls, n - 1)
    ensures TimerOk(sport, calls, n)
  {
    SinceStays(sport, calls, n - 1);
    var j: nat :| Onset(sport, calls, j, n - 1) && calls[j].o.at == Run(sport, calls[..n - 1]).since.value;
    OnsetGoesOn(sport, calls, j, n);
  }

  lemma OnsetStarts(sport: Sport, calls: seq<Call>, n: nat)
    requires 0 < n <= |calls| && TimerOk(sport, calls, n - 1) && Run(sport, calls[..n - 1]).since.None?
    requires Disagreement(sport, calls, n - 1) && !StopsTimer(sport, calls, n - 1)
    ensures TimerOk(sport, calls, n)
  {
    RunNext(sport, calls, n - 1);
    assert Onset(sport, calls, n - 1, n);
    assert Run(sport, calls[..n]).since == Some(calls[n - 1].o.at);
  }

  /** The timer always shows the time of the onset of the standing disagreement. */
  lemma {:induction false} TimerHolds(sport: Sport, calls: seq<Call>, n: nat)
    requires n <= |calls|
    ensures TimerOk(sport, calls, n)
  {
    if n > 0 {
      TimerHolds(sport, calls, n - 1);
      if StopsTimer(sport, calls, n - 1) {
        TimerStops(sport, calls, n);
      } else if Run(sport, calls[..n - 1]).since.Some? {
        OnsetStays(sport, calls, n);
      } else if Disagreement(sport, calls, n - 1) {
        OnsetStarts(sport, calls, n);
      } else {
        QuietTimer(sport, calls, n);
      }
    }
  }

  lemma TimerStops(sport: Sport, calls: seq<Call>, n: nat)
    requires 0 < n <= |calls| && StopsTimer(sport, calls, n - 1)
    ensures TimerOk(sport, calls, n)
  {
    RunNext(sport, calls, n - 1);
  }

  lemma QuietTimer(sport: Sport, calls: seq<Call>, n: nat)
    requires 0 < n <= |calls| && TimerOk(sport, calls, n - 1) && Run(sport, calls[..n - 1]).since.None?
    requires !StopsTimer(sport, calls, n - 1) && !Disagreement(sport, calls, n - 1)
    ensures TimerOk(sport, calls, n)
  {
    QuietStep(sport, calls, n - 1);
    forall k | 0 <= k < n && Disagreement(sport, calls, k)
      ensures exists m :: k <= m < n && StopsTimer(sport, calls, m)
    {
      var m :| k <= m < n - 1 && StopsTimer(sport, calls, m);
    }
  }

  lemma QuietStep(sport: Sport, calls: seq<Call>, i: nat)
    requires i < |calls| && Run(sport, calls[..i]).since.None?
    requires !StopsTimer(sport, calls, i) && !Disagreement(sport, calls, i)
    ensures Run(sport, calls[..i + 1]).since.None?
  {
    RunNext(sport, calls, i);
  }

  lemma BlockStep(sport: Sport, calls: seq<Call>, i: nat)
    requires i < |calls| && !Run(sport, calls[..i]).row.blocked
    ensures Run(sport, calls[..i + 1]).row.blocked
            <==> Disagreement(sport, calls, i) && calls[i].o.at - Since(Run(sport, calls[..i]), calls[i].o.at) > DISAGREEMENT_MS
  {
    RunNext(sport, calls, i);
  }

  /** A game is blocked exactly at a disagreement more than 20 s after the onset of the one that stands, with no
      agreement of two or more fresh feeds and no restart in between. */
  lemma BlocksExactlyAfter(sport: Sport, calls: seq<Call>, i: nat)
    requires i < |calls| && !Run(sport, calls[..i]).row.blocked
    ensures Run(sport, calls[..i + 1]).row.blocked
            <==> Disagreement(sport, calls, i)
                 && exists j: nat :: Onset(sport, calls, j, i) && calls[i].o.at - calls[j].o.at > 20_000
  {
    BlockStep(sport, calls, i);
    if Disagreement(sport, calls, i) { TimerIsOnset(sport, calls, i); }
  }

  lemma TimerIsOnset(sport: Sport, calls: seq<Call>, i: nat)
    requires Disagreement(sport, calls, i)
    ensures calls[i].o.at - Since(Run(sport, calls[..i]), calls[i].o.at) > DISAGREEMENT_MS
            <==> exists j: nat :: Onset(sport, calls, j, i) && calls[i].o.at - calls[j].o.at > DISAGREEMENT_MS
  {
    TimerHolds(sport, calls, i);
    var since := Run(sport, calls[..i]).since;
    if since.Some? {
      var j: nat :| Onset(sport, calls, j, i) && calls[j].o.at == since.value;
      if k: nat :| Onset(sport, calls, k, i) && calls[i].o.at - calls[k].o.at > DISAGREEMENT_MS {
        OneOnset(sport, calls, j, k, i);
      }
    }
  }

  lemma OneOnset(sport: Sport, calls: seq<Call>, j: nat, k: nat, n: nat)
    requires Onset(sport, calls, j, n) && Onset(sport, calls, k, n)
    ensures j == k
  {
  }

  /** A block ends exactly at an agreement of two or more fresh feeds. */
  lemma UnblocksExactlyAt(sport: Sport, calls: seq<Call>, i: nat)
    requires i < |calls| && Run(sport, calls[..i]).row.blocked
    ensures !Run(sport, calls[..i + 1]).row.blocked <==> Agreement(sport, calls, i)
  {
    RunNext(sport, calls, i);
  }

  ghost predicate WasUnanimous(sport: Sport, calls: seq<Call>, n: nat, score: Score) {
    exists j: nat :: j < n && Unanimous(sport, calls, j, score)
  }

  ghost predicate AgreedOk(sport: Sport, calls: seq<Call>, n: nat)
    requires n <= |calls|
  {
    var g := Run(sport, calls[..n]);
    && (g.agreed.Some? ==> WasUnanimous(sport, calls, n, g.agreed.value))
    && (!g.row.blocked && g.feeds != [] ==> g.agreed.Some?)
  }

  lemma UnanimousStays(sport: Sport, calls: seq<Call>, n: nat, score: Score)
    requires WasUnanimous(sport, calls, n, score)
    ensures WasUnanimous(sport, calls, n + 1, score)
  {
    var j: nat :| j < n && Unanimous(sport, calls, j, score);
    assert j < n + 1;
  }

  /** With one fresh feed, or with agreement, the primary score is unanimous. */
  lemma PrimaryUnanimous(sport: Sport, calls: seq<Call>, i: nat)
    requires Taken(sport, calls, i) && !Disagreement(sport, calls, i)
    ensures WasUnanimous(sport, calls, i + 1, Primary(RecentAt(sport, calls, i)).score)
  {
    var recent := RecentAt(sport, calls, i);
    PrimaryIsOne(recent);
    assert Unanimous(sport, calls, i, Primary(recent).score);
  }

  lemma FirstIsAlone(g: Game, o: FeedState)
    requires g.feeds == []
    ensures RecentAfter(g, o) == [o]
  {
    assert Remember(g.feeds, o) == [o];
    assert Recent([o], o.at) == [o];
  }

  lemma {:induction false} AgreedHolds(sport: Sport, calls: seq<Call>, n: nat)
    requires n <= |calls|
    ensures AgreedOk(sport, calls, n)
  {
    if n > 0 {
      var i := n - 1;
      AgreedHolds(sport, calls, i);
      RunNext(sport, calls, i);
      var g := Run(sport, calls[..i]);
      if g.agreed.Some? { UnanimousStays(sport, calls, i, g.agreed.value); }
      if Taken(sport, calls, i) {
        if Disagreement(sport, calls, i) {
          if g.feeds == [] { FirstIsAlone(g, calls[i].o); }
        } else {
          PrimaryUnanimous(sport, calls, i);
        }
      }
    }
  }

  /** The score of every unblocked state was unanimous among the fresh feeds at that or an earlier observation. */
  lemma UnblockedWasUnanimous(sport: Sport, calls: seq<Call>, i: nat)
    requires Taken(sport, calls, i) && !Run(sport, calls[..i + 1]).row.blocked
    ensures WasUnanimous(sport, calls, i + 1, Run(sport, calls[..i + 1]).row.score)
    ensures Emitted(Run(sport, calls[..i]), calls[i].o).value.score == Run(sport, calls[..i + 1]).row.score
  {
    UnblockedScore(sport, calls, i);
    var g := Run(sport, calls[..i]);
    AgreedHolds(sport, calls, i);
    if !Disagreement(sport, calls, i) {
      PrimaryUnanimous(sport, calls, i);
    } else {
      if g.feeds == [] { FirstIsAlone(g, calls[i].o); }
      UnanimousStays(sport, calls, i, g.agreed.value);
    }
  }

  /** The score an observation shows, as long as the game is not blocked. */
  lemma UnblockedScore(sport: Sport, calls: seq<Call>, i: nat)
    requires Taken(sport, calls, i) && !Run(sport, calls[..i + 1]).row.blocked
    ensures var g, score := Run(sport, calls[..i]), Run(sport, calls[..i + 1]).row.score;
            && Emitted(g, calls[i].o).value.score == score
            && (!Disagreement(sport, calls, i) ==> score == Primary(RecentAt(sport, calls, i)).score)
            && (Disagreement(sport, calls, i) ==> !g.row.blocked && (g.agreed.Some? ==> score == g.agreed.value))
  {
    RunNext(sport, calls, i);
  }

  const NO_CLOCK := Clock(None, None, None, false)

  // ---- what is remembered and what is shown -------------------------------------------------------------

  /** The recent observations are those of the last minute, in the order of the feeds. */
  lemma {:induction false} RecentAdds(a: seq<FeedState>, b: seq<FeedState>, at: int)
    ensures Recent(a + b, at) == Recent(a, at) + Recent(b, at)
    ensures |a| == 1 ==> Recent(a, at) == if at - a[0].at <= 60_000 then a else []
    decreases |a|
  {
    if a == [] {
      assert a + b == b;
    } else {
      assert (a + b)[1..] == a[1..] + b;
      RecentAdds(a[1..], b, at);
    }
  }

  /** The `j`-th call is the last observation of the feed that was taken in, with no restart or `forget` since. */
  predicate LastTaken(sport: Sport, calls: seq<Call>, feed: Feed, j: nat) {
    && Taken(sport, calls, j) && calls[j].Observe? && calls[j].o.feed == feed
    && forall k :: j < k < |calls| ==> calls[k].Observe? && (Taken(sport, calls, k) ==> calls[k].o.feed != feed)
  }

  lemma {:induction false} RememberOf(feeds: seq<FeedState>, o: FeedState, feed: Feed)
    ensures OfFeed(Remember(feeds, o), feed) == if feed == o.feed then Some(o) else OfFeed(feeds, feed)
  {
    if feeds != [] && feeds[0].feed != o.feed { RememberOf(feeds[1..], o, feed); }
  }

  lemma LastTakenGoesOn(sport: Sport, calls: seq<Call>, feed: Feed, j: nat)
    requires calls != [] && LastTaken(sport, calls[..|calls| - 1], feed, j)
    requires var n := |calls| - 1; calls[n].Observe? && (Taken(sport, calls, n) ==> calls[n].o.feed != feed)
    ensures LastTaken(sport, calls, feed, j)
  {
    var n := |calls| - 1;
    TakenBefore(sport, calls, n, j);
    forall k | j < k < |calls|
      ensures calls[k].Observe? && (Taken(sport, calls, k) ==> calls[k].o.feed != feed)
    {
      if k < n { TakenBefore(sport, calls, n, k); }
    }
  }

  lemma LastTakenWasBefore(sport: Sport, calls: seq<Call>, feed: Feed, j: nat)
    requires LastTaken(sport, calls, feed, j) && j < |calls| - 1
    ensures LastTaken(sport, calls[..|calls| - 1], feed, j)
  {
    var n := |calls| - 1;
    TakenBefore(sport, calls, n, j);
    forall k | j < k < n
      ensures calls[..n][k].Observe? && (Taken(sport, calls[..n], k) ==> calls[..n][k].o.feed != feed)
    {
      TakenBefore(sport, calls, n, k);
    }
  }

  ghost predicate Heard(sport: Sport, calls: seq<Call>, feed: Feed, o: FeedState) {
    exists j: nat :: LastTaken(sport, calls, feed, j) && calls[j].o == o
  }

  lemma CallRemembers(g: Game, c: Call, feed: Feed)
    ensures OfFeed(After(g, c).feeds, feed)
            == if !c.Observe? then None else if g.row.archived || c.o.feed != feed then OfFeed(g.feeds, feed) else Some(c.o)
  {
    if Observes(c) { RememberOf(g.feeds, c.o, feed); }
  }

  /** A restart, a cut-off or a `forget` leaves nothing in memory: no feed, no timer, no agreed score. */
  lemma RestartForgets(g: Game, c: Call)
    requires !c.Observe?
    ensures After(g, c).feeds == [] && After(g, c).since.None? && After(g, c).agreed.None?
    ensures c.Forget? ==> After(g, c).row == g.row
  {
  }

  /** What is remembered of a feed is its last observation taken in since the last restart or `forget`. */
  lemma {:induction false} RemembersLast(sport: Sport, calls: seq<Call>, feed: Feed, o: FeedState)
    ensures OfFeed(Run(sport, calls).feeds, feed) == Some(o) <==> Heard(sport, calls, feed, o)
  {
    if calls != [] {
      var n := |calls| - 1;
      var c := calls[n];
      RemembersLast(sport, calls[..n], feed, o);
      CallRemembers(Run(sport, calls[..n]), c, feed);
      if c.Observe? && (Taken(sport, calls, n) ==> c.o.feed != feed) {
        HeardBefore(sport, calls, feed, o);
      } else {
        HeardLast(sport, calls, feed, o);
      }
    }
  }

  lemma HeardBefore(sport: Sport, calls: seq<Call>, feed: Feed, o: FeedState)
    requires calls != []
    requires var n := |calls| - 1; calls[n].Observe? && (Taken(sport, calls, n) ==> calls[n].o.feed != feed)
    ensures Heard(sport, calls, feed, o) <==> Heard(sport, calls[..|calls| - 1], feed, o)
  {
    var before := calls[..|calls| - 1];
    if j: nat :| LastTaken(sport, calls, feed, j) && calls[j].o == o { LastTakenWasBefore(sport, calls, feed, j); assert before[j].o == o; }
    if j: nat :| LastTaken(sport, before, feed, j) && before[j].o == o { LastTakenGoesOn(sport, calls, feed, j); assert calls[j].o == o; }
  }

  lemma HeardLast(sport: Sport, calls: seq<Call>, feed: Feed, o: FeedState)
    requires calls != []
    requires var n := |calls| - 1; !calls[n].Observe? || (Taken(sport, calls, n) && calls[n].o.feed == feed)
    ensures Heard(sport, calls, feed, o) <==> calls[|calls| - 1].Observe? && calls[|calls| - 1].o == o
  {
    var n := |calls| - 1;
    if calls[n].Observe? && calls[n].o == o { assert LastTaken(sport, calls, feed, n); }
  }

  /** The feed that decides: the first recent one that is finished; else in hockey the league's own, in soccer the one
      that knows the minute; else the exchange's; else the first. */
  predicate Leads(sport: Sport, recent: seq<FeedState>, b: FeedState) {
    if exists k :: 0 <= k < |recent| && recent[k].phase == Finished then
      exists k :: 0 <= k < |recent| && recent[k] == b && b.phase == Finished && forall j :: 0 <= j < k ==> recent[j].phase != Finished
    else if sport == Hockey && exists k :: 0 <= k < |recent| && recent[k].feed == NhlOfficial then b in recent && b.feed == NhlOfficial
    else if sport == Soccer && exists k :: 0 <= k < |recent| && KnowsMinute(recent[k]) then b in recent && KnowsMinute(b)
    else Scores(recent, b)
  }

  predicate KnowsMinute(f: FeedState) { f.feed == ApiFootball && f.clock.minute.Some? }

  /** The feed whose score counts: the exchange's own, else the first. */
  predicate Scores(recent: seq<FeedState>, p: FeedState) {
    if exists k :: 0 <= k < |recent| && recent[k].feed == KalshiLive then p in recent && p.feed == KalshiLive else recent != [] && p == recent[0]
  }

  lemma {:induction false} OfFeedExists(feeds: seq<FeedState>, feed: Feed)
    ensures OfFeed(feeds, feed).Some? <==> exists k :: 0 <= k < |feeds| && feeds[k].feed == feed
  {
    if feeds != [] {
      OfFeedExists(feeds[1..], feed);
      if k :| 0 <= k < |feeds| && feeds[k].feed == feed { if k > 0 { assert feeds[1..][k - 1].feed == feed; } }
      if k :| 0 <= k < |feeds| - 1 && feeds[1..][k].feed == feed { assert feeds[k + 1].feed == feed; }
    }
  }

  lemma {:induction false} WithMinuteExists(feeds: seq<FeedState>)
    ensures WithMinute(feeds).Some? <==> exists k :: 0 <= k < |feeds| && KnowsMinute(feeds[k])
    ensures WithMinute(feeds).Some? ==> WithMinute(feeds).value in feeds && KnowsMinute(WithMinute(feeds).value)
  {
    if feeds != [] {
      WithMinuteExists(feeds[1..]);
      if k :| 0 <= k < |feeds| && KnowsMinute(feeds[k]) { if k > 0 { assert KnowsMinute(feeds[1..][k - 1]); } }
      if k :| 0 <= k < |feeds| - 1 && KnowsMinute(feeds[1..][k]) { assert KnowsMinute(feeds[k + 1]); }
    }
  }

  lemma PrimaryScores(recent: seq<FeedState>)
    requires recent != []
    ensures Scores(recent, Primary(recent))
  {
    OfFeedExists(recent, KalshiLive);
    OfFeedIsOne(recent, KalshiLive);
  }

  lemma {:induction false} FirstFinishedFirst(feeds: seq<FeedState>) returns (k: nat)
    requires FirstFinished(feeds).Some?
    ensures k < |feeds| && feeds[k] == FirstFinished(feeds).value && feeds[k].phase == Finished && forall j :: 0 <= j < k ==> feeds[j].phase != Finished
  {
    if feeds[0].phase == Finished {
      k := 0;
    } else {
      k := FirstFinishedFirst(feeds[1..]);
      assert forall j :: 0 < j < k + 1 ==> feeds[j] == feeds[1..][j - 1];
      k := k + 1;
    }
  }

  lemma BaseLeads(sport: Sport, recent: seq<FeedState>)
    requires recent != []
    ensures Leads(sport, recent, Base(sport, recent))
  {
    FirstFinishedIs(recent);
    if FirstFinished(recent).Some? {
      var k := FirstFinishedFirst(recent);
    } else {
      OfFeedExists(recent, NhlOfficial);
      OfFeedIsOne(recent, NhlOfficial);
      WithMinuteExists(recent);
      PrimaryScores(recent);
    }
  }

  /** Every observation taken in shows phase and clock of the deciding feed; its score is that of the scoring feed, but
      while the recent feeds disagree the last agreed one, if there is one. A finish keeps the time of the first. */
  lemma ShowsExactly(sport: Sport, calls: seq<Call>, i: nat) returns (b: FeedState, p: FeedState)
    requires Taken(sport, calls, i)
    ensures var recent, g, row := RecentAt(sport, calls, i), Run(sport, calls[..i]), Run(sport, calls[..i + 1]).row;
            var shown := Emitted(g, calls[i].o).value;
            && Leads(sport, recent, b) && Scores(recent, p)
            && shown.phase == row.phase == b.phase && shown.clock == b.clock && shown.blocked == row.blocked && shown.at == calls[i].o.at
            && shown.score == row.score
            && row.score == (if g.agreed.Some? && exists k :: 0 <= k < |recent| && recent[k].score != p.score then g.agreed.value else p.score)
            && row.finishedAt == (if b.phase == Finished && g.row.finishedAt.None? then Some(calls[i].o.at) else g.row.finishedAt)
  {
    RunNext(sport, calls, i);
    SportStays(sport, calls[..i]);
    var recent := RecentAt(sport, calls, i);
    b, p := Base(sport, recent), Primary(recent);
    BaseLeads(sport, recent);
    PrimaryScores(recent);
    PrimaryIsOne(recent);
  }

  lemma {:induction false} SportStays(sport: Sport, calls: seq<Call>)
    ensures Run(sport, calls).row.sport == sport
  {
    if calls != [] { SportStays(sport, calls[..|calls| - 1]); }
  }

  // ---- finish and archive -------------------------------------------------------------------------------

  /** An archived game is finished and was written once, with its final score; another has not been written. A
      finished game that is not archived was cut off, so the process remembers nothing of it. */
  predicate FinishOk(g: Game) {
    var row := g.row;
    && (row.archived ==> row.phase == Finished && row.final == Some(row.score) && row.finishedAt.Some? && row.archives == [row.score])
    && (!row.archived ==> row.archives == [])
    && (row.phase == Finished && !row.archived ==> g.feeds == [] && row.final == Some(row.score))
  }

  lemma FinishStep(g: Game, c: Call)
    requires FinishOk(g)
    ensures FinishOk(After(g, c))
  {
  }

  lemma {:induction false} FinishHolds(sport: Sport, calls: seq<Call>)
    ensures FinishOk(Run(sport, calls))
  {
    if calls != [] {
      FinishHolds(sport, calls[..|calls| - 1]);
      FinishStep(Run(sport, calls[..|calls| - 1]), calls[|calls| - 1]);
    }
  }

  /** The last observation taken in finished the game, and a restart cut it off between its two commits. */
  predicate CutOffAt(sport: Sport, calls: seq<Call>, j: nat) {
    && Taken(sport, calls, j) && calls[j].CutOff? && Run(sport, calls[..j + 1]).row.phase == Finished
    && forall k :: j < k < |calls| ==> !Taken(sport, calls, k)
  }

  ghost predicate FinishCutOff(sport: Sport, calls: seq<Call>) { exists j: nat :: CutOffAt(sport, calls, j) }

  lemma TakenBefore(sport: Sport, calls: seq<Call>, n: nat, k: nat)
    requires k < n <= |calls|
    ensures Taken(sport, calls[..n], k) <==> Taken(sport, calls, k)
    ensures Run(sport, calls[..n][..k]) == Run(sport, calls[..k]) && Run(sport, calls[..n][..k + 1]) == Run(sport, calls[..k + 1])
  {
    assert calls[..n][..k] == calls[..k] && calls[..n][..k + 1] == calls[..k + 1];
  }

  lemma CutOffGoesOn(sport: Sport, calls: seq<Call>, j: nat)
    requires calls != [] && !Taken(sport, calls, |calls| - 1)
    requires CutOffAt(sport, calls[..|calls| - 1], j)
    ensures CutOffAt(sport, calls, j)
  {
    var n := |calls| - 1;
    TakenBefore(sport, calls, n, j);
    forall k | j < k < |calls|
      ensures !Taken(sport, calls, k)
    {
      if k < n { TakenBefore(sport, calls, n, k); }
    }
  }

  lemma CutOffWasBefore(sport: Sport, calls: seq<Call>, j: nat)
    requires calls != [] && !Taken(sport, calls, |calls| - 1)
    requires CutOffAt(sport, calls, j)
    ensures CutOffAt(sport, calls[..|calls| - 1], j)
  {
    var n := |calls| - 1;
    TakenBefore(sport, calls, n, j);
    forall k | j < k < n
      ensures !Taken(sport, calls[..n], k)
    {
      TakenBefore(sport, calls, n, k);
    }
  }

  /** A call that takes nothing in leaves a cut-off finish as it is, and makes none. */
  lemma IdleCallKeepsCutOff(sport: Sport, calls: seq<Call>)
    requires calls != [] && !Taken(sport, calls, |calls| - 1)
    ensures FinishCutOff(sport, calls) <==> FinishCutOff(sport, calls[..|calls| - 1])
  {
    if j: nat :| CutOffAt(sport, calls, j) { CutOffWasBefore(sport, calls, j); }
    var before := calls[..|calls| - 1];
    if j: nat :| CutOffAt(sport, before, j) { CutOffGoesOn(sport, calls, j); }
  }

  lemma LastTakenCutOff(sport: Sport, calls: seq<Call>)
    requires calls != [] && Taken(sport, calls, |calls| - 1)
    ensures FinishCutOff(sport, calls) <==> calls[|calls| - 1].CutOff? && Run(sport, calls).row.phase == Finished
  {
    var n := |calls| - 1;
    assert calls[..n + 1] == calls;
    if calls[n].CutOff? && Run(sport, calls).row.phase == Finished { assert CutOffAt(sport, calls, n); }
  }

  /** A finished game is left unarchived exactly when its finish was cut off; in all other states archived and
      finished are the same. */
  lemma {:induction false} UnarchivedExactlyWhenCutOff(sport: Sport, calls: seq<Call>)
    ensures var row := Run(sport, calls).row;
            && (row.phase == Finished && !row.archived <==> FinishCutOff(sport, calls))
            && ((row.archived <==> row.phase == Finished) <==> !FinishCutOff(sport, calls))
  {
    FinishHolds(sport, calls);
    if calls != [] {
      var n := |calls| - 1;
      UnarchivedExactlyWhenCutOff(sport, calls[..n]);
      if Taken(sport, calls, n) { LastTakenCutOff(sport, calls); } else { IdleCallKeepsCutOff(sport, calls); }
    }
  }

  lemma RunMore(sport: Sport, calls: seq<Call>, c: Call)
    ensures Run(sport, calls + [c]) == After(Run(sport, calls), c)
  {
    assert (calls + [c])[..|calls|] == calls;
  }

  lemma {:induction false} ArchivedForGood(sport: Sport, calls: seq<Call>, n: nat)
    requires n <= |calls| && Run(sport, calls[..n]).row.archived
    ensures Run(sport, calls).row == Run(sport, calls[..n]).row
  {
    if n == |calls| {
      assert calls[..n] == calls;
    } else {
      var before := calls[..|calls| - 1];
      assert before[..n] == calls[..n];
      ArchivedForGood(sport, before, n);
    }
  }

  ghost predicate RowStays(sport: Sport, calls: seq<Call>, more: seq<Call>) {
    Run(sport, calls + more).row == Run(sport, calls).row
  }

  /** A finished row is safe from every later call exactly when it is archived. */
  lemma FrozenExactlyWhenArchived(sport: Sport, calls: seq<Call>)
    requires Run(sport, calls).row.phase == Finished
    ensures (forall more :: RowStays(sport, calls, more)) <==> Run(sport, calls).row.archived
  {
    if Run(sport, calls).row.archived {
      forall more
        ensures RowStays(sport, calls, more)
      {
        assert (calls + more)[..|calls|] == calls;
        ArchivedForGood(sport, calls + more, |calls|);
      }
    } else {
      FinishHolds(sport, calls);
      var g, o := Run(sport, calls), FeedState(KalshiLive, InPlay, Score(0, 0), NO_CLOCK, 0);
      FirstIsAlone(g, o);
      RunMore(sport, calls, Observe(o));
      assert !RowStays(sport, calls, [Observe(o)]);
    }
  }

  /** The phases in which a game is polled. */
  predicate IsPolled(phase: Phase) { phase in {Scheduled, InPlay, Halftime, Intermission} }

  /** From the `n`-th call on, observations are of games that are polled, or too late because the game is archived. */
  predicate OnlyPolled(sport: Sport, calls: seq<Call>, n: nat) {
    forall i :: n <= i < |calls| && Observes(calls[i]) ==>
                  var row := Run(sport, calls[..i]).row;
                  IsPolled(row.phase) || row.archived
  }

  lemma OnlyPolledBefore(sport: Sport, calls: seq<Call>, n: nat)
    requires calls != [] && OnlyPolled(sport, calls, n)
    ensures OnlyPolled(sport, calls[..|calls| - 1], n)
  {
    var shorter := calls[..|calls| - 1];
    forall i | n <= i < |shorter| && Observes(shorter[i])
      ensures var row := Run(sport, shorter[..i]).row; IsPolled(row.phase) || row.archived
    {
      assert shorter[..i] == calls[..i] && shorter[i] == calls[i];
    }
  }

  lemma LateCallIdle(g: Game, c: Call)
    requires Observes(c) ==> IsPolled(g.row.phase) || g.row.archived
    requires g.row.phase == Finished
    ensures After(g, c).row == g.row
  {
  }

  lemma LastCallIdle(sport: Sport, calls: seq<Call>, n: nat)
    requires n < |calls| && OnlyPolled(sport, calls, n) && Run(sport, calls[..|calls| - 1]).row.phase == Finished
    ensures Run(sport, calls).row == Run(sport, calls[..|calls| - 1]).row
  {
    LateCallIdle(Run(sport, calls[..|calls| - 1]), calls[|calls| - 1]);
  }

  /** Since no finished game is polled, a finished row stays as it is. */
  lemma {:induction false} FinishedForGood(sport: Sport, calls: seq<Call>, n: nat)
    requires n <= |calls| && Run(sport, calls[..n]).row.phase == Finished && OnlyPolled(sport, calls, n)
    ensures Run(sport, calls).row == Run(sport, calls[..n]).row
  {
    if n == |calls| {
      assert calls[..n] == calls;
    } else {
      var before := calls[..|calls| - 1];
      assert before[..n] == calls[..n];
      OnlyPolledBefore(sport, calls, n);
      FinishedForGood(sport, before, n);
      LastCallIdle(sport, calls, n);
    }
  }

  /** So a game is never archived if its finish was cut off. */
  lemma NeverArchived(sport: Sport, calls: seq<Call>, n: nat)
    requires n <= |calls| && FinishCutOff(sport, calls[..n]) && OnlyPolled(sport, calls, n)
    ensures !Run(sport, calls).row.archived && Run(sport, calls).row.archives == []
  {
    UnarchivedExactlyWhenCutOff(sport, calls[..n]);
    FinishedForGood(sport, calls, n);
    FinishHolds(sport, calls);
  }

  lemma {:induction false} FirstFinishedIs(feeds: seq<FeedState>)
    ensures FirstFinished(feeds).Some? <==> exists i :: 0 <= i < |feeds| && feeds[i].phase == Finished
    ensures FirstFinished(feeds).Some? ==> FirstFinished(feeds).value.phase == Finished
  {
    if feeds != [] {
      FirstFinishedIs(feeds[1..]);
      if i :| 0 <= i < |feeds| && feeds[i].phase == Finished {
        if i > 0 { assert feeds[1..][i - 1].phase == Finished; }
      }
      if i :| 0 <= i < |feeds| - 1 && feeds[1..][i].phase == Finished {
        assert feeds[i + 1].phase == Finished;
      }
    }
  }

  lemma {:induction false} WithMinuteIsOne(feeds: seq<FeedState>)
    ensures WithMinute(feeds).Some? ==> WithMinute(feeds).value in feeds
  {
    if feeds != [] {
      WithMinuteIsOne(feeds[1..]);
    }
  }

  /** A game is finished as soon as one fresh feed says so, and not before. */
  lemma FinishesExactlyWhen(sport: Sport, calls: seq<Call>, i: nat)
    requires Taken(sport, calls, i)
    ensures Run(sport, calls[..i + 1]).row.phase == Finished
            <==> exists k :: 0 <= k < |RecentAt(sport, calls, i)| && RecentAt(sport, calls, i)[k].phase == Finished
  {
    RunNext(sport, calls, i);
    var recent := RecentAt(sport, calls, i);
    FirstFinishedIs(recent);
    WithMinuteIsOne(recent);
    OfFeedIsOne(recent, NhlOfficial);
    PrimaryIsOne(recent);
  }

  /** The final score that is archived is the merged one. So it is the finished feed's own score exactly when the
      fresh feeds do not disagree, or that score is the one that stands during the disagreement: the last agreed
      score, or without one (a blocked game after a restart) the primary feed's. */
  lemma FinalIsReported(sport: Sport, calls: seq<Call>, i: nat)
    requires Taken(sport, calls, i) && FirstFinished(RecentAt(sport, calls, i)).Some?
    ensures var recent := RecentAt(sport, calls, i);
            var agreed := Run(sport, calls[..i]).agreed;
            var reported := FirstFinished(recent).value.score;
            Run(sport, calls[..i + 1]).row.final == Some(reported)
            <==> !Disagreement(sport, calls, i) || (if agreed.Some? then agreed.value else Primary(recent).score) == reported
  {
    RunNext(sport, calls, i);
    var recent := RecentAt(sport, calls, i);
    FirstFinishedIsOne(recent);
    PrimaryIsOne(recent);
  }

  lemma {:induction false} FirstFinishedIsOne(feeds: seq<FeedState>)
    ensures FirstFinished(feeds).Some? ==> FirstFinished(feeds).value in feeds && FirstFinished(feeds).value.phase == Finished
  {
    if feeds != [] {
      FirstFinishedIsOne(feeds[1..]);
    }
  }

  /** A run in which it is not: the hockey feed ends 2-0 while the other still reports 1-0, and 1-0 is archived. */
  const LATE_GOAL := [
    Observe(FeedState(KalshiLive, InPlay, Score(1, 0), NO_CLOCK, 0)),
    Observe(FeedState(NhlOfficial, InPlay, Score(1, 0), NO_CLOCK, 1_000)),
    Observe(FeedState(NhlOfficial, Finished, Score(2, 0), NO_CLOCK, 2_000))]

  lemma BothRecent(a: FeedState, b: FeedState, at: int)
    requires at - a.at <= FRESH_MS && at - b.at <= FRESH_MS
    ensures Recent([a, b], at) == [a, b]
  {
    assert [a, b][1..] == [b] && [b][1..] == [];
    assert Recent([b], at) == [b];
  }

  lemma FinalCanBeStale()
    ensures Run(Hockey, LATE_GOAL).row.final == Some(Score(1, 0))
  {
    var k, n, over := LATE_GOAL[0].o, LATE_GOAL[1].o, LATE_GOAL[2].o;
    var g0 := NewGame(Hockey);
    var g1, g2 := Observed(g0, k), Observed(Observed(g0, k), n);
    assert RecentAfter(g0, k) == [k];
    assert g1 == Game(g0.row.(phase := InPlay, score := Score(1, 0)), [k], None, Some(Score(1, 0)));
    assert Remember([k], n) == [k, n];
    BothRecent(k, n, 1_000);
    assert RecentAfter(g1, n) == [k, n];
    assert g2 == g1.(feeds := [k, n]);
    assert [k, n][1..] == [n];
    assert Remember([k, n], over) == [k, over];
    BothRecent(k, over, 2_000);
    assert RecentAfter(g2, over) == [k, over];
    assert Observed(g2, over).row.final == Some(Score(1, 0));
    assert LATE_GOAL[..2][..1] == LATE_GOAL[..1] && LATE_GOAL[..1][..0] == [];
    assert Run(Hockey, LATE_GOAL[..1]) == g1;
    assert Run(Hockey, LATE_GOAL[..2]) == g2;
  }
}
