/** The settler's look-ups of pending live orders (`resolvePendingLive` in app/src/core/executor.ts): one pass with
    answers settles every one that is due. */
module Resolver {
  import opened Guards
  import opened Trades
  import opened Lifecycle
  import opened Invariant
  import opened Preservation
  import opened Recovery
  import opened Trader

  /** The attempt is not due: its trade is busy, or it is too young. */
  predicate NotDue(s: Sys, i: nat) {
    s.process.Up? && i < |s.db.attempts| && (s.db.attempts[i].trade in s.process.busy || s.clock - s.db.attempts[i].at < PENDING_LIVE_MIN_AGE_MS)
  }

  /** Every pending live attempt is still on the resolver's list, or not due. */
  ghost predicate Covered(s: Sys) {
    s.process.Up? && forall i: nat :: IsPendingLive(s.db, i) ==> i in s.process.resolving || NotDue(s, i)
  }

  lemma StartCovers(s: Sys)
    requires Inv(s) && Enabled(s, ResolveStart)
    ensures Covered(Step(s, ResolveStart))
  {
    PendingLiveMeaning(s.db, s.process.busy, s.clock, PENDING_LIVE_MIN_AGE_MS, |s.db.attempts|);
  }

  /** The settler's list: exactly the pending live attempts of trades that are not busy, at least thirty seconds old, in
      row order. */
  lemma ListedExactly(s: Sys, i: nat)
    requires Enabled(s, ResolveStart)
    ensures var list := Step(s, ResolveStart).process.resolving;
            && (i in list <==> i < |s.db.attempts| && s.db.attempts[i].status == AttemptPending && s.db.attempts[i].mode == Live
                               && s.db.attempts[i].trade !in s.process.busy && s.clock - s.db.attempts[i].at >= 30_000)
            && forall j, k :: 0 <= j < k < |list| ==> list[j] < list[k]
  {
    PendingLiveMeaning(s.db, s.process.busy, s.clock, PENDING_LIVE_MIN_AGE_MS, |s.db.attempts|);
  }

  /** Recovery's list: every pending live attempt, in row order. */
  lemma RecoveryListsAll(s: Sys, i: nat)
    requires Inv(s) && Enabled(s, Start)
    ensures var list := Step(s, Start).process.todo;
            && (i in list <==> i < |s.db.attempts| && s.db.attempts[i].status == AttemptPending && s.db.attempts[i].mode == Live)
            && forall j, k :: 0 <= j < k < |list| ==> list[j] < list[k]
  {
    PendingLiveMeaning(s.db, {}, s.clock, 0, |s.db.attempts|);
  }

  lemma RecordCloses(db: Db, now: int, i: nat, outcome: Outcome, notFound: Reason, expireClosed: bool, j: nat)
    requires i < |db.attempts| && db.attempts[i].trade < |db.trades|
    ensures var db' := RecordLiveOutcome(db, now, i, outcome, notFound, expireClosed);
            IsPendingLive(db', j) <==> IsPendingLive(db, j) && j != i
    ensures var db' := RecordLiveOutcome(db, now, i, outcome, notFound, expireClosed);
            |db'.attempts| == |db.attempts| && forall k :: 0 <= k < |db.attempts| && k != i ==> db'.attempts[k] == db.attempts[k]
  {
  }

  lemma NextCovers(s: Sys, answer: Lookup)
    requires Inv(s) && Covered(s) && Enabled(s, ResolveNext(answer)) && !answer.LookupFailed?
    ensures var s' := Step(s, ResolveNext(answer));
            Covered(s') && s'.clock == s.clock && s'.process.busy == s.process.busy && s'.process.resolving == s.process.resolving[1..]
  {
    var i := s.process.resolving[0];
    var s' := Step(s, ResolveNext(answer));
    var outcome := if answer.LookupFound? then OutcomeFromOrder(s.ex.orders[i]) else NoOrder;
    forall j: nat | IsPendingLive(s'.db, j)
      ensures j in s'.process.resolving || NotDue(s', j)
    {
      RecordCloses(s.db, s.clock, i, outcome, OrderNotFound, true, j);
      assert s.process.resolving == [i] + s.process.resolving[1..];
    }
  }

  lemma {:induction false} ListIsWorkedOff(s: Sys, answers: seq<Lookup>)
    requires Inv(s) && Covered(s) && |answers| == |s.process.resolving| && AllAnswered(answers) && Possible(s, ResolveEvents(answers))
    ensures var s' := Run(s, ResolveEvents(answers));
            Inv(s') && Covered(s') && s'.process.Up? && s'.process.resolving == [] && s'.clock == s.clock && s'.process.busy == s.process.busy
    decreases |answers|
  {
    if answers != [] {
      assert answers[0..] == answers;
      NextResolve(s, answers, 0);
      ResolveNextKeeps(s, answers[0]);
      NextCovers(s, answers[0]);
      ListIsWorkedOff(Step(s, ResolveNext(answers[0])), answers[1..]);
    }
  }

  /** After a pass whose look-ups all answer, the only live attempts still pending are younger than 30 s or belong to
      a busy trade: no due order stays unresolved. */
  lemma PassResolvesAllDue(s: Sys, answers: seq<Lookup>)
    requires Inv(s) && Enabled(s, ResolveStart) && AllAnswered(answers)
    requires |answers| == |PendingLive(s.db, s.process.busy, s.clock, PENDING_LIVE_MIN_AGE_MS, |s.db.attempts|)|
    requires Possible(s, [ResolveStart] + ResolveEvents(answers))
    ensures var s' := Run(s, [ResolveStart] + ResolveEvents(answers));
            && Inv(s') && s'.process.Up? && s'.process.resolving == []
            && forall i: nat :: IsPendingLive(s'.db, i) ==> NotDue(s', i)
  {
    assert ([ResolveStart] + ResolveEvents(answers))[1..] == ResolveEvents(answers);
    ResolveStartKeeps(s);
    StartCovers(s);
    ListIsWorkedOff(Step(s, ResolveStart), answers);
  }

  // ---- with other steps in between ----------------------------------------------------------------------

  /** Any step between two look-ups but a crash or a new pass; a look-up gets an answer. */
  predicate Undisturbed(e: Event) { !e.Crash? && !e.ResolveStart? && !(e.ResolveNext? && e.answer.LookupFailed?) }

  /** Every attempt that was due when the pass began is still on its list or no longer pending. */
  ghost predicate DueCovered(s0: Sys, s: Sys) {
    s.process.Up? && |s0.db.attempts| <= |s.db.attempts|
    && forall i: nat :: IsPendingLive(s0.db, i) && !NotDue(s0, i) ==> i in s.process.resolving || !IsPendingLive(s.db, i)
  }

  lemma ExchangeKeepsClosed(s: Sys, e: Event, i: nat)
    requires Enabled(s, e) && (e.CreateDone? || e.LookupDone?) && i < |s.db.attempts| && !IsPendingLive(s.db, i)
    ensures !IsPendingLive(Step(s, e).db, i)
  {
  }

  /** An attempt that is no longer pending never is again. */
  lemma KeepsClosed(s: Sys, e: Event, i: nat)
    requires Inv(s) && Enabled(s, e) && s.process.Up? && !e.ResolveNext? && i < |s.db.attempts| && !IsPendingLive(s.db, i)
    ensures !IsPendingLive(Step(s, e).db, i)
  {
    if e.CreateDone? || e.LookupDone? { ExchangeKeepsClosed(s, e, i); }
  }

  lemma ListStays(s: Sys, e: Event)
    requires Enabled(s, e) && s.process.Up? && Undisturbed(e) && !e.ResolveNext?
    ensures Step(s, e).process.Up? && Step(s, e).process.resolving == s.process.resolving
    ensures |s.db.attempts| <= |Step(s, e).db.attempts|
  {
  }

  lemma HeadCloses(s0: Sys, s: Sys, answer: Lookup)
    requires DueCovered(s0, s) && Enabled(s, ResolveNext(answer)) && !answer.LookupFailed?
    ensures DueCovered(s0, Step(s, ResolveNext(answer)))
  {
    var i := s.process.resolving[0];
    var s' := Step(s, ResolveNext(answer));
    var outcome := if answer.LookupFound? then OutcomeFromOrder(s.ex.orders[i]) else NoOrder;
    forall j: nat | IsPendingLive(s0.db, j) && !NotDue(s0, j)
      ensures j in s'.process.resolving || !IsPendingLive(s'.db, j)
    {
      RecordCloses(s.db, s.clock, i, outcome, OrderNotFound, true, j);
      assert s.process.resolving == [i] + s.process.resolving[1..];
    }
  }

  lemma StepCovers(s0: Sys, s: Sys, e: Event)
    requires Inv(s) && DueCovered(s0, s) && Enabled(s, e) && Undisturbed(e)
    ensures DueCovered(s0, Step(s, e))
  {
    if e.ResolveNext? {
      HeadCloses(s0, s, e.answer);
    } else {
      ListStays(s, e);
      forall i: nat | IsPendingLive(s0.db, i) && !NotDue(s0, i)
        ensures i in Step(s, e).process.resolving || !IsPendingLive(Step(s, e).db, i)
      {
        if !IsPendingLive(s.db, i) { KeepsClosed(s, e, i); }
      }
    }
  }

  lemma {:induction false} RunCovers(s0: Sys, s: Sys, es: seq<Event>)
    requires Inv(s) && DueCovered(s0, s) && Possible(s, es) && forall k :: 0 <= k < |es| ==> Undisturbed(es[k])
    ensures DueCovered(s0, Run(s, es))
    decreases |es|
  {
    if es != [] {
      StepKeeps(s, es[0]);
      StepCovers(s0, s, es[0]);
      RunCovers(s0, Step(s, es[0]), es[1..]);
    }
  }

  /** Whatever else happens between its look-ups (attempts, signals, settlements, expiries, orders), a pass that is
      not cut off and whose look-ups all answer leaves none pending of the live attempts that were due when it
      began. */
  lemma PassResolvesWhatWasDue(s: Sys, es: seq<Event>)
    requires Inv(s) && Enabled(s, ResolveStart) && Possible(Step(s, ResolveStart), es)
    requires forall k :: 0 <= k < |es| ==> Undisturbed(es[k])
    requires Run(Step(s, ResolveStart), es).process.Up? && Run(Step(s, ResolveStart), es).process.resolving == []
    ensures forall i: nat :: IsPendingLive(s.db, i) && !NotDue(s, i) ==> !IsPendingLive(Run(Step(s, ResolveStart), es).db, i)
  {
    ResolveStartKeeps(s);
    StartCovers(s);
    RunCovers(s, Step(s, ResolveStart), es);
  }
}
