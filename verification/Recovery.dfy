/** Start-up recovery (app/src/core/executor.ts): complete and idempotent when every lookup answers. */
module Recovery {
  import opened Pricing
  import opened Guards
  import opened Trades
  import opened Lifecycle
  import opened Invariant
  import opened Preservation

  predicate AllAnswered(answers: seq<Lookup>) {
    forall k :: 0 <= k < |answers| ==> !answers[k].LookupFailed?
  }

  /** Nothing is left to recover: no attempt is pending, and an open trade waits in an open window. */
  predicate Recovered(db: Db, now: int) {
    && (forall i :: 0 <= i < |db.attempts| ==> db.attempts[i].status != AttemptPending)
    && (forall t :: 0 <= t < |db.trades| ==> IsUnfinished(db.trades[t].status) ==> db.trades[t].status == Waiting && db.trades[t].windowEnds > now)
  }

  /** Every order that filled at the exchange is a filled attempt of a trade that has the fill. */
  predicate NoFillLost(s: Sys) {
    forall i :: i in s.ex.orders && s.ex.orders[i].fillCc > 0 ==>
                  && i < |s.db.attempts| && s.db.attempts[i].status == AttemptFilled && s.db.attempts[i].trade < |s.db.trades|
                  && var row := s.db.trades[s.db.attempts[i].trade];
                  HasFill(row.status) && row.mode == Live && row.fill.Some? && row.fill.value.cc == s.ex.orders[i].fillCc
  }

  /** Every pending live attempt is still on the list. */
  ghost predicate Listed(db: Db, todo: seq<nat>) {
    forall i: nat :: IsPendingLive(db, i) ==> i in todo
  }

  lemma {:induction false} RecoverFromList(s: Sys, answers: seq<Lookup>)
    requires Inv(s) && s.process.Recovering? && Listed(s.db, s.process.todo)
    requires |answers| == |s.process.todo| && AllAnswered(answers) && Possible(s, LookupsThenFinish(answers))
    ensures var s' := Run(s, LookupsThenFinish(answers));
            Inv(s') && s'.clock == s.clock && s'.process == Up([], {}, None, [], []) && Recovered(s'.db, s.clock) && NoFillLost(s')
    decreases |answers|
  {
    var es := LookupsThenFinish(answers);
    if answers == [] {
      assert es == [RecoverFinish] && es[1..] == [];
      assert s.process.todo == [];
      RecoverRowsKeep(s);
      var s' := Step(s, RecoverFinish);
      assert Run(s, es) == s' by { assert Run(s, es) == Run(Step(s, es[0]), es[1..]); }
      FinishedIsRecovered(s);
    } else {
      assert es[0] == RecoverLookup(answers[0]) && es[1..] == LookupsThenFinish(answers[1..]);
      var s1 := Step(s, es[0]);
      RecoverLookupKeeps(s, answers[0]);
      LookupKeepsListed(s, answers[0]);
      RecoverFromList(s1, answers[1..]);
    }
  }

  lemma LookupKeepsListed(s: Sys, answer: Lookup)
    requires Inv(s) && Enabled(s, RecoverLookup(answer)) && !answer.LookupFailed? && Listed(s.db, s.process.todo)
    ensures var s' := Step(s, RecoverLookup(answer));
            Listed(s'.db, s'.process.todo) && s'.clock == s.clock
  {
    var s' := Step(s, RecoverLookup(answer));
    var i := s.process.todo[0];
    forall j: nat | IsPendingLive(s'.db, j)
      ensures j in s.process.todo[1..]
    {
      assert IsPendingLive(s.db, j);
      assert j in s.process.todo;
      assert j != i;
    }
  }

  lemma FinishedIsRecovered(s: Sys)
    requires Inv(s) && Enabled(s, RecoverFinish) && Listed(s.db, [])
    ensures var s' := Step(s, RecoverFinish);
            Recovered(s'.db, s.clock) && NoFillLost(s')
  {
    var s' := Step(s, RecoverFinish);
    forall t: nat | Unresolved(s.db, t)
      ensures false
    {
      var i: nat :| i < |s.db.attempts| && s.db.attempts[i].trade == t && s.db.attempts[i].status == AttemptPending && s.db.attempts[i].mode == Live;
      assert IsPendingLive(s.db, i);
    }
    forall i | 0 <= i < |s'.db.attempts|
      ensures s'.db.attempts[i].status != AttemptPending
    {
      if s.db.attempts[i].status == AttemptPending && s.db.attempts[i].mode == Live { assert IsPendingLive(s.db, i); }
    }
    forall i | i in s.ex.orders && s.ex.orders[i].fillCc > 0
      ensures i < |s'.db.attempts| && FilledRow(s'.db, i) && AttemptOk(s'.db, i) && OrderOk(s'.db, s'.ex, i)
    {
      RecoverRowsKeep(s);
      assert OrderOk(s'.db, s'.ex, i);
    }
  }

  /** A second recovery at the same time finds nothing to do. */
  lemma RecoveredIsStable(db: Db, now: int)
    requires Recovered(db, now)
    ensures PendingLive(db, {}, now, 0, |db.attempts|) == [] && RecoverRows(db, now) == db
  {
    NothingPending(db, now, |db.attempts|);
    NothingAudited(db, now, |db.trades|);
    var db' := RecoverRows(db, now);
    assert db'.attempts == db.attempts;
    assert db'.trades == db.trades;
    assert db'.audit == db.audit;
  }

  lemma {:induction false} NothingPending(db: Db, now: int, n: nat)
    requires Recovered(db, now) && n <= |db.attempts|
    ensures PendingLive(db, {}, now, 0, n) == []
  {
    if n > 0 {
      NothingPending(db, now, n - 1);
    }
  }

  lemma {:induction false} NothingAudited(db: Db, now: int, n: nat)
    requires Recovered(db, now) && n <= |db.trades|
    ensures RecoverAudit(db, now, n) == []
  {
    if n > 0 {
      NothingAudited(db, now, n - 1);
    }
  }

  lemma SecondRecoveryIdle(s: Sys)
    requires s.process == Up([], {}, None, [], []) && Recovered(s.db, s.clock)
    ensures Possible(s, [Crash, Start, RecoverFinish]) && Run(s, [Crash, Start, RecoverFinish]) == s
  {
    RecoveredIsStable(s.db, s.clock);
    var c1 := Step(s, Crash);
    var c2 := Step(c1, Start);
    assert c2.process == Recovering([]);
    assert Step(c2, RecoverFinish) == s;
    assert [RecoverFinish][1..] == [];
    assert Run(c2, [RecoverFinish]) == s;
    assert [Start, RecoverFinish][1..] == [RecoverFinish];
    assert Run(c1, [Start, RecoverFinish]) == s;
    assert [Crash, Start, RecoverFinish][1..] == [Start, RecoverFinish];
  }

  /** From any state a crash may leave, a recovery whose lookups all answer ends with no pending attempt and no
      signalled or pending trade, leaves open trades waiting in an open window, loses no fill, and a second
      recovery right after it changes nothing. */
  lemma RecoveryComplete(s: Sys, answers: seq<Lookup>)
    requires Inv(s) && s.process.Down?
    requires |answers| == |PendingLive(s.db, {}, s.clock, 0, |s.db.attempts|)| && AllAnswered(answers)
    requires Possible(s, RecoveryRun(answers))
    ensures var s' := Run(s, RecoveryRun(answers));
            && Inv(s') && Recovered(s'.db, s.clock) && NoFillLost(s')
            && Possible(s', [Crash, Start, RecoverFinish]) && Run(s', [Crash, Start, RecoverFinish]) == s'
  {
    var es := RecoveryRun(answers);
    assert es[0] == Start && es[1..] == LookupsThenFinish(answers);
    var s1 := Step(s, Start);
    StartKeeps(s);
    PendingLiveMeaning(s.db, {}, s.clock, 0, |s.db.attempts|);
    forall i: nat | IsPendingLive(s1.db, i)
      ensures i in s1.process.todo
    {
      assert s.db.attempts[i].at <= s.clock;
    }
    RecoverFromList(s1, answers);
    SecondRecoveryIdle(Run(s1, LookupsThenFinish(answers)));
  }

  lemma {:induction false} LookupsPossible(s: Sys) returns (answers: seq<Lookup>)
    requires Inv(s) && s.process.Recovering?
    ensures |answers| == |s.process.todo| && AllAnswered(answers) && Possible(s, LookupsThenFinish(answers))
    decreases |s.process.todo|
  {
    if s.process.todo == [] {
      answers := [];
      assert LookupsThenFinish(answers)[1..] == [];
    } else {
      var i := s.process.todo[0];
      assert IsPendingLive(s.db, i) && AttemptOk(s.db, i);
      var answer := if i in s.ex.orders then LookupFound else LookupNotFound;
      RecoverLookupKeeps(s, answer);
      var rest := LookupsPossible(Step(s, RecoverLookup(answer)));
      answers := [answer] + rest;
      assert answers[1..] == rest;
      assert LookupsThenFinish(answers)[1..] == LookupsThenFinish(rest);
    }
  }

  /** `all lookups answer` can always be had from a truthful exchange: from every state that a crash leaves, such a
      recovery can run to its end. */
  lemma RecoveryPossible(s: Sys) returns (answers: seq<Lookup>)
    requires Inv(s) && s.process.Down?
    ensures |answers| == |PendingLive(s.db, {}, s.clock, 0, |s.db.attempts|)| && AllAnswered(answers) && Possible(s, RecoveryRun(answers))
  {
    StartKeeps(s);
    answers := LookupsPossible(Step(s, Start));
    assert RecoveryRun(answers)[1..] == LookupsThenFinish(answers);
  }
}
