/**
 * `recover_review_apply_intent`, `settle_applied_review` and `settle_failed_review` as
 * they run under the source lock: a statement at a time, with steps of others between
 * two statements. Every statement is one action of ReviewClaims. What the others do and
 * which statements fail is given, so the contracts say what the routines do about it.
 */
module ReviewSettling {
  import opened Options
  import opened ApplyIntents
  import opened ReviewClaims
  import opened ReviewClaimSafety
  import opened ReviewRecovery

  /** Whoever is inside the apply body holds the source lock. */
  predicate Exclusive(st: Claims) {
    forall i :: i in st.owners && (st.owners[i].at.Locked? || st.owners[i].at.Body?) ==> st.lock == Held(i)
  }

  lemma OwnerExclusive(st: Claims, i: nat, step: OwnerStep)
    requires Exclusive(st) && i in st.owners && OwnerNext(st, i, st.owners[i], step).Some?
    ensures Exclusive(OwnerNext(st, i, st.owners[i], step).value)
  {
    var t := OwnerNext(st, i, st.owners[i], step).value;
    OthersStay(st, i, step);
    forall j | j in t.owners && (t.owners[j].at.Locked? || t.owners[j].at.Body?) ensures t.lock == Held(j) {
      if j != i { assert t.owners[j] == st.owners[j]; }
    }
  }

  /** A process changes its own program point only, and the lock only when it is free or its own. */
  lemma OthersStay(st: Claims, i: nat, step: OwnerStep)
    requires i in st.owners && OwnerNext(st, i, st.owners[i], step).Some?
    ensures var t := OwnerNext(st, i, st.owners[i], step).value;
      && (forall j :: j != i && j in t.owners ==> j in st.owners && t.owners[j] == st.owners[j])
      && (t.lock == st.lock || st.lock == Held(i) || (st.lock.Free? && t.lock == Held(i)))
  {
  }

  lemma ExclusiveStep(st: Claims, act: Action)
    requires Exclusive(st) && Next(st, act).Some?
    ensures Exclusive(Next(st, act).value)
  {
    match act {
      case Own(i, step) => OwnerExclusive(st, i, step);
      case Recovery(step) => RecoveryStaysLocked(st, step);
      case _ =>
    }
  }

  lemma RecoveryStaysLocked(st: Claims, step: RecoveryStep)
    requires Next(st, Recovery(step)).Some?
    ensures var t := Next(st, Recovery(step)).value; t.owners == st.owners && !t.lock.Held? && st.lock.Recovering?
  {
    if step.Go? { assert Next(st, Recovery(step)) == RecoveryGo(st, st.lock.p, st.lock.at, st.rows[st.lock.p]); }
  }

  /** What others do beside a recovery run of row `p`. */
  predicate Beside(st: Claims, t: Claims, p: nat) {
    && t.lock == st.lock && (Succeeded(st.rows, p) ==> Succeeded(t.rows, p)) && st.rows.Keys <= t.rows.Keys
    && (p in st.rows && !UnsettledFailure(st.rows[p]) ==> !UnsettledFailure(t.rows[p]))
    && (st.review.Applied? ==> t.review.Applied?)
  }

  lemma OwnerBeside(st: Claims, i: nat, step: OwnerStep, p: nat)
    requires Exclusive(st) && st.lock.Recovering? && i in st.owners && OwnerNext(st, i, st.owners[i], step).Some?
    ensures Beside(st, OwnerNext(st, i, st.owners[i], step).value, p)
  {
  }

  /** Beside a recovery run, others neither take the lock nor undo a success. */
  lemma BesideRecovery(st: Claims, act: Action, p: nat)
    requires Exclusive(st) && st.lock.Recovering? && !act.Recovery? && Next(st, act).Some?
    ensures Beside(st, Next(st, act).value, p)
  {
    match act {
      case Own(i, step) => OwnerBeside(st, i, step, p);
      case _ =>
    }
  }

  // -------------------------------------------------- what is given

  /** Before a statement others take steps; then it runs or the database fails. */
  datatype Turn = Turn(others: seq<Action>, fails: bool)

  const NOTHING := Turn([], false)

  /** What the apply body does to the row, with steps of others before each update, and whether it ends in an error. */
  datatype Attempt = Attempt(steps: seq<(seq<Action>, Update)>, fails: bool)

  datatype Outcome = AppliedReview | FailedSettled | AlreadyFinalized | Deferred

  function TurnAt(turns: seq<Turn>, k: nat): Turn {
    if k < |turns| then turns[k] else NOTHING
  }

  /** The next `n` statements run. */
  predicate Calm(turns: seq<Turn>, k: nat, n: nat) {
    forall j :: k <= j < k + n ==> !TurnAt(turns, j).fails
  }

  predicate Undisturbed(turns: seq<Turn>) {
    forall j :: 0 <= j < |turns| ==> turns[j] == NOTHING
  }

  predicate UndisturbedSteps(steps: seq<(seq<Action>, Update)>) {
    forall j :: 0 <= j < |steps| ==> steps[j].0 == []
  }

  /** A step of somebody else, if it is possible. */
  function OtherStep(st: Claims, act: Action): Claims {
    if !act.Recovery? && Next(st, act).Some? then Next(st, act).value else st
  }

  function After(st: Claims, others: seq<Action>): Claims {
    if others == [] then st else OtherStep(After(st, others[..|others| - 1]), others[|others| - 1])
  }

  /** The state after the statement at `at`. */
  function Ran(st: Claims, p: nat, at: RecoveryPc): Claims {
    if p in st.rows && RecoveryGo(st, p, at, st.rows[p]).Some? then RecoveryGo(st, p, at, st.rows[p]).value else st
  }

  /** The states in which settle_applied_review reads the status, marks, and reads it again. */
  function FirstRead(st: Claims, turns: seq<Turn>, k: nat): Claims {
    After(st, TurnAt(turns, k).others)
  }

  function Marking(st: Claims, p: nat, turns: seq<Turn>, k: nat): Claims {
    After(Ran(FirstRead(st, turns, k), p, StatusBefore), TurnAt(turns, k + 1).others)
  }

  function SecondRead(st: Claims, p: nat, turns: seq<Turn>, k: nat): Claims {
    After(Ran(Marking(st, p, turns, k), p, Mark), TurnAt(turns, k + 2).others)
  }

  /** The state in which settle_failed_review reads the row again, and those in which it reads the status. */
  function FailureRead(st: Claims, turns: seq<Turn>, k: nat): Claims {
    After(st, TurnAt(turns, k).others)
  }

  function StatusReadAgain(st: Claims, p: nat, turns: seq<Turn>, k: nat): Claims {
    var before := Ran(After(st, TurnAt(turns, k).others), p, FailedStatus);
    if before.lock == Recovering(p, Revert)
    then After(Ran(After(before, TurnAt(turns, k + 1).others), p, Revert), TurnAt(turns, k + 2).others)
    else After(before, TurnAt(turns, k + 1).others)
  }

  predicate StillFailed(st: Claims, p: nat) {
    p in st.rows && UnsettledFailure(st.rows[p])
  }

  predicate Markable(st: Claims, p: nat) {
    p in st.rows && CanMark(st.rows[p])
  }

  /** The row after the updates of the apply body that apply to it. */
  function Attempted(row: Intent, steps: seq<(seq<Action>, Update)>): Intent {
    if steps == [] then row
    else
      var before := Attempted(row, steps[..|steps| - 1]);
      var u := Updated(before, steps[|steps| - 1].1, before.owner);
      if u.Some? then u.value else before
  }

  lemma UndisturbedTurn(turns: seq<Turn>, k: nat)
    requires Undisturbed(turns)
    ensures TurnAt(turns, k) == NOTHING
  {
  }

  /** Where settling a success ends when nobody else acts and nothing fails. */
  function AloneApplied(st: Claims, p: nat): Claims
    requires p in st.rows
  {
    if st.review.Applied? || (st.review.Applying? && CanMark(st.rows[p]))
    then st.(review := Applied, rows := Changed(st.rows, p, Finalize(st.rows[p].intent)), lock := Free)
    else st.(lock := Free)
  }

  /** Where settling a failure ends then. */
  function AloneReturned(st: Claims, p: nat): Claims
    requires p in st.rows
  {
    if st.review.Applying? || st.review.Pending?
    then st.(review := Pending, rows := Changed(st.rows, p, FinalizeFailed(st.rows[p].intent)), lock := Free)
    else st.(lock := Free)
  }

  /**
   * What a recovery run of row `p` comes to when nobody else acts and no statement fails:
   * a closed row is left alone; an attempt that succeeded, before or in this run, has its
   * review marked and the row finalized if the review is claimed or applied and the owner
   * fits; one that failed has its review returned and the row settled if the review is
   * claimed or pending; everything else is deferred with review and row as they are.
   */
  function Recovered(st: Claims, p: nat, attempt: Attempt): (Outcome, Claims)
    requires p in st.rows
  {
    var row := st.rows[p];
    if !Open(row) then (AlreadyFinalized, st.(lock := Free))
    else if row.intent.state.Failed? then Returned(st, p)
    else
      var tried := row.(intent := Attempted(row.intent, attempt.steps));
      var t := st.(rows := st.rows[p := tried], lock := Free);
      if IsSuccess(tried.intent.state) && !attempt.fails then
        if Engaged(st.review) && CanMark(row) then (AppliedReview, AloneApplied(t, p)) else (Deferred, t)
      else if tried.intent.state.Failed? then Returned(t, p)
      else (Deferred, t)
  }

  function Returned(st: Claims, p: nat): (Outcome, Claims)
    requires p in st.rows
  {
    (if st.review.Applying? || st.review.Pending? then FailedSettled else Deferred, AloneReturned(st, p))
  }

  lemma {:induction false} AttemptKeepsRow(row: Intent, steps: seq<(seq<Action>, Update)>)
    ensures var t := Attempted(row, steps);
      t.owner == row.owner && t.settled == row.settled
  {
    if steps != [] { AttemptKeepsRow(row, steps[..|steps| - 1]); }
  }

  lemma {:induction false} AttemptLeavesEnded(row: Intent, steps: seq<(seq<Action>, Update)>)
    requires !row.state.Prepared? && !row.state.InFlight?
    ensures Attempted(row, steps) == row
  {
    if steps != [] { AttemptLeavesEnded(row, steps[..|steps| - 1]); }
  }

  /** Of an attempt that has ended, such a run comes to the end all recovery runs come to. */
  lemma RecoveredIsTheEnd(st: Claims, p: nat, attempt: Attempt)
    requires p in st.rows && Ended(st.rows[p]) && WellSettled(st.rows[p])
    requires st.rows[p].intent.state.Failed? || !attempt.fails
    ensures var t := Recovered(st, p, attempt).1;
      p in t.rows && (t.review, t.rows[p]) == EndOf(st.review, st.rows[p])
  {
    AttemptLeavesEnded(st.rows[p].intent, attempt.steps);
  }

  class Recoverer {
    var st: Claims          // the database, and where everybody else stands
    var now: nat            // the turns that are over
    const turns: seq<Turn>
    const attempt: Attempt
    ghost var run: seq<Action>
    ghost const start: Claims

    ghost predicate Valid()
      reads this
    {
      Exclusive(st) && Reaches(start, run, st)
    }

    /** The recovery run stands at `at` with row `p`. */
    ghost predicate Stands(p: nat, at: RecoveryPc)
      reads this
    {
      Valid() && st.lock == Recovering(p, at) && p in st.rows
    }

    method Take(act: Action)
      requires Valid() && Next(st, act).Some?
      modifies this`st, this`run
      ensures Valid() && st == Next(old(st), act).value && run == old(run) + [act]
    {
      OneStep(st, act);
      Joined(start, run, st, [act], Next(st, act).value);
      ExclusiveStep(st, act);
      st, run := Next(st, act).value, run + [act];
    }

    /** The given steps of others. */
    method Elsewhere(p: nat, at: RecoveryPc, others: seq<Action>)
      requires Stands(p, at)
      modifies this`st, this`run
      ensures Stands(p, at) && st == After(old(st), others)
      ensures old(Succeeded(st.rows, p)) ==> Succeeded(st.rows, p)
      ensures old(st.review) == Applied ==> st.review == Applied
      ensures !old(UnsettledFailure(st.rows[p])) ==> !UnsettledFailure(st.rows[p])
    {
      for k := 0 to |others|
        invariant Stands(p, at) && st == After(old(st), others[..k])
        invariant old(Succeeded(st.rows, p)) ==> Succeeded(st.rows, p)
        invariant old(st.review) == Applied ==> st.review == Applied
        invariant !old(UnsettledFailure(st.rows[p])) ==> !UnsettledFailure(st.rows[p])
      {
        assert others[..k + 1][..k] == others[..k];
        if !others[k].Recovery? && Next(st, others[k]).Some? {
          BesideRecovery(st, others[k], p);
          Take(others[k]);
        }
      }
      assert others[..|others|] == others;
    }

    /** Others act, and the database may fail; an error outside the apply body ends the run. */
    method Reach(p: nat, at: RecoveryPc) returns (broken: bool)
      requires Stands(p, at) && !at.Reprepare? && !at.Execute?
      modifies this
      ensures Valid() && now == old(now) + 1 && broken == TurnAt(turns, old(now)).fails
      ensures st == (if broken then After(old(st), TurnAt(turns, old(now)).others).(lock := Free)
                     else After(old(st), TurnAt(turns, old(now)).others))
      ensures !broken ==> Stands(p, at)
      ensures old(Succeeded(st.rows, p)) ==> Succeeded(st.rows, p)
      ensures old(st.review) == Applied ==> st.review == Applied
      ensures !old(UnsettledFailure(st.rows[p])) ==> p in st.rows && !UnsettledFailure(st.rows[p])
      ensures Undisturbed(turns) ==> !broken && st == old(st)
    {
      if Undisturbed(turns) { UndisturbedTurn(turns, now); }
      Elsewhere(p, at, TurnAt(turns, now).others);
      broken := TurnAt(turns, now).fails;
      now := now + 1;
      if broken { Take(Recovery(Error)); }
    }

    /** The next statement of the run. */
    method Statement(p: nat, at: RecoveryPc)
      requires Stands(p, at) && RecoveryGo(st, p, at, st.rows[p]).Some?
      modifies this`st, this`run
      ensures Valid() && st == RecoveryGo(old(st), p, at, old(st).rows[p]).value && st == Ran(old(st), p, at)
    {
      Take(Recovery(Go));
    }

    /** `settle_applied_review` from the second status read on. */
    method FinishApplied(p: nat) returns (settled: bool)
      requires Stands(p, StatusAfter) && Succeeded(st.rows, p)
      modifies this
      ensures Valid() && st.lock.Free?
      ensures settled ==> st.review == Applied && p in st.rows && st.rows[p].intent.state.Finalized?
      ensures settled <==> Calm(turns, old(now), 2) && FirstRead(old(st), turns, old(now)).review.Applied?
      ensures Undisturbed(turns) && old(st).review.Applied? ==> settled && st == AloneApplied(old(st), p)
    {
      var broken := Reach(p, StatusAfter);
      if broken { return false; }
      var status := st.review;
      Statement(p, StatusAfter);
      if status != Applied { return false; }
      broken := Reach(p, Finish);
      if broken { return false; }
      Statement(p, Finish);
      return true;
    }

    /**
     * `settle_applied_review` succeeds exactly if no statement fails, the review is claimed or
     * applied at the first read, the row can be marked, and the review is applied at the second.
     */
    method SettleAppliedReview(p: nat) returns (settled: bool)
      requires Stands(p, StatusBefore) && Succeeded(st.rows, p)
      modifies this
      ensures Valid() && st.lock.Free?
      ensures settled ==> st.review == Applied && p in st.rows && st.rows[p].intent.state.Finalized?
      ensures settled <==>
        && Calm(turns, old(now), 4) && Engaged(FirstRead(old(st), turns, old(now)).review)
        && Markable(Marking(old(st), p, turns, old(now)), p) && SecondRead(old(st), p, turns, old(now)).review.Applied?
      ensures Undisturbed(turns) && CanMark(old(st).rows[p]) ==>
        (settled <==> Engaged(old(st).review)) && st == AloneApplied(old(st), p)
      ensures Undisturbed(turns) && !CanMark(old(st).rows[p]) ==> !settled && st == old(st).(lock := Free)
    {
      var broken := Reach(p, StatusBefore);
      if broken { return false; }
      var status := st.review;
      Statement(p, StatusBefore);
      if status != Applying && status != Applied { return false; }
      broken := Reach(p, Mark);
      if broken { return false; }
      var marks := CanMark(st.rows[p]);
      Statement(p, Mark);
      if !marks { return false; }
      settled := FinishApplied(p);
    }

    /** `settle_failed_review` from the second status read on. */
    method FinishFailed(p: nat) returns (settled: bool)
      requires Stands(p, Verify)
      modifies this
      ensures Valid() && st.lock.Free?
      ensures settled ==> p in st.rows && !UnsettledFailure(st.rows[p])
      ensures settled <==> Calm(turns, old(now), 2) && FirstRead(old(st), turns, old(now)).review.Pending?
      ensures Undisturbed(turns) && !old(st).review.Applying? ==> st == AloneReturned(old(st), p)
    {
      var broken := Reach(p, Verify);
      if broken { return false; }
      var status := st.review;
      Statement(p, Verify);
      if status != Pending { return false; }
      broken := Reach(p, Settle);
      if broken { return false; }
      Statement(p, Settle);
      return true;
    }

    /** `settle_failed_review` from the first status read on. */
    method ReturnFailed(p: nat) returns (settled: bool)
      requires Stands(p, FailedStatus)
      modifies this
      ensures Valid() && st.lock.Free?
      ensures settled ==> p in st.rows && !UnsettledFailure(st.rows[p])
      ensures Calm(turns, old(now), 4) ==>
        (settled <==> StatusReadAgain(old(st), p, turns, old(now)).review.Pending?)
      ensures Undisturbed(turns) ==>
        (settled <==> old(st).review.Applying? || old(st).review.Pending?) && st == AloneReturned(old(st), p)
    {
      var broken := Reach(p, FailedStatus);
      if broken { return false; }
      var status := st.review;
      Statement(p, FailedStatus);
      if status == Applying {
        broken := Reach(p, Revert);
        if broken { return false; }
        Statement(p, Revert);
      }
      settled := FinishFailed(p);
    }

    /**
     * `settle_failed_review`: without failing statements it succeeds exactly if the failure is
     * settled already when it is read again, or the review is pending at the second status read.
     */
    method SettleFailedReview(p: nat) returns (settled: bool)
      requires Stands(p, FailedReread)
      modifies this
      ensures Valid() && st.lock.Free?
      ensures settled ==> p in st.rows && !UnsettledFailure(st.rows[p])
      ensures Calm(turns, old(now), 5) ==>
        (settled <==> !StillFailed(FailureRead(old(st), turns, old(now)), p)
                      || StatusReadAgain(Ran(FailureRead(old(st), turns, old(now)), p, FailedReread),
                                         p, turns, old(now) + 1).review.Pending?)
      ensures Undisturbed(turns) && StillFailed(old(st), p) ==>
        (settled <==> old(st).review.Applying? || old(st).review.Pending?) && st == AloneReturned(old(st), p)
    {
      var broken := Reach(p, FailedReread);
      if broken { return false; }
      var unsettled := UnsettledFailure(st.rows[p]);
      Statement(p, FailedReread);
      if !unsettled { return true; }
      settled := ReturnFailed(p);
    }

    /** The apply body of the recovery run, up to its result. */
    method Body(p: nat) returns (applied: bool)
      requires Stands(p, Reprepare)
      modifies this`st, this`run
      ensures if applied then Stands(p, StatusBefore) && Succeeded(st.rows, p) else Stands(p, AfterError)
      ensures applied <==> !attempt.fails && Succeeded(st.rows, p)
      ensures UndisturbedSteps(attempt.steps) && Open(old(st).rows[p]) && !old(st).rows[p].intent.state.Failed? ==>
        var row := old(st).rows[p];
        st == old(st).(rows := old(st).rows[p := row.(intent := Attempted(row.intent, attempt.steps))], lock := st.lock)
    {
      Take(Recovery(Go));
      ghost var before := st;
      var k := 0;
      while k < |attempt.steps|
        invariant k <= |attempt.steps| && Stands(p, Execute)
        invariant UndisturbedSteps(attempt.steps) ==>
          p in before.rows && var row := before.rows[p];
          st == before.(rows := before.rows[p := row.(intent := Attempted(row.intent, attempt.steps[..k]))])
      {
        assert attempt.steps[..k + 1][..k] == attempt.steps[..k];
        Elsewhere(p, Execute, attempt.steps[k].0);
        var u := attempt.steps[k].1;
        if Updated(st.rows[p].intent, u, st.rows[p].intent.owner).Some? { Take(Recovery(Work(u))); }
        k := k + 1;
      }
      assert attempt.steps[..|attempt.steps|] == attempt.steps;
      applied := !attempt.fails && IsSuccess(st.rows[p].intent.state);
      if applied {
        Take(Recovery(Go));
      } else {
        Take(Recovery(Error));
      }
    }

    /** The apply body, and settling what comes of it. */
    method ApplyAndSettle(p: nat) returns (r: Outcome)
      requires Stands(p, Reprepare) && Open(st.rows[p]) && !st.rows[p].intent.state.Failed?
      modifies this
      ensures Valid() && st.lock.Free? && r != AlreadyFinalized
      ensures r == AppliedReview ==> st.review == Applied && p in st.rows && st.rows[p].intent.state.Finalized?
      ensures r == FailedSettled ==> p in st.rows && !UnsettledFailure(st.rows[p])
      ensures Undisturbed(turns) && UndisturbedSteps(attempt.steps) ==> (r, st) == Recovered(old(st), p, attempt)
    {
      AttemptKeepsRow(st.rows[p].intent, attempt.steps);
      var applied := Body(p);
      if applied {
        var done := SettleAppliedReview(p);
        return if done then AppliedReview else Deferred;
      }
      var broken := Reach(p, AfterError);
      if broken { return Deferred; }
      var failed := st.rows[p].intent.state.Failed?;
      Statement(p, AfterError);
      if !failed { return Deferred; }
      var settled := SettleFailedReview(p);
      return if settled then FailedSettled else Deferred;
    }

    /** `recover_review_apply_intent`, from the lock to its release. */
    method RecoverReviewApplyIntent(p: nat) returns (r: Outcome)
      requires Valid() && st.lock.Free? && p in st.listed && p in st.rows
      modifies this
      ensures Valid() && st.lock.Free?
      ensures r == AppliedReview ==> st.review == Applied && p in st.rows && st.rows[p].intent.state.Finalized?
      ensures r == FailedSettled || r == AlreadyFinalized ==> p in st.rows && !UnsettledFailure(st.rows[p])
      ensures Undisturbed(turns) && UndisturbedSteps(attempt.steps) ==> (r, st) == Recovered(old(st), p, attempt)
    {
      Take(Recover(p));
      var broken := Reach(p, Reread);
      if broken { return Deferred; }
      var intent := st.rows[p].intent;
      Take(Recovery(Go));
      if intent.settled { return AlreadyFinalized; }
      if intent.state.Failed? {
        var settled := SettleFailedReview(p);
        return if settled then FailedSettled else Deferred;
      }
      r := ApplyAndSettle(p);
    }
  }
}
