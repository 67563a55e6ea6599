/**
 * Why the condition of ReviewClaimSafety is exact: after a fair run, every step that is
 * not fair can be continued to a finalized success beside a review that is not applied;
 * and each kind of such a step is reached.
 */
module ReviewClaimGaps {
  import opened Options
  import opened ApplyIntents
  import opened ReviewClaims
  import opened ReviewClaimSafety

  /** Some continuation finalizes a success beside a review that is not applied. */
  ghost predicate CanLose(st: Claims) {
    exists run, t :: Reaches(st, run, t) && !Good(t)
  }

  lemma LostAlready(st: Claims, p: nat)
    requires p in st.rows && st.rows[p].intent.state.Finalized? && !st.review.Applied?
    ensures CanLose(st)
  {
    assert Reaches(st, [], st);
  }

  lemma LosesAfter(st: Claims, act: Action)
    requires Next(st, act).Some? && CanLose(Next(st, act).value)
    ensures CanLose(st)
  {
    var run, t :| Reaches(Next(st, act).value, run, t) && !Good(t);
    OneStep(st, act);
    Joined(st, [act], Next(st, act).value, run, t);
  }

  // ----------------------- a process applies although its claim is gone

  predicate Stands(st: Claims, i: nat, at: OwnerPc) {
    i in st.owners && st.owners[i].at == at && !Engaged(st.review)
  }

  predicate RowIs(st: Claims, p: nat, state: State) {
    p in st.rows && st.rows[p].intent.state == state
  }

  lemma FromMarked(st: Claims, i: nat, p: nat)
    requires Stands(st, i, Marked(p)) && RowIs(st, p, Confirmed)
    ensures CanLose(st)
  {
    LostAlready(Next(st, Own(i, FinalizeRow)).value, p);
    LosesAfter(st, Own(i, FinalizeRow));
  }

  lemma FromReturned(st: Claims, i: nat, p: nat)
    requires Stands(st, i, Returned(p)) && RowIs(st, p, Confirmed)
    ensures CanLose(st)
  {
    FromMarked(Next(st, Own(i, MarkReview)).value, i, p);
    LosesAfter(st, Own(i, MarkReview));
  }

  lemma FromConfirmed(st: Claims, i: nat, p: nat)
    requires Stands(st, i, Body(p)) && RowIs(st, p, Confirmed)
    ensures CanLose(st)
  {
    FromReturned(Next(st, Own(i, Return)).value, i, p);
    LosesAfter(st, Own(i, Return));
  }

  lemma FromInFlight(st: Claims, i: nat, p: nat)
    requires Stands(st, i, Body(p)) && RowIs(st, p, InFlight) && st.rows[p].intent.owner == st.owners[i].id
    ensures CanLose(st)
  {
    FromConfirmed(Next(st, Own(i, UpdateRow(ToConfirmed))).value, i, p);
    LosesAfter(st, Own(i, UpdateRow(ToConfirmed)));
  }

  lemma FromPrepared(st: Claims, i: nat, p: nat)
    requires Stands(st, i, Body(p)) && RowIs(st, p, ApplyIntents.Prepared)
    ensures CanLose(st)
  {
    FromInFlight(Next(st, Own(i, UpdateRow(ToInFlight))).value, i, p);
    LosesAfter(st, Own(i, UpdateRow(ToInFlight)));
  }

  lemma {:induction false} Unused(keys: set<nat>) returns (p: nat)
    ensures forall q :: q in keys ==> q < p
  {
    if keys == {} {
      p := 0;
    } else {
      var k := Element(keys);
      var rest := Unused(keys - {k});
      p := if k < rest then rest else k + 1;
      forall q | q in keys ensures q < p {
        if q != k { assert q in keys - {k}; }
      }
    }
  }

  lemma FromLocked(st: Claims, i: nat)
    requires Stands(st, i, Locked)
    ensures CanLose(st)
  {
    var p := Unused(st.rows.Keys);
    assert p !in st.rows.Keys;
    FromPrepared(Next(st, Own(i, PrepareRow(p))).value, i, p);
    LosesAfter(st, Own(i, PrepareRow(p)));
  }

  /** The source lock can always be had: its holder may die. */
  predicate LockCanBeHad(st: Claims, i: nat) {
    st.lock.Held? ==> st.lock.i != i && st.lock.i in st.owners
  }

  lemma FromClaimedFree(st: Claims, i: nat)
    requires Stands(st, i, Claimed) && st.lock.Free?
    ensures CanLose(st)
  {
    FromLocked(Next(st, Own(i, TakeLock)).value, i);
    LosesAfter(st, Own(i, TakeLock));
  }

  lemma FromClaimed(st: Claims, i: nat)
    requires Stands(st, i, Claimed) && LockCanBeHad(st, i)
    ensures CanLose(st)
  {
    match st.lock {
      case Free => FromClaimedFree(st, i);
      case Held(j) =>
        FromClaimedFree(Next(st, Own(j, Crash)).value, i);
        LosesAfter(st, Own(j, Crash));
      case Recovering(_, _) =>
        FromClaimedFree(Next(st, Recovery(Die)).value, i);
        LosesAfter(st, Recovery(Die));
    }
  }

  // ------------------------------------- who takes the claim of process `i`

  /** The claim of process `i` is fresh. */
  predicate Claiming(st: Claims, i: nat) {
    i in st.owners && st.owners[i].at.Claimed? && st.review.Applying? && LockCanBeHad(st, i)
  }

  lemma RevertTakesClaim(st: Claims, i: nat, p: nat)
    requires Claiming(st, i) && st.lock == Recovering(p, Revert) && p in st.rows
    ensures CanLose(st)
  {
    FromClaimed(Next(st, Recovery(Go)).value, i);
    LosesAfter(st, Recovery(Go));
  }

  /** A recovery run that has read the failure again. */
  lemma StaleRecoveryTakesClaim(st: Claims, i: nat, p: nat)
    requires Claiming(st, i) && st.lock == Recovering(p, FailedStatus) && p in st.rows
    ensures CanLose(st)
  {
    RevertTakesClaim(Next(st, Recovery(Go)).value, i, p);
    LosesAfter(st, Recovery(Go));
  }

  lemma RereadTakesClaim(st: Claims, i: nat, p: nat)
    requires Claiming(st, i) && st.lock == Recovering(p, FailedReread) && p in st.rows && UnsettledFailure(st.rows[p])
    ensures CanLose(st)
  {
    StaleRecoveryTakesClaim(Next(st, Recovery(Go)).value, i, p);
    LosesAfter(st, Recovery(Go));
  }

  lemma ListedFailureTakesClaim(st: Claims, i: nat, p: nat)
    requires Claiming(st, i) && st.lock.Free? && p in st.listed && p in st.rows && UnsettledFailure(st.rows[p])
    ensures CanLose(st)
  {
    var a := Next(st, Recover(p)).value;
    RereadTakesClaim(Next(a, Recovery(Go)).value, i, p);
    LosesAfter(a, Recovery(Go));
    LosesAfter(st, Recover(p));
  }

  lemma FreeFailureTakesClaim(st: Claims, i: nat, p: nat)
    requires Claiming(st, i) && st.lock.Free? && Candidate(st.rows, p) && UnsettledFailure(st.rows[p])
    ensures CanLose(st)
  {
    ListedFailureTakesClaim(Next(st, List(p)).value, i, p);
    LosesAfter(st, List(p));
  }

  /** A failure that is still unsettled when the review is claimed. */
  lemma FailureTakesClaim(st: Claims, i: nat, p: nat)
    requires Claiming(st, i) && Candidate(st.rows, p) && UnsettledFailure(st.rows[p])
    ensures CanLose(st)
  {
    match st.lock {
      case Free => FreeFailureTakesClaim(st, i, p);
      case Held(j) =>
        FreeFailureTakesClaim(Next(st, Own(j, Crash)).value, i, p);
        LosesAfter(st, Own(j, Crash));
      case Recovering(_, _) =>
        FreeFailureTakesClaim(Next(st, Recovery(Die)).value, i, p);
        LosesAfter(st, Recovery(Die));
    }
  }

  /** A process whose own attempt failed and that has not reverted the review yet. */
  lemma RevertingTakesClaim(st: Claims, i: nat, j: nat)
    requires Claiming(st, i) && j != i && j in st.owners && st.lock != Held(j)
    requires st.owners[j].at.Reverting? || st.owners[j].at.Conflicted?
    ensures CanLose(st)
  {
    FromClaimed(Next(st, Own(j, RevertReview)).value, i);
    LosesAfter(st, Own(j, RevertReview));
  }

  lemma ErroredTakesClaim(st: Claims, i: nat, j: nat)
    requires Claiming(st, i) && j != i && j in st.owners && st.lock != Held(j)
    requires st.owners[j].at.Errored? && NoneNonterminal(st.rows)
    ensures CanLose(st)
  {
    RevertingTakesClaim(Next(st, Own(j, Check)).value, i, j);
    LosesAfter(st, Own(j, Check));
  }

  lemma FailedBodyTakesClaim(st: Claims, i: nat, j: nat)
    requires Claiming(st, i) && j != i && j in st.owners && st.lock == Held(j)
    requires st.owners[j].at.Body? && NoneNonterminal(st.rows)
    ensures CanLose(st)
  {
    ErroredTakesClaim(Next(st, Own(j, Fail)).value, i, j);
    LosesAfter(st, Own(j, Fail));
  }

  // ------------------------------------------------------------ main results

  lemma FailedIsCandidate(st: Claims, p: nat)
    requires Inv(st) && p in st.rows && UnsettledFailure(st.rows[p])
    ensures Candidate(st.rows, p)
  {
  }

  /** While a review can be claimed, another process is either settling or on its way to revert it. */
  lemma OthersWhileClaimable(st: Claims, j: nat)
    requires Inv(st) && !Engaged(st.review) && j in st.owners && !st.owners[j].at.Settling?
    ensures NoneNonterminal(st.rows)
    ensures var at := st.owners[j].at;
      at.Errored? || at.Conflicted? || at.Reverting? || (at.Body? && st.lock == Held(j))
    ensures !st.owners[j].at.Body? ==> st.lock != Held(j)
  {
    assert OwnerOk(st, j, st.owners[j].at);
    forall p | p in st.rows ensures !Nonterminal(st.rows[p]) { assert RowOk(st.rows[p], st.review); }
  }

  lemma UnquietClaimLoses(st: Claims, i: nat, kind: Kind, id: string)
    requires Inv(st) && Next(st, Claim(i, kind, id)).Some? && !Quiet(st)
    ensures CanLose(Next(st, Claim(i, kind, id)).value)
  {
    var t := Next(st, Claim(i, kind, id)).value;
    assert Claiming(t, i);
    if AboutToRevert(st.lock) {
      var p := st.lock.p;
      if st.lock.at.Revert? { RevertTakesClaim(t, i, p); } else { StaleRecoveryTakesClaim(t, i, p); }
    } else if !AllSettling(st.owners) {
      var j :| j in st.owners && !st.owners[j].at.Settling?;
      OthersWhileClaimable(st, j);
      match st.owners[j].at {
        case Errored => ErroredTakesClaim(t, i, j);
        case Body(_) => FailedBodyTakesClaim(t, i, j);
        case _ => RevertingTakesClaim(t, i, j);
      }
    } else {
      var p :| p in st.rows && UnsettledFailure(st.rows[p]);
      FailedIsCandidate(st, p);
      FailureTakesClaim(t, i, p);
    }
  }

  lemma UnfairSweepLoses(st: Claims)
    requires Inv(st) && Next(st, Sweep).Some? && st.review.Applying? && !NoneUnprepared(st.owners)
    ensures CanLose(Next(st, Sweep).value)
  {
    var i :| i in st.owners && Unprepared(st.owners[i].at);
    var t := Next(st, Sweep).value;
    assert OwnerOk(st, i, st.owners[i].at);
    if st.owners[i].at.Locked? { FromLocked(t, i); } else { FromClaimed(t, i); }
  }

  /** After a fair run, a step that is not fair can lose the property. */
  lemma UnfairStepLoses(run: seq<Action>, st: Claims, act: Action)
    requires FairRun(INIT, run, st) && Next(st, act).Some? && !Fair(st, act)
    ensures CanLose(Next(st, act).value)
  {
    FairRunsKeep(INIT, run, st);
    if act.Claim? { UnquietClaimLoses(st, act.i, act.kind, act.id); } else { UnfairSweepLoses(st); }
  }

  lemma {:induction false} FairOneMore(from: Claims, run: seq<Action>, st: Claims, act: Action)
    requires FairRun(from, run, st) && Next(st, act).Some? && Fair(st, act)
    ensures FairRun(from, run + [act], Next(st, act).value)
    decreases |run|
  {
    if run == [] {
      assert [act][1..] == [];
    } else {
      assert (run + [act])[1..] == run[1..] + [act];
      FairOneMore(Next(from, run[0]).value, run[1..], st, act);
    }
  }

  /** As long as every later step is fair too, nothing is lost. */
  ghost predicate SafeWhileFair(st: Claims) {
    forall run, t :: FairRun(st, run, t) ==> Good(t)
  }

  lemma {:induction false} FairJoined(a: Claims, r1: seq<Action>, b: Claims, r2: seq<Action>, c: Claims)
    requires FairRun(a, r1, b) && FairRun(b, r2, c)
    ensures FairRun(a, r1 + r2, c)
    decreases |r1|
  {
    if r1 == [] {
      assert r1 + r2 == r2;
    } else {
      assert (r1 + r2)[1..] == r1[1..] + r2;
      FairJoined(Next(a, r1[0]).value, r1[1..], b, r2, c);
    }
  }

  /**
   * The condition is exact: the next step after a fair run is fair, and all is well while
   * that goes on, or it can lose the property.
   */
  lemma FairIsExact(run: seq<Action>, st: Claims, act: Action)
    requires FairRun(INIT, run, st) && Next(st, act).Some?
    ensures Fair(st, act) ==> SafeWhileFair(Next(st, act).value)
    ensures !Fair(st, act) ==> CanLose(Next(st, act).value)
  {
    if Fair(st, act) {
      var t := Next(st, act).value;
      FairOneMore(INIT, run, st, act);
      forall more, u | FairRun(t, more, u) ensures Good(u) {
        FairJoined(INIT, run + [act], t, more, u);
        FinalizedSuccessIsApplied(run + [act] + more, u);
      }
    } else {
      UnfairStepLoses(run, st, act);
    }
  }

  // ---------------------------------------- each unfair step is reached

  ghost predicate FairlyReached(st: Claims) {
    exists run :: FairRun(INIT, run, st)
  }

  lemma Start()
    ensures FairlyReached(INIT)
  {
    assert FairRun(INIT, [], INIT);
  }

  lemma Then(st: Claims, act: Action) returns (t: Claims)
    requires FairlyReached(st) && Next(st, act).Some? && Fair(st, act)
    ensures FairlyReached(t) && t == Next(st, act).value
  {
    t := Next(st, act).value;
    var run :| FairRun(INIT, run, st);
    FairOneMore(INIT, run, st, act);
  }

  lemma DecideAndClaim(st: Claims, i: nat, id: string) returns (t: Claims)
    requires FairlyReached(st) && st.review.Pending? && Quiet(st) && i !in st.owners && id != DRAIN_OWNER
    ensures FairlyReached(t) && t == st.(review := Applying, owners := st.owners[i := Owner(Human, id, Claimed)])
  {
    var a := Then(st, Decide(Approved));
    t := Then(a, Claim(i, Human, id));
  }

  lemma PrepareAttempt(st: Claims, i: nat, o: Owner, p: nat) returns (t: Claims)
    requires FairlyReached(st) && i in st.owners && st.owners[i] == o && o.at.Claimed? && st.lock.Free?
    ensures FairlyReached(t)
    ensures t == At(st, i, o, Body(p)).(lock := Held(i), rows := PreparedRows(st.rows, p, o.kind, o.id))
  {
    var a := Then(st, Own(i, TakeLock));
    t := Then(a, Own(i, PrepareRow(p)));
    assert st.owners[i := o.(at := Locked)][i := o.(at := Body(p))] == st.owners[i := o.(at := Body(p))];
  }

  /** The attempt of process `i` fails and its process reads the error. */
  lemma FailAttempt(st: Claims, i: nat, o: Owner, p: nat) returns (t: Claims)
    requires FairlyReached(st) && i in st.owners && st.owners[i] == o && o.at == Body(p) && st.lock == Held(i)
    requires p in st.rows && st.rows[p].intent.state.Prepared?
    ensures FairlyReached(t)
    ensures t == At(st, i, o, Errored).(lock := Free,
              rows := st.rows[p := st.rows[p].(intent := st.rows[p].intent.(state := Failed, owner := o.id))])
  {
    var a := Then(st, Own(i, UpdateRow(ToInFlight)));
    var b := Then(a, Own(i, UpdateRow(ToFailed)));
    t := Then(b, Own(i, Fail));
    assert b.rows == st.rows[p := st.rows[p].(intent := st.rows[p].intent.(state := Failed, owner := o.id))];
  }

  const USER := "0190a5a6-0000-7000-8000-000000000001"

  function FailedRow(settled: bool): map<nat, Row> {
    map[0 := Row(Intent(State.Failed, USER, 0, settled), Human, 0)]
  }

  /** A first human attempt has failed, `n` batches of the drain still hold the review. */
  function Failing(lock: Lock, listed: set<nat>, n: nat): Claims {
    Claims(Applying, FailedRow(false), map[0 := Owner(Human, USER, Errored)], lock, listed, n)
  }

  lemma FirstFailure(st: Claims, n: nat) returns (t: Claims)
    requires FairlyReached(st) && st == INIT.(drains := n)
    ensures FairlyReached(t) && t == Failing(Free, {}, n)
  {
    var a := DecideAndClaim(st, 0, USER);
    var o := Owner(Human, USER, Claimed);
    var b := PrepareAttempt(a, 0, o, 0);
    t := FailAttempt(b, 0, o.(at := Body(0)), 0);
    assert t.rows == FailedRow(false) && t.owners == map[0 := Owner(Human, USER, Errored)];
  }

  lemma Reverted(st: Claims, i: nat, o: Owner) returns (t: Claims)
    requires FairlyReached(st) && i in st.owners && st.owners[i] == o && o.at.Errored? && o.kind.Human?
    requires NoneNonterminal(st.rows) && st.review.Applying? && st.lock != Held(i)
    ensures FairlyReached(t) && t == At(st, i, o, Settling).(review := Pending)
  {
    var a := Then(st, Own(i, Check));
    t := Then(a, Own(i, RevertReview));
    assert st.owners[i := o.(at := Reverting)][i := o.(at := Settling)] == st.owners[i := o.(at := Settling)];
  }

  /** A review is claimable while its failure is unsettled: the process has reverted but not settled yet. */
  lemma ClaimBesideUnsettledFailureIsReached() returns (st: Claims)
    ensures FairlyReached(st) && Claimable(st.review, Human) && AllSettling(st.owners) && !AboutToRevert(st.lock)
    ensures !NoUnsettledFailure(st.rows)
  {
    Start();
    var a := FirstFailure(INIT, 0);
    var b := Reverted(a, 0, Owner(Human, USER, Errored));
    st := Then(b, Decide(Approved));
    assert UnsettledFailure(st.rows[0]);
  }

  /** Recovery has read the failure again while the failing process has yet to read its error. */
  lemma FailureRead() returns (t: Claims)
    ensures FairlyReached(t) && t == Failing(Recovering(0, FailedStatus), {0}, 0)
  {
    Start();
    var a := FirstFailure(INIT, 0);
    var b := Then(a, List(0));
    var c := Then(b, Recover(0));
    var d := Then(c, Recovery(Go));
    t := Then(d, Recovery(Go));
  }

  lemma SettledRow()
    ensures AllSettled(FailedRow(false)) == FailedRow(true)
  {
  }

  /**
   * A stale snapshot acts: recovery has read the failure again, then the failing process
   * reverts and settles it and the review is approved anew. No failure is unsettled and
   * nobody works on the review, and still recovery may take the next claim.
   */
  lemma ClaimBesideStaleRecoveryIsReached() returns (st: Claims)
    ensures FairlyReached(st) && AboutToRevert(st.lock)
    ensures st.review == Approved && st.rows == FailedRow(true) && st.owners == map[]
    ensures NoUnsettledFailure(st.rows)
  {
    var a := FailureRead();
    var b := Reverted(a, 0, Owner(Human, USER, Errored));
    var c := Then(b, Own(0, SettleRows));
    SettledRow();
    st := Then(c, Decide(Approved));
    assert st.owners == map[];
  }

  /** The sweep returns a review to pending although the process that claimed it has yet to read its error. */
  lemma ClaimBesideErrorPathIsReached() returns (st: Claims)
    ensures FairlyReached(st) && Claimable(st.review, Human) && NoUnsettledFailure(st.rows) && !AboutToRevert(st.lock)
    ensures !AllSettling(st.owners)
  {
    Start();
    var a := DecideAndClaim(INIT, 0, USER);
    var b := Then(a, Own(0, Fail));
    var c := Then(b, Sweep);
    st := Then(c, Decide(Approved));
    assert st.owners[0].at.Errored?;
  }

  /** The sweep finds a claim without an intent. */
  lemma SweepOfFreshClaimIsReached() returns (st: Claims)
    ensures FairlyReached(st) && st.review.Applying? && Next(st, Sweep).Some? && !NoneUnprepared(st.owners)
  {
    Start();
    st := DecideAndClaim(INIT, 0, USER);
    assert st.owners[0].at.Claimed?;
  }
}
