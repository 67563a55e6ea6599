/**
 * What review recovery achieves: every complete run reaches the same end however often
 * earlier ones died, and which fenced reviews it can never settle. The routines
 * themselves run here statement by statement while others act in between.
 */
module ReviewRecovery {
  import opened Options
  import opened ApplyIntents
  import opened ReviewClaims
  import opened ReviewClaimSafety
  import opened ReviewClaimGaps

  // --------------------------------------------------- the end of a row

  /** The row's attempt is over; only its review has to be settled. */
  predicate Ended(r: Row) {
    !r.intent.state.Prepared? && !r.intent.state.InFlight?
  }

  /** A row is closed by finalizing it, or as a settled failure. */
  predicate WellSettled(r: Row) {
    var s := r.intent.state;
    (s.Finalized? ==> !Open(r)) && (Nonterminal(r) ==> Open(r))
  }

  /** Where review and row end: a success applies a claimed review, a failure returns it. */
  function EndOf(review: Status, r: Row): (Status, Row) {
    if !Open(r) then (review, r)
    else if r.intent.state.Failed? then
      if review.Applying? || review.Pending? then (Pending, r.(intent := r.intent.(settled := true))) else (review, r)
    else if Engaged(review) && CanMark(r) && Finalize(r.intent).Some? then
      (Applied, r.(intent := Finalize(r.intent).value))
    else (review, r)
  }

  predicate OthersClosed(rows: map<nat, Row>, p: nat) {
    forall q :: q in rows && q != p ==> !Open(rows[q])
  }

  /** Recovery and the sweep, but no decision and no claim. */
  predicate Unattended(act: Action) {
    act.List? || act.Recover? || act.Recovery? || act.Sweep?
  }

  /** What a recovery run of row `p` knows at its program point. */
  predicate PlaceOk(review: Status, r: Row, at: RecoveryPc) {
    match at
    case Reprepare => !r.intent.state.Failed?
    case StatusBefore => IsSuccess(r.intent.state)
    case Mark => IsSuccess(r.intent.state) && Engaged(review)
    case StatusAfter | Finish => IsSuccess(r.intent.state) && review.Applied? && CanMark(r)
    case FailedReread => r.intent.state.Failed?
    case FailedStatus | Revert => UnsettledFailure(r)
    case Verify => UnsettledFailure(r) && !review.Applying?
    case Settle => UnsettledFailure(r) && review.Pending?
    case _ => true
  }

  predicate Alone(st: Claims, p: nat) {
    && st.owners == map[] && p in st.rows && WellSettled(st.rows[p]) && OthersClosed(st.rows, p)
    && (!Open(st.rows[p]) ==> st.review.Pending? || st.review.Applied?)
    && (st.lock.Recovering? ==>
          if st.lock.p == p then PlaceOk(st.review, st.rows[p], st.lock.at)
          else st.lock.at.Reread? && st.lock.p in st.rows)
    && st.listed <= st.rows.Keys && !st.lock.Held?
  }

  /** An attempt that has ended stays so, and so does its end. */
  predicate KeepsEnd(st: Claims, t: Claims, p: nat)
    requires p in st.rows && p in t.rows
  {
    Ended(st.rows[p]) ==> Ended(t.rows[p]) && EndOf(t.review, t.rows[p]) == EndOf(st.review, st.rows[p])
  }

  lemma AppliedPartKeepsEnd(st: Claims, p: nat, at: RecoveryPc)
    requires Alone(st, p) && st.lock == Recovering(p, at) && RecoveryGo(st, p, at, st.rows[p]).Some?
    requires at.Reprepare? || at.Execute? || at.StatusBefore? || at.Mark? || at.StatusAfter? || at.Finish?
    ensures var t := RecoveryGo(st, p, at, st.rows[p]).value; Alone(t, p) && KeepsEnd(st, t, p)
  {
    var t := RecoveryGo(st, p, at, st.rows[p]).value;
    assert forall q :: q in t.rows && q != p ==> t.rows[q] == st.rows[q];
  }

  lemma FailedPartKeepsEnd(st: Claims, p: nat, at: RecoveryPc)
    requires Alone(st, p) && st.lock == Recovering(p, at)
    requires at.Reread? || at.AfterError? || at.FailedReread?
             || at.FailedStatus? || at.Revert? || at.Verify? || at.Settle?
    ensures var t := RecoveryGo(st, p, at, st.rows[p]).value; Alone(t, p) && KeepsEnd(st, t, p)
  {
    var t := RecoveryGo(st, p, at, st.rows[p]).value;
    assert forall q :: q in t.rows && q != p ==> t.rows[q] == st.rows[q];
  }

  lemma AloneGo(st: Claims, p: nat)
    requires Alone(st, p) && st.lock.Recovering? && st.lock.p == p && Next(st, Recovery(Go)).Some?
    ensures var t := Next(st, Recovery(Go)).value; Alone(t, p) && KeepsEnd(st, t, p)
  {
    var at := st.lock.at;
    assert Next(st, Recovery(Go)) == RecoveryGo(st, p, at, st.rows[p]);
    match at {
      case Reprepare | Execute | StatusBefore | Mark | StatusAfter | Finish => AppliedPartKeepsEnd(st, p, at);
      case _ => FailedPartKeepsEnd(st, p, at);
    }
  }

  lemma AloneStep(st: Claims, p: nat, act: Action)
    requires Alone(st, p) && Unattended(act) && Next(st, act).Some?
    ensures var t := Next(st, act).value; Alone(t, p) && KeepsEnd(st, t, p)
  {
    match act {
      case Recovery(Go) => if st.lock.p == p { AloneGo(st, p); }
      case Recovery(Work(u)) => if st.lock.p == p { AloneWork(st, p, u); }
      case Sweep => assert Open(st.rows[p]) ==> !st.review.Approved? && !st.review.Edited?;
      case _ =>
    }
  }

  lemma AloneWork(st: Claims, p: nat, u: Update)
    requires Alone(st, p) && st.lock.Recovering? && st.lock.p == p && Next(st, Recovery(Work(u))).Some?
    ensures var t := Next(st, Recovery(Work(u))).value; Alone(t, p) && KeepsEnd(st, t, p)
    ensures Fits(st.review, st.rows[p]) ==> Fits(st.review, Next(st, Recovery(Work(u))).value.rows[p])
  {
    var t := Next(st, Recovery(Work(u))).value;
    assert forall q :: q in t.rows && q != p ==> t.rows[q] == st.rows[q];
  }

  /** Review and row tell the same story, and a success can be marked. */
  predicate Fits(review: Status, r: Row) {
    && CanMark(r)
    && (review.Applying? || (review.Applied? && IsSuccess(r.intent.state))
        || (review.Pending? && r.intent.state.Failed?))
    && (Open(r) || (if r.intent.state.Failed? then review.Pending? else review.Applied?))
  }

  predicate UnattendedRun(run: seq<Action>) {
    forall k :: 0 <= k < |run| ==> Unattended(run[k])
  }

  lemma FitsGo(st: Claims, p: nat)
    requires Alone(st, p) && Fits(st.review, st.rows[p])
    requires st.lock.Recovering? && st.lock.p == p && Next(st, Recovery(Go)).Some?
    ensures var t := Next(st, Recovery(Go)).value; p in t.rows && Fits(t.review, t.rows[p])
  {
    assert Next(st, Recovery(Go)) == RecoveryGo(st, p, st.lock.at, st.rows[p]);
  }

  lemma FitsStep(st: Claims, p: nat, act: Action)
    requires Alone(st, p) && Fits(st.review, st.rows[p]) && Unattended(act) && Next(st, act).Some?
    ensures var t := Next(st, act).value; p in t.rows && Fits(t.review, t.rows[p])
  {
    match act {
      case Recovery(Go) => if st.lock.p == p { FitsGo(st, p); }
      case Recovery(Work(u)) => if st.lock.p == p { AloneWork(st, p, u); }
      case Sweep => assert st.review.Applying? ==> !Nonterminal(st.rows[p]);
      case _ =>
    }
  }

  lemma {:induction false} AloneRun(from: Claims, run: seq<Action>, st: Claims, p: nat)
    requires Alone(from, p) && UnattendedRun(run) && Reaches(from, run, st)
    ensures Alone(st, p) && KeepsEnd(from, st, p)
    ensures Fits(from.review, from.rows[p]) ==> Fits(st.review, st.rows[p])
    decreases |run|
  {
    if run != [] {
      assert Unattended(run[0]);
      AloneStep(from, p, run[0]);
      if Fits(from.review, from.rows[p]) { FitsStep(from, p, run[0]); }
      AloneRun(Next(from, run[0]).value, run[1..], st, p);
    }
  }

  /**
   * The next statement is the last one of the recovery run of row `p`, and its apply body
   * has not failed. Runs that end there by an error, because the status is not the one
   * expected or the owner is no UUID, are among them: they leave review and row alone.
   */
  predicate Completes(st: Claims, p: nat) {
    && st.lock.Recovering? && st.lock.p == p && !st.lock.at.AfterError?
    && Next(st, Recovery(Go)).Some? && Next(st, Recovery(Go)).value.lock.Free?
  }

  lemma CompletionIsTheEnd(st: Claims, p: nat)
    requires Alone(st, p) && Completes(st, p)
    ensures var t := Next(st, Recovery(Go)).value; (t.review, t.rows[p]) == EndOf(st.review, st.rows[p])
    ensures Ended(st.rows[p])
  {
    assert Next(st, Recovery(Go)) == RecoveryGo(st, p, st.lock.at, st.rows[p]);
  }

  /** The two ends of an attempt whose review and row tell the same story. */
  predicate AtAnEnd(review: Status, r: Row) {
    !Open(r) && ((review.Applied? && r.intent.state.Finalized?) || (review.Pending? && r.intent.state.Failed?))
  }

  lemma FitEnds(review: Status, r: Row)
    requires Fits(review, r) && Ended(r) && WellSettled(r)
    ensures AtAnEnd(EndOf(review, r).0, EndOf(review, r).1)
  {
  }

  /**
   * However many recovery runs die at whatever statement, and whatever the sweep does in
   * between: of an attempt that has ended, a run that completes leaves review and row
   * where a first undisturbed one would; and an attempt in any state, prepared and in
   * flight included, comes to one of two ends, applied and finalized or returned and settled.
   */
  lemma RecoveryIsCrashIdempotent(from: Claims, run: seq<Action>, st: Claims, p: nat)
    requires Alone(from, p) && UnattendedRun(run) && Reaches(from, run, st) && Completes(st, p)
    ensures var t := Next(st, Recovery(Go)).value;
      && p in t.rows
      && (Ended(from.rows[p]) ==> (t.review, t.rows[p]) == EndOf(from.review, from.rows[p]))
      && (Fits(from.review, from.rows[p]) ==> AtAnEnd(t.review, t.rows[p]))
  {
    AloneRun(from, run, st, p);
    CompletionIsTheEnd(st, p);
    assert Next(st, Recovery(Go)) == RecoveryGo(st, p, st.lock.at, st.rows[p]);
    if Fits(from.review, from.rows[p]) { FitEnds(st.review, st.rows[p]); }
  }

  // --------------------------------------------- what can never be settled

  /** A success beside a claimed review nobody works on any more. */
  predicate Left(st: Claims, p: nat) {
    && st.owners == map[] && st.review.Applying? && p in st.rows && Open(st.rows[p])
    && (st.rows[p].intent.state.Confirmed? || st.rows[p].intent.state.Reconciled?)
    && OthersClosed(st.rows, p)
  }

  /** It is left, and a recovery run, if there is one, has not marked the review. */
  predicate Stuck(st: Claims, p: nat) {
    && Left(st, p) && !CanMark(st.rows[p])
    && match st.lock
       case Free => true
       case Held(_) => false
       case Recovering(q, at) =>
         if q == p then at.Reread? || at.Reprepare? || at.Execute? || at.AfterError? || at.StatusBefore? || at.Mark?
         else at.Reread?
  }

  lemma StuckStep(st: Claims, p: nat, act: Action)
    requires Stuck(st, p) && Next(st, act).Some?
    ensures Stuck(Next(st, act).value, p)
  {
    if act.Recovery? && act.step.Go? {
      assert Next(st, act) == RecoveryGo(st, st.lock.p, st.lock.at, st.rows[st.lock.p]);
    }
  }

  /** Whatever anybody does, the review stays `applying` and the success unfinalized. */
  lemma {:induction false} StuckForever(st: Claims, p: nat, run: seq<Action>, t: Claims)
    requires Stuck(st, p) && Reaches(st, run, t)
    ensures t.review.Applying? && p in t.rows && !t.rows[p].intent.state.Finalized?
    decreases |run|
  {
    if run != [] {
      StuckStep(st, p, run[0]);
      StuckForever(Next(st, run[0]).value, p, run[1..], t);
    }
  }

  ghost predicate CanSettle(st: Claims, p: nat) {
    exists run, t :: Reaches(st, run, t) && t.review.Applied? && p in t.rows && t.rows[p].intent.state.Finalized?
  }

  lemma SettlesAfter(st: Claims, p: nat, act: Action)
    requires Next(st, act).Some? && CanSettle(Next(st, act).value, p)
    ensures CanSettle(st, p)
  {
    var run, t :| Reaches(Next(st, act).value, run, t)
      && t.review.Applied? && p in t.rows && t.rows[p].intent.state.Finalized?;
    OneStep(st, act);
    Joined(st, [act], Next(st, act).value, run, t);
  }

  lemma FromMark(st: Claims, p: nat)
    requires Left(st, p) && CanMark(st.rows[p]) && st.lock == Recovering(p, Mark)
    ensures CanSettle(st, p)
  {
    var a := Next(st, Recovery(Go)).value;
    var b := Next(a, Recovery(Go)).value;
    var c := Next(b, Recovery(Go)).value;
    assert Reaches(c, [], c);
    SettlesAfter(b, p, Recovery(Go));
    SettlesAfter(a, p, Recovery(Go));
    SettlesAfter(st, p, Recovery(Go));
  }

  lemma FromReread(st: Claims, p: nat)
    requires Left(st, p) && CanMark(st.rows[p]) && st.lock == Recovering(p, Reread)
    ensures CanSettle(st, p)
  {
    var a := Next(st, Recovery(Go)).value;
    var b := Next(a, Recovery(Go)).value;
    var c := Next(b, Recovery(Go)).value;
    FromMark(Next(c, Recovery(Go)).value, p);
    SettlesAfter(c, p, Recovery(Go));
    SettlesAfter(b, p, Recovery(Go));
    SettlesAfter(a, p, Recovery(Go));
    SettlesAfter(st, p, Recovery(Go));
  }

  /** A success left behind can be settled exactly when its source and its last owner fit together. */
  lemma LeftSuccessSettlesExactly(st: Claims, p: nat)
    requires Left(st, p) && st.lock.Free?
    ensures CanSettle(st, p) <==> st.rows[p].source.Drain? || st.rows[p].intent.owner != DRAIN_OWNER
  {
    if CanMark(st.rows[p]) {
      var a := Next(st, List(p)).value;
      FromReread(Next(a, Recover(p)).value, p);
      SettlesAfter(a, p, Recover(p));
      SettlesAfter(st, p, List(p));
    } else {
      forall run, t | Reaches(st, run, t) ensures t.review.Applying? { StuckForever(st, p, run, t); }
    }
  }

  /** The drain comes at once to what it listed, and then opens no failure again; a listing taken earlier may. */
  lemma FreshListingReopensNothing(st: Claims, i: nat, p: nat)
    requires Next(st, DrainList).Some? && i !in st.owners
    ensures var t := Next(st, DrainList).value;
      && Next(t, Claim(i, Drain, DRAIN_OWNER)).Some?
      && PreparedRows(t.rows, p, Drain, DRAIN_OWNER) - {p} == st.rows - {p}
      && (p in st.rows ==> PreparedRows(t.rows, p, Drain, DRAIN_OWNER) == st.rows)
  {
  }

  /** A batch of the drain comes to the returned review, claims it and opens the user's row again. */
  lemma DrainReopens(st: Claims) returns (t: Claims)
    requires FairlyReached(st) && st == Claims(Pending, FailedRow(true), map[], Free, {}, 1)
    ensures FairlyReached(t) && t.review.Applying? && t.owners == map[1 := Owner(Drain, DRAIN_OWNER, Body(0))]
    ensures t.lock == Held(1) && t.rows == map[0 := Row(Intent(ApplyIntents.Prepared, DRAIN_OWNER, 0, false), Human, 0)]
  {
    var a := Then(st, Claim(1, Drain, DRAIN_OWNER));
    assert a.owners == map[1 := Owner(Drain, DRAIN_OWNER, Claimed)];
    t := PrepareAttempt(a, 1, Owner(Drain, DRAIN_OWNER, Claimed), 0);
    assert t.owners == map[1 := Owner(Drain, DRAIN_OWNER, Body(0))];
    assert t.rows == map[0 := Row(Intent(ApplyIntents.Prepared, DRAIN_OWNER, 0, false), Human, 0)];
  }

  /** ... and dies after its PATCH is confirmed. */
  lemma DrainDies(st: Claims, o: Owner, row: Row) returns (t: Claims)
    requires FairlyReached(st) && st.review.Applying? && o.at == Body(0) && o.id == row.intent.owner
    requires st.owners == map[1 := o] && st.lock == Held(1) && st.rows == map[0 := row] && row.intent.state.Prepared?
    ensures FairlyReached(t) && t.review.Applying? && t.owners == map[] && t.lock.Free?
    ensures t.rows == map[0 := row.(intent := row.intent.(state := Confirmed))]
  {
    var a := Then(st, Own(1, UpdateRow(ToInFlight)));
    var b := Then(a, Own(1, UpdateRow(ToConfirmed)));
    t := Then(b, Own(1, Crash));
    assert t.rows == map[0 := row.(intent := row.intent.(state := Confirmed))];
    assert t.owners == map[];
  }

  /** The drain lists the untouched review; then a user's attempt fails and is settled. */
  lemma FirstFailureSettled() returns (t: Claims)
    ensures FairlyReached(t) && t == Claims(Pending, FailedRow(true), map[], Free, {}, 1)
  {
    Start();
    var listed := Then(INIT, DrainList);
    var a := FirstFailure(listed, 1);
    t := FailureSettled(a, 1);
  }

  lemma FailureSettled(st: Claims, n: nat) returns (t: Claims)
    requires FairlyReached(st) && st == Failing(Free, {}, n)
    ensures FairlyReached(t) && t == Claims(Pending, FailedRow(true), map[], Free, {}, n)
  {
    var a := Reverted(st, 0, Owner(Human, USER, Errored));
    t := Then(a, Own(0, SettleRows));
    SettledRow();
    assert t.owners == map[];
  }

  /**
   * Such a review is reached: the drain has listed it, a user's attempt fails meanwhile,
   * and when the drain comes to the review it opens the user's row for the same body.
   */
  lemma StuckIsReached() returns (st: Claims)
    ensures FairlyReached(st) && Stuck(st, 0)
  {
    var a := FirstFailureSettled();
    var b := DrainReopens(a);
    st := DrainDies(b, b.owners[1], b.rows[0]);
  }

  // ------------------------------------------------ recovery and a fresh claim

  predicate ByRecovery(run: seq<Action>) {
    forall k :: 0 <= k < |run| ==> run[k].List? || run[k].Recover? || run[k].Recovery?
  }

  /** Recovery alone can take the review away from the process that claimed it. */
  ghost predicate RecoveryTakes(st: Claims) {
    exists run, t :: ByRecovery(run) && Reaches(st, run, t) && !t.review.Applying?
  }

  lemma TakenAlready(st: Claims)
    requires !st.review.Applying?
    ensures RecoveryTakes(st)
  {
    assert Reaches(st, [], st) && ByRecovery([]);
  }

  lemma TakesAfter(st: Claims, act: Action)
    requires Next(st, act).Some? && (act.List? || act.Recover? || act.Recovery?) && RecoveryTakes(Next(st, act).value)
    ensures RecoveryTakes(st)
  {
    var run, t :| ByRecovery(run) && Reaches(Next(st, act).value, run, t) && !t.review.Applying?;
    OneStep(st, act);
    Joined(st, [act], Next(st, act).value, run, t);
    assert ByRecovery([act] + run);
  }

  lemma TakesFromRevert(st: Claims, p: nat)
    requires p in st.rows && st.lock == Recovering(p, Revert)
    ensures RecoveryTakes(st)
  {
    TakenAlready(Next(st, Recovery(Go)).value);
    TakesAfter(st, Recovery(Go));
  }

  lemma TakesFromStatus(st: Claims, p: nat)
    requires p in st.rows && st.lock == Recovering(p, FailedStatus) && st.review.Applying?
    ensures RecoveryTakes(st)
  {
    TakesFromRevert(Next(st, Recovery(Go)).value, p);
    TakesAfter(st, Recovery(Go));
  }

  lemma TakesFromReread(st: Claims, p: nat)
    requires p in st.rows && UnsettledFailure(st.rows[p]) && st.lock == Recovering(p, Reread) && st.review.Applying?
    ensures RecoveryTakes(st)
  {
    var a := Next(st, Recovery(Go)).value;
    TakesFromStatus(Next(a, Recovery(Go)).value, p);
    TakesAfter(a, Recovery(Go));
    TakesAfter(st, Recovery(Go));
  }

  lemma TakesFromFree(st: Claims, p: nat)
    requires Candidate(st.rows, p) && UnsettledFailure(st.rows[p]) && st.lock.Free? && st.review.Applying?
    ensures RecoveryTakes(st)
  {
    var a := Next(st, List(p)).value;
    TakesFromReread(Next(a, Recover(p)).value, p);
    TakesAfter(a, Recover(p));
    TakesAfter(st, List(p));
  }

  lemma TakesForFailure(st: Claims, p: nat)
    requires Candidate(st.rows, p) && UnsettledFailure(st.rows[p]) && !st.lock.Held? && st.review.Applying?
    ensures RecoveryTakes(st)
  {
    if st.lock.Free? {
      TakesFromFree(st, p);
    } else {
      TakesFromFree(Next(st, Recovery(Die)).value, p);
      TakesAfter(st, Recovery(Die));
    }
  }

  /** Nothing is open for recovery to act on, and no run is about to revert or mark the review. */
  predicate Harmless(st: Claims) {
    && st.review.Applying? && !st.lock.Held? && st.listed <= st.rows.Keys
    && (forall p :: p in st.rows ==> st.rows[p].intent.state.Failed? && !Open(st.rows[p]))
    && (st.lock.Recovering? ==>
          var at := st.lock.at;
          st.lock.p in st.rows
          && (at.Reread? || at.Execute? || at.AfterError? || at.FailedReread? || at.Verify? || at.Settle?))
  }

  lemma HarmlessStep(st: Claims, act: Action)
    requires Harmless(st) && Next(st, act).Some? && (act.List? || act.Recover? || act.Recovery?)
    ensures Harmless(Next(st, act).value)
  {
    if act.Recovery? && act.step.Go? {
      assert Next(st, act) == RecoveryGo(st, st.lock.p, st.lock.at, st.rows[st.lock.p]);
    }
  }

  lemma {:induction false} HarmlessRun(st: Claims, run: seq<Action>, t: Claims)
    requires Harmless(st) && ByRecovery(run) && Reaches(st, run, t)
    ensures t.review.Applying?
    decreases |run|
  {
    if run != [] {
      HarmlessStep(st, run[0]);
      HarmlessRun(Next(st, run[0]).value, run[1..], t);
    }
  }

  lemma ClaimIsHarmless(st: Claims, i: nat, kind: Kind, id: string)
    requires Inv(st) && Next(st, Claim(i, kind, id)).Some?
    requires NoUnsettledFailure(st.rows) && !AboutToRevert(st.lock) && !st.lock.Held?
    ensures Harmless(Next(st, Claim(i, kind, id)).value)
  {
    forall p | p in st.rows ensures st.rows[p].intent.state.Failed? && !Open(st.rows[p]) {
      assert RowOk(st.rows[p], st.review) && !UnsettledFailure(st.rows[p]);
    }
  }

  /** While a process holds the source lock, recovery only lists. */
  lemma {:induction false} HeldKeepsRecoveryOut(st: Claims, run: seq<Action>, t: Claims)
    requires st.lock.Held? && st.review.Applying? && ByRecovery(run) && Reaches(st, run, t)
    ensures t.review.Applying?
    decreases |run|
  {
    if run != [] { HeldKeepsRecoveryOut(Next(st, run[0]).value, run[1..], t); }
  }

  /**
   * After a fair run recovery alone takes a fresh claim away exactly when, at the claim, it
   * has read a failure again without having reverted yet, or a failure is unsettled and no
   * process of an earlier claim still holds the source lock.
   */
  lemma RecoveryTakesClaimExactly(run: seq<Action>, st: Claims, i: nat, kind: Kind, id: string)
    requires FairRun(INIT, run, st) && Next(st, Claim(i, kind, id)).Some?
    ensures RecoveryTakes(Next(st, Claim(i, kind, id)).value)
       <==> AboutToRevert(st.lock) || (!NoUnsettledFailure(st.rows) && !st.lock.Held?)
  {
    FairRunsKeep(INIT, run, st);
    var t := Next(st, Claim(i, kind, id)).value;
    if st.lock.Held? {
      forall more, u | ByRecovery(more) && Reaches(t, more, u) ensures u.review.Applying? {
        HeldKeepsRecoveryOut(t, more, u);
      }
    } else if AboutToRevert(st.lock) {
      if st.lock.at.Revert? { TakesFromRevert(t, st.lock.p); } else { TakesFromStatus(t, st.lock.p); }
    } else if !NoUnsettledFailure(st.rows) {
      var p :| p in st.rows && UnsettledFailure(st.rows[p]);
      FailedIsCandidate(st, p);
      TakesForFailure(t, p);
    } else {
      ClaimIsHarmless(st, i, kind, id);
      forall more, u | ByRecovery(more) && Reaches(t, more, u) ensures u.review.Applying? { HarmlessRun(t, more, u); }
    }
  }
}
