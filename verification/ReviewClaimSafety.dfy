/**
 * When a finalized success stands beside an applied review: exactly as long as every
 * claim starts quiet and the sweep spares claims that have no intent yet. This module
 * proves that such runs are safe; ReviewClaimGaps, that any other step can lose it.
 */
module ReviewClaimSafety {
  import opened Options
  import opened ApplyIntents
  import opened ReviewClaims

  /** A finalized success has an applied review. */
  predicate Good(st: Claims) {
    forall p :: p in st.rows && st.rows[p].intent.state.Finalized? ==> st.review.Applied?
  }

  /** The recovery run has read the failure again and has not reverted for it yet. */
  predicate AboutToRevert(lock: Lock) {
    lock.Recovering? && (lock.at.FailedStatus? || lock.at.Revert?)
  }

  predicate AllSettling(owners: map<nat, Owner>) {
    forall i :: i in owners ==> owners[i].at.Settling?
  }

  predicate NoUnsettledFailure(rows: map<nat, Row>) {
    forall p :: p in rows ==> !UnsettledFailure(rows[p])
  }

  /** Nothing is left of an earlier attempt that could still revert the review. */
  predicate Quiet(st: Claims) {
    NoUnsettledFailure(st.rows) && AllSettling(st.owners) && !AboutToRevert(st.lock)
  }

  /** The claim has no intent yet that would hold off the sweep. */
  predicate Unprepared(at: OwnerPc) {
    at.Claimed? || at.Locked?
  }

  predicate NoneUnprepared(owners: map<nat, Owner>) {
    forall i :: i in owners ==> !Unprepared(owners[i].at)
  }

  /** Claims start quiet, and the sweep spares a claim whose process has not prepared its intent. */
  predicate Fair(st: Claims, act: Action) {
    (act.Claim? ==> Quiet(st)) && (act.Sweep? && st.review.Applying? ==> NoneUnprepared(st.owners))
  }

  predicate FairRun(from: Claims, run: seq<Action>, st: Claims)
    decreases |run|
  {
    if run == [] then from == st
    else
      var t := Next(from, run[0]);
      t.Some? && Fair(from, run[0]) && FairRun(t.value, run[1..], st)
  }

  // -------------------------------------------------------------- invariant

  predicate Engaged(review: Status) {
    review.Applying? || review.Applied?
  }

  predicate RowOk(r: Row, review: Status) {
    && (Nonterminal(r) ==> Open(r) && Engaged(review))
    && (r.intent.state.Finalized? ==> !Open(r) && review.Applied?)
  }

  predicate RowsOk(rows: map<nat, Row>, review: Status) {
    forall p :: p in rows ==> RowOk(rows[p], review)
  }

  predicate OneOpen(rows: map<nat, Row>) {
    forall p, q :: p in rows && q in rows && Open(rows[p]) && Open(rows[q]) ==> p == q
  }

  predicate Succeeded(rows: map<nat, Row>, p: nat) {
    p in rows && IsSuccess(rows[p].intent.state)
  }

  /** What the program point of a claiming process says. */
  predicate OwnerOk(st: Claims, i: nat, at: OwnerPc) {
    && (st.lock == Held(i) <==> at.Locked? || at.Body?)
    && match at
       case Claimed | Locked => Engaged(st.review) && NoneOpen(st.rows)
       case Body(p) => p in st.rows && (st.rows[p].intent.state.Failed? || Engaged(st.review))
       case Returned(p) => Succeeded(st.rows, p) && Engaged(st.review)
       case Marked(p) => Succeeded(st.rows, p) && st.review.Applied?
       case Conflicted => NoneOpen(st.rows)
       case Reverting => NoneNonterminal(st.rows)
       case Errored | Settling => true
  }

  predicate OwnersOk(st: Claims) {
    forall i :: i in st.owners ==> OwnerOk(st, i, st.owners[i].at)
  }

  predicate OneActive(owners: map<nat, Owner>) {
    forall i, j :: i in owners && j in owners && !owners[i].at.Settling? && !owners[j].at.Settling? ==> i == j
  }

  predicate LockOk(st: Claims) {
    match st.lock
    case Free => true
    case Held(i) => i in st.owners
    case Recovering(p, at) => p in st.rows && RecoveryOk(st, p, at)
  }

  /** What the program point of the recovery run says. */
  predicate RecoveryOk(st: Claims, p: nat, at: RecoveryPc)
    requires p in st.rows
  {
    match at
    case Reprepare => !st.rows[p].intent.state.Failed?
    case StatusBefore | Mark | StatusAfter => Succeeded(st.rows, p)
    case Finish => Succeeded(st.rows, p) && st.review.Applied?
    case FailedStatus | Revert => NoneNonterminal(st.rows) && NoneUnprepared(st.owners)
    case Settle => UnsettledFailure(st.rows[p]) ==> !Engaged(st.review)
    case _ => true
  }

  predicate Inv(st: Claims) {
    && RowsOk(st.rows, st.review) && OneOpen(st.rows)
    && OwnersOk(st) && OneActive(st.owners)
    && LockOk(st) && st.listed <= st.rows.Keys
  }

  // ------------------------------------------------------- steps keep it

  lemma ClaimKeeps(st: Claims, i: nat, kind: Kind, id: string)
    requires Inv(st) && Quiet(st) && Next(st, Claim(i, kind, id)).Some?
    ensures Inv(Next(st, Claim(i, kind, id)).value)
  {
    assert NoneOpen(st.rows) by {
      forall p | p in st.rows ensures !Open(st.rows[p]) {
        assert RowOk(st.rows[p], st.review) && !UnsettledFailure(st.rows[p]);
      }
    }
    var t := Next(st, Claim(i, kind, id)).value;
    assert RowsOk(t.rows, t.review) by {
      forall p | p in st.rows ensures RowOk(st.rows[p], Applying) { assert RowOk(st.rows[p], st.review); }
    }
    forall j | j in t.owners ensures OwnerOk(t, j, t.owners[j].at) {
      if j != i { assert OwnerOk(st, j, st.owners[j].at); }
    }
  }

  lemma DecideKeeps(st: Claims, to_: Status)
    requires Inv(st) && Next(st, Decide(to_)).Some?
    ensures Inv(Next(st, Decide(to_)).value)
  {
    var t := Next(st, Decide(to_)).value;
    forall p | p in st.rows ensures RowOk(st.rows[p], t.review) { assert RowOk(st.rows[p], st.review); }
    forall j | j in t.owners ensures OwnerOk(t, j, t.owners[j].at) { assert OwnerOk(st, j, st.owners[j].at); }
  }

  lemma DrainListKeeps(st: Claims)
    requires Inv(st) && Next(st, DrainList).Some?
    ensures Inv(Next(st, DrainList).value)
  {
    var t := Next(st, DrainList).value;
    forall j | j in t.owners ensures OwnerOk(t, j, t.owners[j].at) { assert OwnerOk(st, j, st.owners[j].at); }
  }

  lemma ListKeeps(st: Claims, p: nat)
    requires Inv(st) && Next(st, List(p)).Some?
    ensures Inv(Next(st, List(p)).value)
  {
    var t := Next(st, List(p)).value;
    forall j | j in t.owners ensures OwnerOk(t, j, t.owners[j].at) { assert OwnerOk(st, j, st.owners[j].at); }
  }

  /** A process that is not settling is the only active one, so its steps concern nobody else's program point. */
  lemma ActiveKeeps(st: Claims, i: nat, t: Claims)
    requires Inv(st) && i in st.owners && !st.owners[i].at.Settling?
    requires t.owners - {i} == st.owners - {i}
    requires t.lock == st.lock || (st.lock == Held(i) && t.lock == Free) || (st.lock == Free && t.lock == Held(i))
    requires i in t.owners ==> OwnerOk(t, i, t.owners[i].at)
    requires RowsOk(t.rows, t.review) && OneOpen(t.rows) && LockOk(t) && t.listed <= t.rows.Keys
    ensures Inv(t)
  {
    forall j | j in t.owners && j != i ensures t.owners[j].at.Settling? && OwnerOk(t, j, t.owners[j].at) {
      assert j in t.owners - {i} && j in st.owners - {i};
      assert t.owners[j] == (t.owners - {i})[j] == (st.owners - {i})[j] == st.owners[j];
      assert OwnerOk(st, j, st.owners[j].at);
    }
  }

  /** Moving on without touching rows or review. */
  lemma MoveKeeps(st: Claims, i: nat, at: OwnerPc, t: Claims)
    requires Inv(st) && i in st.owners && !st.owners[i].at.Settling? && !Unprepared(at)
    requires t == At(Unlocked(st, i), i, st.owners[i], at) && OwnerOk(t, i, at)
    ensures Inv(t)
  {
    assert OwnerOk(st, i, st.owners[i].at);
    assert t.owners - {i} == st.owners - {i};
    ActiveKeeps(st, i, t);
  }

  lemma TakeLockKeeps(st: Claims, i: nat)
    requires Inv(st) && i in st.owners && st.owners[i].at.Claimed? && st.lock.Free?
    ensures Inv(At(st, i, st.owners[i], Locked).(lock := Held(i)))
  {
    var t := At(st, i, st.owners[i], Locked).(lock := Held(i));
    assert OwnerOk(st, i, Claimed);
    assert t.owners - {i} == st.owners - {i};
    ActiveKeeps(st, i, t);
  }

  lemma PreparedOk(rows: map<nat, Row>, review: Status, p: nat, kind: Kind, id: string)
    requires RowsOk(rows, review) && NoneOpen(rows) && Engaged(review)
    ensures var t := PreparedRows(rows, p, kind, id);
      p in t && RowsOk(t, review) && OneOpen(t) && rows.Keys <= t.Keys
  {
    var t := PreparedRows(rows, p, kind, id);
    forall q | q in t ensures RowOk(t[q], review) {
      if q in rows { assert RowOk(rows[q], review); }
    }
  }

  lemma PrepareKeeps(st: Claims, i: nat, p: nat)
    requires Inv(st) && i in st.owners && st.owners[i].at.Locked?
    ensures var o := st.owners[i];
      Inv(At(st, i, o, Body(p)).(rows := PreparedRows(st.rows, p, o.kind, o.id)))
  {
    var o := st.owners[i];
    var t := At(st, i, o, Body(p)).(rows := PreparedRows(st.rows, p, o.kind, o.id));
    assert OwnerOk(st, i, Locked);
    PreparedOk(st.rows, st.review, p, o.kind, o.id);
    assert t.owners - {i} == st.owners - {i};
    ActiveKeeps(st, i, t);
  }

  lemma ChangedOk(rows: map<nat, Row>, review: Status, p: nat, u: Update, owner: string)
    requires RowsOk(rows, review) && OneOpen(rows) && p in rows && Updated(rows[p].intent, u, owner).Some?
    ensures var t := Changed(rows, p, Updated(rows[p].intent, u, owner));
      && RowsOk(t, review) && OneOpen(t) && t.Keys == rows.Keys && Engaged(review) && Nonterminal(rows[p])
  {
    var t := Changed(rows, p, Updated(rows[p].intent, u, owner));
    assert RowOk(rows[p], review);
    forall q | q in t ensures RowOk(t[q], review) && (Open(t[q]) <==> Open(rows[q])) {
      assert RowOk(rows[q], review);
    }
  }

  lemma UpdateKeeps(st: Claims, i: nat, p: nat, u: Update)
    requires Inv(st) && i in st.owners && st.owners[i].at == Body(p) && p in st.rows
    requires Updated(st.rows[p].intent, u, st.owners[i].id).Some?
    ensures Inv(st.(rows := Changed(st.rows, p, Updated(st.rows[p].intent, u, st.owners[i].id))))
  {
    var t := st.(rows := Changed(st.rows, p, Updated(st.rows[p].intent, u, st.owners[i].id)));
    assert OwnerOk(st, i, Body(p));
    ChangedOk(st.rows, st.review, p, u, st.owners[i].id);
    ActiveKeeps(st, i, t);
  }

  lemma MarkKeeps(st: Claims, i: nat, p: nat)
    requires Inv(st) && i in st.owners && st.owners[i].at == Returned(p)
    ensures Inv(At(st, i, st.owners[i], Marked(p)).(review := FromApplying(st.review, Applied)))
  {
    var t := At(st, i, st.owners[i], Marked(p)).(review := FromApplying(st.review, Applied));
    assert OwnerOk(st, i, Returned(p));
    forall q | q in st.rows ensures RowOk(st.rows[q], t.review) { assert RowOk(st.rows[q], st.review); }
    assert t.owners - {i} == st.owners - {i};
    ActiveKeeps(st, i, t);
  }

  lemma FinalizedOk(rows: map<nat, Row>, p: nat)
    requires RowsOk(rows, Applied) && OneOpen(rows) && p in rows
    ensures var t := Changed(rows, p, Finalize(rows[p].intent)); RowsOk(t, Applied) && OneOpen(t) && t.Keys == rows.Keys
  {
    var t := Changed(rows, p, Finalize(rows[p].intent));
    forall q | q in t ensures RowOk(t[q], Applied) && (Open(t[q]) ==> Open(rows[q])) {
      assert RowOk(rows[q], Applied);
    }
  }

  /** A recovery run keeps its place when a success is finalized beside it. */
  lemma RecoveryBesideFinalize(st: Claims, p: nat)
    requires Inv(st) && Succeeded(st.rows, p) && st.review.Applied?
    ensures LockOk(st.(rows := Changed(st.rows, p, Finalize(st.rows[p].intent))))
  {
    var t := st.(rows := Changed(st.rows, p, Finalize(st.rows[p].intent)));
    if st.lock.Recovering? && AboutToRevert(st.lock) {
      forall q | q in t.rows ensures !Nonterminal(t.rows[q]) { assert !Nonterminal(st.rows[q]); }
    }
  }

  lemma FinalizeKeeps(st: Claims, i: nat, p: nat)
    requires Inv(st) && i in st.owners && st.owners[i].at == Marked(p) && p in st.rows
    ensures Inv(Gone(st, i).(rows := Changed(st.rows, p, Finalize(st.rows[p].intent))))
  {
    var t := Gone(st, i).(rows := Changed(st.rows, p, Finalize(st.rows[p].intent)));
    assert OwnerOk(st, i, Marked(p));
    FinalizedOk(st.rows, p);
    RecoveryBesideFinalize(st, p);
    assert t.owners - {i} == st.owners - {i};
    assert NoneUnprepared(st.owners) ==> NoneUnprepared(t.owners);
    ActiveKeeps(st, i, t);
  }

  /** A revert to pending by the only active process. */
  lemma RevertedOk(rows: map<nat, Row>, review: Status)
    requires RowsOk(rows, review) && NoneNonterminal(rows)
    ensures RowsOk(rows, FromApplying(review, Pending))
  {
    forall p | p in rows ensures RowOk(rows[p], FromApplying(review, Pending)) {
      assert RowOk(rows[p], review) && !Nonterminal(rows[p]);
    }
  }

  lemma RevertKeeps(st: Claims, i: nat, t: Claims)
    requires Inv(st) && i in st.owners && (st.owners[i].at.Conflicted? || st.owners[i].at.Reverting?)
    requires var r := st.(review := FromApplying(st.review, Pending));
      t == At(r, i, st.owners[i], Settling) || t == Gone(r, i)
    ensures Inv(t)
  {
    assert OwnerOk(st, i, st.owners[i].at);
    forall p | p in st.rows ensures !Nonterminal(st.rows[p]) { assert RowOk(st.rows[p], st.review); }
    RevertedOk(st.rows, st.review);
    assert t.owners - {i} == st.owners - {i};
    assert NoneUnprepared(st.owners) ==> NoneUnprepared(t.owners);
    ActiveKeeps(st, i, t);
  }

  lemma CrashKeeps(st: Claims, i: nat)
    requires Inv(st) && i in st.owners
    ensures Inv(Gone(st, i))
  {
    var t := Gone(st, i);
    assert OwnerOk(st, i, st.owners[i].at);
    forall j | j in t.owners ensures OwnerOk(t, j, t.owners[j].at) { assert OwnerOk(st, j, st.owners[j].at); }
  }

  lemma AllSettledOk(rows: map<nat, Row>, review: Status)
    requires RowsOk(rows, review) && OneOpen(rows)
    ensures var t := AllSettled(rows);
      && RowsOk(t, review) && OneOpen(t) && t.Keys == rows.Keys
      && forall p :: p in rows ==> t[p].intent.state == rows[p].intent.state && (Open(t[p]) ==> Open(rows[p]))
  {
    var t := AllSettled(rows);
    forall p | p in t ensures RowOk(t[p], review) { assert RowOk(rows[p], review); }
  }

  lemma SettleKeeps(st: Claims, i: nat)
    requires Inv(st) && i in st.owners && st.owners[i].at.Settling?
    ensures Inv(Gone(st, i).(rows := AllSettled(st.rows)))
  {
    var g, t := Gone(st, i), Gone(st, i).(rows := AllSettled(st.rows));
    CrashKeeps(st, i);
    AllSettledOk(st.rows, st.review);
    forall j | j in t.owners ensures OwnerOk(t, j, t.owners[j].at) { assert OwnerOk(g, j, g.owners[j].at); }
  }

  lemma CheckKeeps(st: Claims, i: nat)
    requires Inv(st) && i in st.owners && st.owners[i].at.Errored?
    ensures Inv(OwnerNext(st, i, st.owners[i], Check).value)
  {
    if exists p :: p in st.rows && Nonterminal(st.rows[p]) && Open(st.rows[p]) {
      CrashKeeps(st, i);
    } else {
      assert OwnerOk(st, i, Errored);
      forall p | p in st.rows ensures !Nonterminal(st.rows[p]) { assert RowOk(st.rows[p], st.review); }
      MoveKeeps(st, i, Reverting, At(st, i, st.owners[i], Reverting));
    }
  }

  lemma OwnerKeeps(st: Claims, i: nat, step: OwnerStep)
    requires Inv(st) && i in st.owners && OwnerNext(st, i, st.owners[i], step).Some?
    ensures Inv(OwnerNext(st, i, st.owners[i], step).value)
  {
    var o := st.owners[i];
    var t := OwnerNext(st, i, o, step).value;
    assert OwnerOk(st, i, o.at);
    match step {
      case Crash => CrashKeeps(st, i);
      case TakeLock => TakeLockKeeps(st, i);
      case PrepareRow(p) => PrepareKeeps(st, i, p);
      case UpdateRow(u) => UpdateKeeps(st, i, o.at.p, u);
      case Return => MoveKeeps(st, i, Returned(o.at.p), t);
      case MarkReview => MarkKeeps(st, i, o.at.p);
      case FinalizeRow => FinalizeKeeps(st, i, o.at.p);
      case Fail => MoveKeeps(st, i, Errored, t);
      case Conflict => MoveKeeps(st, i, Conflicted, t);
      case Check => CheckKeeps(st, i);
      case RevertReview => RevertKeeps(st, i, t);
      case SettleRows => SettleKeeps(st, i);
    }
  }

  // ----------------------------------------------------- recovery and sweep

  lemma LockMoveKeeps(st: Claims, t: Claims)
    requires Inv(st) && !st.lock.Held? && !t.lock.Held? && t == st.(lock := t.lock) && LockOk(t)
    ensures Inv(t)
  {
    forall j | j in t.owners ensures OwnerOk(t, j, t.owners[j].at) { assert OwnerOk(st, j, st.owners[j].at); }
  }

  /** An unsettled failure read again: nothing else is open, so no claim is fresh and no intent fences the review. */
  lemma FailureStandsAlone(st: Claims, p: nat)
    requires Inv(st) && p in st.rows && UnsettledFailure(st.rows[p])
    ensures NoneNonterminal(st.rows) && NoneUnprepared(st.owners)
  {
    forall q | q in st.rows ensures !Nonterminal(st.rows[q]) { assert RowOk(st.rows[q], st.review); }
    forall i | i in st.owners ensures !Unprepared(st.owners[i].at) { assert OwnerOk(st, i, st.owners[i].at); }
  }

  lemma ReprepareKeeps(st: Claims, p: nat)
    requires Inv(st) && st.lock == Recovering(p, Reprepare) && p in st.rows
    ensures var row := st.rows[p];
      Inv(st.(rows := PreparedRows(st.rows, p, row.source, row.intent.owner), lock := Recovering(p, Execute)))
  {
    LockMoveKeeps(st, st.(lock := Recovering(p, Execute)));
  }

  lemma RecoveryMarkKeeps(st: Claims, p: nat)
    requires Inv(st) && st.lock == Recovering(p, Mark)
    ensures Inv(st.(review := FromApplying(st.review, Applied), lock := Recovering(p, StatusAfter)))
  {
    var t := st.(review := FromApplying(st.review, Applied), lock := Recovering(p, StatusAfter));
    forall q | q in st.rows ensures RowOk(st.rows[q], t.review) { assert RowOk(st.rows[q], st.review); }
    forall j | j in t.owners ensures OwnerOk(t, j, t.owners[j].at) { assert OwnerOk(st, j, st.owners[j].at); }
  }

  /** Recovery finalizes only beside an applied review, which stays applied. */
  lemma FinishKeeps(st: Claims, p: nat)
    requires Inv(st) && st.lock == Recovering(p, Finish)
    ensures Inv(st.(rows := Changed(st.rows, p, Finalize(st.rows[p].intent)), lock := Free))
  {
    var t := st.(rows := Changed(st.rows, p, Finalize(st.rows[p].intent)), lock := Free);
    FinalizedOk(st.rows, p);
    forall j | j in t.owners ensures OwnerOk(t, j, t.owners[j].at) {
      assert OwnerOk(st, j, st.owners[j].at);
      NoneStays(st.rows, p, Finalize(st.rows[p].intent));
    }
  }

  lemma NoneStays(rows: map<nat, Row>, p: nat, intent: Option<Intent>)
    requires p in rows && (intent.Some? ==> intent.value.settled)
    requires intent.Some? ==> intent.value.state.Finalized? || intent.value.state.Failed?
    ensures NoneOpen(rows) ==> NoneOpen(Changed(rows, p, intent))
    ensures NoneNonterminal(rows) ==> NoneNonterminal(Changed(rows, p, intent))
  {
  }

  /** Reverting for a failure is harmless while no claim is fresh. */
  lemma RecoveryRevertKeeps(st: Claims, p: nat)
    requires Inv(st) && st.lock == Recovering(p, Revert)
    ensures Inv(st.(review := FromApplying(st.review, Pending), lock := Recovering(p, Verify)))
  {
    var t := st.(review := FromApplying(st.review, Pending), lock := Recovering(p, Verify));
    RevertedOk(st.rows, st.review);
    OwnersBesideRevert(st, t);
  }

  /** Without fresh claims and fenced rows, a revert concerns no claiming process. */
  lemma OwnersBesideRevert(st: Claims, t: Claims)
    requires Inv(st) && NoneNonterminal(st.rows) && NoneUnprepared(st.owners)
    requires t == st.(review := t.review, lock := t.lock) && (st.review.Applied? ==> t.review.Applied?)
    requires forall i :: t.lock == Held(i) <==> st.lock == Held(i)
    ensures OwnersOk(t)
  {
    forall j | j in t.owners ensures OwnerOk(t, j, t.owners[j].at) {
      assert OwnerOk(st, j, st.owners[j].at);
      match st.owners[j].at {
        case Body(p) => assert RowOk(st.rows[p], st.review) && !Nonterminal(st.rows[p]);
        case Returned(p) => assert RowOk(st.rows[p], st.review) && !Nonterminal(st.rows[p]);
        case _ =>
      }
    }
  }

  lemma RecoverySettleKeeps(st: Claims, p: nat)
    requires Inv(st) && st.lock == Recovering(p, Settle)
    ensures Inv(st.(rows := Changed(st.rows, p, FinalizeFailed(st.rows[p].intent)), lock := Free))
  {
    var intent := FinalizeFailed(st.rows[p].intent);
    var t := st.(rows := Changed(st.rows, p, intent), lock := Free);
    forall q | q in t.rows ensures RowOk(t.rows[q], t.review) { assert RowOk(st.rows[q], st.review); }
    NoneStays(st.rows, p, intent);
    forall j | j in t.owners ensures OwnerOk(t, j, t.owners[j].at) { assert OwnerOk(st, j, st.owners[j].at); }
  }

  lemma WorkKeeps(st: Claims, p: nat, u: Update)
    requires Inv(st) && st.lock == Recovering(p, Execute) && p in st.rows
    requires Updated(st.rows[p].intent, u, st.rows[p].intent.owner).Some?
    ensures Inv(st.(rows := Changed(st.rows, p, Updated(st.rows[p].intent, u, st.rows[p].intent.owner))))
  {
    var owner := st.rows[p].intent.owner;
    var t := st.(rows := Changed(st.rows, p, Updated(st.rows[p].intent, u, owner)));
    ChangedOk(st.rows, st.review, p, u, owner);
    forall j | j in t.owners ensures OwnerOk(t, j, t.owners[j].at) { assert OwnerOk(st, j, st.owners[j].at); }
  }

  lemma GoKeeps(st: Claims, p: nat, at: RecoveryPc)
    requires Inv(st) && st.lock == Recovering(p, at) && p in st.rows && RecoveryGo(st, p, at, st.rows[p]).Some?
    ensures Inv(RecoveryGo(st, p, at, st.rows[p]).value)
  {
    var t := RecoveryGo(st, p, at, st.rows[p]).value;
    match at {
      case Reprepare => ReprepareKeeps(st, p);
      case Mark => if CanMark(st.rows[p]) { RecoveryMarkKeeps(st, p); } else { LockMoveKeeps(st, t); }
      case Finish => FinishKeeps(st, p);
      case Revert => RecoveryRevertKeeps(st, p);
      case Settle => RecoverySettleKeeps(st, p);
      case FailedReread =>
        if UnsettledFailure(st.rows[p]) { FailureStandsAlone(st, p); }
        LockMoveKeeps(st, t);
      case _ => LockMoveKeeps(st, t);
    }
  }

  lemma RecoveryKeeps(st: Claims, p: nat, at: RecoveryPc, step: RecoveryStep)
    requires Inv(st) && st.lock == Recovering(p, at) && RecoveryNext(st, p, at, step).Some?
    ensures Inv(RecoveryNext(st, p, at, step).value)
  {
    var t := RecoveryNext(st, p, at, step).value;
    match step {
      case Go => GoKeeps(st, p, at);
      case Work(u) => WorkKeeps(st, p, u);
      case Error | Die => LockMoveKeeps(st, t);
    }
  }

  lemma SweepKeeps(st: Claims)
    requires Inv(st) && Fair(st, Sweep) && Swept(st).Some?
    ensures Inv(Swept(st).value)
  {
    var t := Swept(st).value;
    if st.review.Applying? {
      RevertedOk(st.rows, st.review);
      OwnersBesideRevert(st, t);
    } else {
      forall p | p in st.rows ensures RowOk(st.rows[p], Pending) { assert RowOk(st.rows[p], st.review); }
      forall j | j in t.owners ensures OwnerOk(t, j, t.owners[j].at) { assert OwnerOk(st, j, st.owners[j].at); }
    }
  }

  lemma NextKeeps(st: Claims, act: Action)
    requires Inv(st) && Fair(st, act) && Next(st, act).Some?
    ensures Inv(Next(st, act).value)
  {
    match act {
      case Decide(to) => DecideKeeps(st, act.to);
      case DrainList => DrainListKeeps(st);
      case Claim(i, kind, id) => ClaimKeeps(st, i, kind, id);
      case Own(i, step) => OwnerKeeps(st, i, step);
      case Sweep => SweepKeeps(st);
      case List(p) => ListKeeps(st, p);
      case Recover(p) => LockMoveKeeps(st, Next(st, act).value);
      case Recovery(step) => RecoveryKeeps(st, st.lock.p, st.lock.at, step);
    }
  }

  // ------------------------------------------------------------ main results

  lemma {:induction false} FairRunsKeep(from: Claims, run: seq<Action>, st: Claims)
    requires Inv(from) && FairRun(from, run, st)
    ensures Inv(st)
    decreases |run|
  {
    if run != [] {
      NextKeeps(from, run[0]);
      FairRunsKeep(Next(from, run[0]).value, run[1..], st);
    }
  }

  /**
   * In every fair run, however decisions, claims, recovery, the sweep and crashes
   * interleave, a finalized success has an applied review.
   */
  lemma FinalizedSuccessIsApplied(run: seq<Action>, st: Claims)
    requires FairRun(INIT, run, st)
    ensures Good(st)
  {
    FairRunsKeep(INIT, run, st);
    forall p | p in st.rows && st.rows[p].intent.state.Finalized? ensures st.review.Applied? {
      assert RowOk(st.rows[p], st.review);
    }
  }

  /** After every fair run, once all intents are settled, one sweep leaves the review decided for good or undecided. */
  lemma SweepEndsWhatIsSettled(run: seq<Action>, st: Claims)
    requires FairRun(INIT, run, st) && NoneOpen(st.rows)
    ensures Next(st, Sweep) == if st.review.Applying? || st.review.Approved? || st.review.Edited?
                               then Some(st.(review := Pending)) else None
  {
    FairRunsKeep(INIT, run, st);
    forall p | p in st.rows ensures !Nonterminal(st.rows[p]) { assert RowOk(st.rows[p], st.review); }
  }

  /** The process may still have its PATCH take effect, or has it behind it and has not marked the review. */
  predicate Committed(rows: map<nat, Row>, at: OwnerPc) {
    Unprepared(at) || at.Returned? || (at.Body? && at.p in rows && !rows[at.p].intent.state.Failed?)
  }

  /** In every fair run nobody takes the review from a process that may still apply it. */
  lemma ClaimIsNotUndone(run: seq<Action>, st: Claims, i: nat)
    requires FairRun(INIT, run, st) && i in st.owners && Committed(st.rows, st.owners[i].at)
    ensures st.review.Applying? || st.review.Applied?
  {
    FairRunsKeep(INIT, run, st);
    assert OwnerOk(st, i, st.owners[i].at);
  }

  /** In every fair run recovery settles a failure only beside a review that is decidable or decided again. */
  lemma FailureIsSettledBesideReturnedReview(run: seq<Action>, st: Claims, p: nat)
    requires FairRun(INIT, run, st) && st.lock == Recovering(p, Settle)
    ensures p in st.rows && (UnsettledFailure(st.rows[p]) ==> !st.review.Applying? && !st.review.Applied?)
  {
    FairRunsKeep(INIT, run, st);
    assert LockOk(st);
  }

  /** Wherever a review has been applied, it stays so. */
  lemma {:induction false} AppliedStays(from: Claims, run: seq<Action>, st: Claims)
    requires Reaches(from, run, st) && from.review.Applied?
    ensures st.review.Applied?
    decreases |run|
  {
    if run != [] { AppliedStays(Next(from, run[0]).value, run[1..], st); }
  }

  predicate FinishesApplied(st: Claims) {
    (st.lock.Recovering? && st.lock.at.Finish?) ==> st.review.Applied?
  }

  lemma FinishesAppliedStep(st: Claims, act: Action)
    requires FinishesApplied(st) && Next(st, act).Some?
    ensures FinishesApplied(Next(st, act).value)
  {
    if act.Recovery? && act.step.Go? && st.lock.p in st.rows {
      var p, at := st.lock.p, st.lock.at;
      assert Next(st, act) == RecoveryGo(st, p, at, st.rows[p]);
    }
  }

  /** Whatever the run, fair or not, a recovery run about to finalize a success has marked its review applied. */
  lemma {:induction false} RecoveryFinalizesBesideApplied(from: Claims, run: seq<Action>, st: Claims)
    requires Reaches(from, run, st) && FinishesApplied(from)
    ensures FinishesApplied(st)
    decreases |run|
  {
    if run != [] {
      FinishesAppliedStep(from, run[0]);
      RecoveryFinalizesBesideApplied(Next(from, run[0]).value, run[1..], st);
    }
  }

  // ------------------------------------------- applied reviews have a success

  ghost predicate HasSuccess(rows: map<nat, Row>) {
    exists p :: Succeeded(rows, p)
  }

  /** A process whose body returned has a success row. */
  ghost predicate ReturnsBacked(st: Claims) {
    forall i :: i in st.owners && st.owners[i].at.Returned? ==> Succeeded(st.rows, st.owners[i].at.p)
  }

  /** Who is about to mark the review has a success row, and so has a marked review. */
  ghost predicate Backed(st: Claims) {
    && (st.review.Applied? ==> HasSuccess(st.rows))
    && ReturnsBacked(st)
    && (st.lock.Recovering? && (st.lock.at.StatusBefore? || st.lock.at.Mark?) ==> Succeeded(st.rows, st.lock.p))
  }

  /** A success stays one. */
  ghost predicate SuccessesStay(rows: map<nat, Row>, rows': map<nat, Row>) {
    forall p :: Succeeded(rows, p) ==> Succeeded(rows', p)
  }

  lemma OwnerKeepsSuccesses(st: Claims, i: nat, step: OwnerStep)
    requires i in st.owners && OwnerNext(st, i, st.owners[i], step).Some?
    ensures SuccessesStay(st.rows, OwnerNext(st, i, st.owners[i], step).value.rows)
  {
  }

  lemma RecoveryKeepsSuccesses(st: Claims, step: RecoveryStep)
    requires Next(st, Recovery(step)).Some?
    ensures SuccessesStay(st.rows, Next(st, Recovery(step)).value.rows)
  {
    if step.Go? { assert Next(st, Recovery(step)) == RecoveryGo(st, st.lock.p, st.lock.at, st.rows[st.lock.p]); }
  }

  lemma BackedWitness(st: Claims, t: Claims)
    requires Backed(st) && SuccessesStay(st.rows, t.rows) && st.review.Applied?
    ensures HasSuccess(t.rows)
  {
    var p :| Succeeded(st.rows, p);
    assert Succeeded(t.rows, p);
  }

  lemma ReturnsStayBacked(st: Claims, i: nat, step: OwnerStep)
    requires ReturnsBacked(st) && i in st.owners && OwnerNext(st, i, st.owners[i], step).Some?
    ensures ReturnsBacked(OwnerNext(st, i, st.owners[i], step).value)
  {
    OwnerKeepsSuccesses(st, i, step);
  }

  lemma OwnerBacked(st: Claims, i: nat, step: OwnerStep)
    requires Backed(st) && i in st.owners && OwnerNext(st, i, st.owners[i], step).Some?
    ensures Backed(OwnerNext(st, i, st.owners[i], step).value)
  {
    var t := OwnerNext(st, i, st.owners[i], step).value;
    ReturnsStayBacked(st, i, step);
    OwnerKeepsSuccesses(st, i, step);
    if st.review.Applied? { BackedWitness(st, t); }
    if st.owners[i].at.Returned? { assert Succeeded(t.rows, st.owners[i].at.p); }
  }

  lemma RecoveryBacked(st: Claims, step: RecoveryStep)
    requires Backed(st) && Next(st, Recovery(step)).Some?
    ensures Backed(Next(st, Recovery(step)).value)
  {
    var t := Next(st, Recovery(step)).value;
    RecoveryKeepsSuccesses(st, step);
    if st.review.Applied? { BackedWitness(st, t); }
    if step.Go? {
      assert Next(st, Recovery(step)) == RecoveryGo(st, st.lock.p, st.lock.at, st.rows[st.lock.p]);
      if st.lock.at.Mark? { assert Succeeded(t.rows, st.lock.p); }
    }
  }

  lemma {:induction false} RunsBacked(from: Claims, run: seq<Action>, st: Claims)
    requires Backed(from) && Reaches(from, run, st)
    ensures Backed(st)
    decreases |run|
  {
    if run != [] {
      match run[0] {
        case Own(i, step) => OwnerBacked(from, i, step);
        case Recovery(step) => RecoveryBacked(from, step);
        case Decide(_) | Claim(_, _, _) | Sweep | DrainList =>
        case List(_) =>
        case Recover(_) =>
      }
      RunsBacked(Next(from, run[0]).value, run[1..], st);
    }
  }

  /** In every run, fair or not, an applied review has an intent that succeeded. */
  lemma AppliedHasSuccess(run: seq<Action>, st: Claims)
    requires Reaches(INIT, run, st) && st.review.Applied?
    ensures HasSuccess(st.rows)
  {
    RunsBacked(INIT, run, st);
  }

  // ------------------------------------------------- the ways a claim may go

  /** An error may strike a claiming process until its attempt returned, a user's also later; it gives up the lock. */
  lemma ErrorsStrike(st: Claims, i: nat)
    requires Inv(st) && i in st.owners
    ensures var o := st.owners[i];
      Next(st, Own(i, Fail)) ==
        if o.at.Claimed? || o.at.Locked? || o.at.Body? || (o.kind.Human? && (o.at.Returned? || o.at.Marked?))
        then Some(st.(owners := st.owners[i := o.(at := Errored)],
                      lock := if st.lock == Held(i) then Free else st.lock))
        else None
  {
    assert OwnerOk(st, i, st.owners[i].at);
  }

  /** A process that finds its review in conflict returns it and is done. */
  lemma ConflictReturns(st: Claims, i: nat)
    requires Inv(st) && i in st.owners && st.owners[i].at == Claimed
    ensures var t := Next(st, Own(i, Conflict));
      t.Some? && Next(t.value, Own(i, RevertReview))
                 == Some(st.(review := FromApplying(st.review, Pending), owners := st.owners - {i}))
  {
    assert OwnerOk(st, i, Claimed);
    var t := Next(st, Own(i, Conflict)).value;
    assert t.owners - {i} == st.owners - {i};
  }

  /** A pending review can be decided in three ways, no other can be decided. */
  lemma DecisionsExactly(st: Claims, to: Status)
    ensures Next(st, Decide(to)).Some?
      <==> st.review.Pending? && !to.Pending? && !to.Applying? && !to.Applied?
  {
  }

  /** Nothing touches a rejected review any more, in any run. */
  lemma {:induction false} RejectedStays(from: Claims, run: seq<Action>, st: Claims)
    requires Reaches(from, run, st) && from.review.Rejected?
    ensures st.review.Rejected?
    decreases |run|
  {
    if run != [] {
      match run[0] {
        case Own(i, step) => OwnerLeavesRejected(from, i, step);
        case Recovery(step) => RecoveryLeavesRejected(from, step);
        case _ =>
      }
      RejectedStays(Next(from, run[0]).value, run[1..], st);
    }
  }

  lemma OwnerLeavesRejected(st: Claims, i: nat, step: OwnerStep)
    requires st.review.Rejected? && i in st.owners && OwnerNext(st, i, st.owners[i], step).Some?
    ensures OwnerNext(st, i, st.owners[i], step).value.review.Rejected?
  {
  }

  lemma RecoveryLeavesRejected(st: Claims, step: RecoveryStep)
    requires st.review.Rejected? && Next(st, Recovery(step)).Some?
    ensures Next(st, Recovery(step)).value.review.Rejected?
  {
    if step.Go? { assert Next(st, Recovery(step)) == RecoveryGo(st, st.lock.p, st.lock.at, st.rows[st.lock.p]); }
  }
}
