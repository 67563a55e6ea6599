/**
 * One review, its apply intents and everybody who settles them, as a step relation:
 * decisions, claims, the claiming process from the claim to its last write, recovery
 * from its listing to its last write, the sweep of stale reviews, and crashes. Each
 * read and each separately committed write is one step.
 */
module ReviewClaims {
  import opened Options
  import opened ApplyIntents
  import opened Patches

  datatype Status = Pending | Approved | Edited | Rejected | Applying | Applied

  datatype Kind = Human | Drain

  /** The owner text of the autopilot drain; the owner text of a user is a UUID. */
  const DRAIN_OWNER := "autopilot-drain"

  /** An intent row with what a reopening leaves alone: the source and the order of creation. */
  datatype Row = Row(intent: Intent, source: Kind, created: nat)

  /** What the process that claimed the review does next. */
  datatype OwnerPc =
    | Claimed            // read the document, resolve the body, ask for the lock
    | Locked             // prepare_apply_intent
    | Body(p: nat)       // inside the apply body with row `p`
    | Returned(p: nat)   // mark_review_applied
    | Marked(p: nat)     // finalize_apply_intent
    | Errored            // review_has_nonterminal_apply_intent
    | Conflicted         // mark_review_apply_conflict
    | Reverting          // no such intent: revert_review_from_applying
    | Settling           // finalize_failed_review_apply_intents

  datatype Owner = Owner(kind: Kind, id: string, at: OwnerPc)

  /** What a recovery run does next with its row, under the source lock. */
  datatype RecoveryPc =
    | Reread             // get_apply_intent
    | Reprepare          // apply_document_inner: prepare_apply_intent
    | Execute            // the rest of the apply body
    | AfterError         // the body failed: get_apply_intent
    | StatusBefore       // settle_applied_review: the first status read
    | Mark               // mark_review_applied
    | StatusAfter        // the second status read
    | Finish             // finalize_apply_intent
    | FailedReread       // settle_failed_review: get_apply_intent
    | FailedStatus       // the first status read
    | Revert             // it was applying: revert_review_from_applying
    | Verify             // the second status read
    | Settle             // finalize_failed_apply_intent

  datatype Lock = Free | Held(i: nat) | Recovering(p: nat, at: RecoveryPc)

  /** `listed` are the rows recovery has listed, `drains` the batches of the drain that have the review to come. */
  datatype Claims = Claims(
    review: Status, rows: map<nat, Row>, owners: map<nat, Owner>, lock: Lock, listed: set<nat>, drains: nat)

  /** The row updates of the apply body. */
  datatype Update = ToInFlight | ToConfirmed | ToReconciled | ToPrepared | ToFailed

  datatype OwnerStep =
    | TakeLock | PrepareRow(p: nat) | UpdateRow(u: Update) | Return | MarkReview | FinalizeRow
    | Fail        // an error, or the drain's time limit
    | Conflict    // the precondition failed
    | Check | RevertReview | SettleRows
    | Crash       // the process dies, or an error that only logs ends its work

  datatype RecoveryStep = Go | Work(u: Update) | Error | Die

  datatype Action =
    | Decide(to: Status)
    | DrainList      // list_pending_review_items_for_autopilot_drain
    | Claim(i: nat, kind: Kind, id: string)
    | Own(i: nat, own: OwnerStep)
    | Sweep
    | List(p: nat)
    | Recover(p: nat)
    | Recovery(step: RecoveryStep)

  // ------------------------------------------------------------------- rows

  /** `finalized_at is null`. */
  predicate Open(r: Row) {
    !r.intent.settled
  }

  /** The states a review is fenced for. */
  predicate Nonterminal(r: Row) {
    var s := r.intent.state;
    s.Prepared? || s.InFlight? || s.Confirmed? || s.Reconciled?
  }

  predicate NoneNonterminal(rows: map<nat, Row>) {
    forall p :: p in rows ==> !Nonterminal(rows[p])
  }

  predicate NoneOpen(rows: map<nat, Row>) {
    forall p :: p in rows ==> !Open(rows[p])
  }

  predicate UnsettledFailure(r: Row) {
    r.intent.state.Failed? && Open(r)
  }

  /** `source` decides how success recovery marks the review; a human owner must be a UUID. */
  predicate CanMark(r: Row) {
    r.source.Drain? || r.intent.owner != DRAIN_OWNER
  }

  function Updated(row: Intent, u: Update, owner: string): Option<Intent> {
    match u
    case ToInFlight => MarkInFlight(row, owner)
    case ToConfirmed => MarkConfirmed(row, owner)
    case ToReconciled => ApplyIntents.Reconcile(row, owner)
    case ToPrepared => ReleaseTransient(row, owner)
    case ToFailed => ApplyIntents.Fail(row, owner)
  }

  /** `prepare_apply_intent`: a settled failure is opened again, but keeps its source. */
  function PreparedRows(rows: map<nat, Row>, p: nat, kind: Kind, id: string): map<nat, Row> {
    var blank := Intent(ApplyIntents.Prepared, id, 0, false);
    if p !in rows then rows[p := Row(blank, kind, |rows|)]
    else if rows[p].intent.state.Failed? && rows[p].intent.settled then rows[p := rows[p].(intent := blank)]
    else rows
  }

  /** That is what preparing does to the row of any body. */
  lemma PreparedAlike(rows: map<nat, Row>, p: nat, kind: Kind, id: string, a: Patch)
    ensures var before: Rows := if p in rows then map[a := rows[p].intent] else map[];
      PreparedRows(rows, p, kind, id)[p].intent == Prepare(before, Request(a, id, 0, false))[a]
    ensures PreparedRows(rows, p, kind, id)[p].source == if p in rows then rows[p].source else kind
    ensures PreparedRows(rows, p, kind, id) - {p} == rows - {p}
  {
  }

  function Changed(rows: map<nat, Row>, p: nat, intent: Option<Intent>): map<nat, Row> {
    if p in rows && intent.Some? then rows[p := rows[p].(intent := intent.value)] else rows
  }

  /** `finalize_failed_review_apply_intents`. */
  function AllSettled(rows: map<nat, Row>): map<nat, Row> {
    map p | p in rows ::
      if FinalizeFailed(rows[p].intent).Some? then rows[p].(intent := FinalizeFailed(rows[p].intent).value) else rows[p]
  }

  // ------------------------------------------------------------------ steps

  function FromApplying(review: Status, to: Status): Status {
    if review.Applying? then to else review
  }

  function At(st: Claims, i: nat, o: Owner, at: OwnerPc): Claims {
    st.(owners := st.owners[i := o.(at := at)])
  }

  function Unlocked(st: Claims, i: nat): Claims {
    if st.lock == Held(i) then st.(lock := Free) else st
  }

  function Gone(st: Claims, i: nat): Claims {
    Unlocked(st, i).(owners := st.owners - {i})
  }

  /** `apply_claimed_review`, and the error path of the caller, which only the user's request has in full. */
  function OwnerNext(st: Claims, i: nat, o: Owner, step: OwnerStep): Option<Claims> {
    match (o.at, step)
    case (_, Crash) => Some(Gone(st, i))
    case (Claimed, TakeLock) => if st.lock.Free? then Some(At(st, i, o, Locked).(lock := Held(i))) else None
    case (Claimed, Conflict) => Some(At(st, i, o, Conflicted))
    case (Claimed, Fail) => Some(At(st, i, o, Errored))
    case (Locked, PrepareRow(p)) => Some(At(st, i, o, Body(p)).(rows := PreparedRows(st.rows, p, o.kind, o.id)))
    case (Locked, Fail) => Some(At(Unlocked(st, i), i, o, Errored))
    case (Body(p), UpdateRow(u)) =>
      if p in st.rows && Updated(st.rows[p].intent, u, o.id).Some?
      then Some(st.(rows := Changed(st.rows, p, Updated(st.rows[p].intent, u, o.id))))
      else None
    case (Body(p), Return) =>
      if p in st.rows && IsSuccess(st.rows[p].intent.state)
      then Some(At(Unlocked(st, i), i, o, Returned(p)))
      else None
    case (Body(p), Fail) => Some(At(Unlocked(st, i), i, o, Errored))
    case (Returned(p), MarkReview) => Some(At(st, i, o, Marked(p)).(review := FromApplying(st.review, Applied)))
    case (Returned(p), Fail) => if o.kind.Human? then Some(At(st, i, o, Errored)) else None
    case (Marked(p), FinalizeRow) =>
      if p in st.rows then Some(Gone(st, i).(rows := Changed(st.rows, p, Finalize(st.rows[p].intent)))) else None
    case (Marked(p), Fail) => if o.kind.Human? then Some(At(st, i, o, Errored)) else None
    case (Errored, Check) =>
      if exists p :: p in st.rows && Nonterminal(st.rows[p]) && Open(st.rows[p])
      then Some(Gone(st, i))
      else Some(At(st, i, o, Reverting))
    case (Conflicted, RevertReview) => Some(Gone(st, i).(review := FromApplying(st.review, Pending)))
    case (Reverting, RevertReview) =>
      var t := st.(review := FromApplying(st.review, Pending));
      Some(if o.kind.Human? then At(t, i, o, Settling) else Gone(t, i))
    case (Settling, SettleRows) => Some(Gone(st, i).(rows := AllSettled(st.rows)))
    case _ => None
  }

  function RecoverAt(st: Claims, p: nat, at: RecoveryPc): Option<Claims> {
    Some(st.(lock := Recovering(p, at)))
  }

  function Done(st: Claims): Option<Claims> {
    Some(st.(lock := Free))
  }

  /** `recover_review_apply_intent`, `settle_applied_review` and `settle_failed_review`, one statement at a time. */
  function RecoveryGo(st: Claims, p: nat, at: RecoveryPc, row: Row): Option<Claims> {
    var intent := row.intent;
    match at
    case Reread =>
      if intent.settled then Done(st)
      else if intent.state.Failed? then RecoverAt(st, p, FailedReread)
      else RecoverAt(st, p, Reprepare)
    case Reprepare => RecoverAt(st.(rows := PreparedRows(st.rows, p, row.source, intent.owner)), p, Execute)
    case Execute => if IsSuccess(intent.state) then RecoverAt(st, p, StatusBefore) else None
    case AfterError => if intent.state.Failed? then RecoverAt(st, p, FailedReread) else Done(st)
    case StatusBefore => if st.review.Applying? || st.review.Applied? then RecoverAt(st, p, Mark) else Done(st)
    case Mark =>
      if CanMark(row) then RecoverAt(st.(review := FromApplying(st.review, Applied)), p, StatusAfter) else Done(st)
    case StatusAfter => if st.review.Applied? then RecoverAt(st, p, Finish) else Done(st)
    case Finish => Done(st.(rows := Changed(st.rows, p, Finalize(intent))))
    case FailedReread => if UnsettledFailure(row) then RecoverAt(st, p, FailedStatus) else Done(st)
    case FailedStatus => RecoverAt(st, p, if st.review.Applying? then Revert else Verify)
    case Revert => RecoverAt(st.(review := FromApplying(st.review, Pending)), p, Verify)
    case Verify => if st.review.Pending? then RecoverAt(st, p, Settle) else Done(st)
    case Settle => Done(st.(rows := Changed(st.rows, p, FinalizeFailed(intent))))
  }

  function RecoveryNext(st: Claims, p: nat, at: RecoveryPc, step: RecoveryStep): Option<Claims> {
    match step
    case Die => Done(st)
    case Error => if at.Reprepare? || at.Execute? then RecoverAt(st, p, AfterError) else Done(st)
    case Go => if p in st.rows then RecoveryGo(st, p, at, st.rows[p]) else None
    case Work(u) =>
      if at.Execute? && p in st.rows && Updated(st.rows[p].intent, u, st.rows[p].intent.owner).Some?
      then Some(st.(rows := Changed(st.rows, p, Updated(st.rows[p].intent, u, st.rows[p].intent.owner))))
      else None
  }

  /** `reset_stale_applying_reviews`, at any age of the review. */
  function Swept(st: Claims): Option<Claims> {
    if (st.review.Applying? && NoneNonterminal(st.rows))
       || ((st.review.Approved? || st.review.Edited?) && NoneOpen(st.rows))
    then Some(st.(review := Pending))
    else None
  }

  /** A recovery candidate: unfinished, and no newer row of the review is. */
  predicate Candidate(rows: map<nat, Row>, p: nat) {
    p in rows && Open(rows[p]) && forall q :: q in rows && Open(rows[q]) ==> rows[q].created <= rows[p].created
  }

  /** The drain lists pending reviews without a failed intent; a listing may be old when it comes to the review. */
  predicate Drainable(review: Status, rows: map<nat, Row>) {
    review.Pending? && forall p :: p in rows ==> !rows[p].intent.state.Failed?
  }

  predicate Claimable(review: Status, kind: Kind) {
    if kind.Human? then review.Approved? || review.Edited? else review.Pending?
  }

  function Next(st: Claims, act: Action): Option<Claims> {
    match act
    case Decide(to) =>
      if st.review.Pending? && (to.Approved? || to.Edited? || to.Rejected?) then Some(st.(review := to)) else None
    case DrainList => if Drainable(st.review, st.rows) then Some(st.(drains := st.drains + 1)) else None
    case Claim(i, kind, id) =>
      if i in st.owners || !Claimable(st.review, kind) || (kind.Drain? <==> id != DRAIN_OWNER) then None
      else if kind.Drain? && st.drains == 0 then None
      else
        Some(st.(review := Applying, owners := st.owners[i := Owner(kind, id, Claimed)],
                 drains := if kind.Drain? then st.drains - 1 else st.drains))
    case Own(i, step) => if i in st.owners then OwnerNext(st, i, st.owners[i], step) else None
    case Sweep => Swept(st)
    case List(p) => if Candidate(st.rows, p) then Some(st.(listed := st.listed + {p})) else None
    case Recover(p) => if st.lock.Free? && p in st.listed then RecoverAt(st, p, Reread) else None
    case Recovery(step) => if st.lock.Recovering? then RecoveryNext(st, st.lock.p, st.lock.at, step) else None
  }

  const INIT := Claims(Pending, map[], map[], Free, {}, 0)

  predicate Reaches(from: Claims, run: seq<Action>, st: Claims)
    decreases |run|
  {
    if run == [] then from == st
    else
      var t := Next(from, run[0]);
      t.Some? && Reaches(t.value, run[1..], st)
  }

  lemma {:induction false} Joined(a: Claims, r1: seq<Action>, b: Claims, r2: seq<Action>, c: Claims)
    requires Reaches(a, r1, b) && Reaches(b, r2, c)
    ensures Reaches(a, r1 + r2, c)
    decreases |r1|
  {
    if r1 == [] {
      assert r1 + r2 == r2;
    } else {
      assert (r1 + r2)[1..] == r1[1..] + r2;
      Joined(Next(a, r1[0]).value, r1[1..], b, r2, c);
    }
  }

  lemma OneStep(a: Claims, act: Action)
    requires Next(a, act).Some?
    ensures Reaches(a, [act], Next(a, act).value)
  {
    assert [act][1..] == [];
  }
}
