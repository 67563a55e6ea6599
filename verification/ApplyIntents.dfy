/**
 * The durable intent rows and the conditional updates on them. Within one
 * source key the patch hash identifies a row, so rows are keyed by the body
 * itself. An update that matches no row returns `None`, as the SQL statement
 * reports zero affected rows.
 */
module ApplyIntents {
  import opened Options
  import opened Patches
  import PatchCodec

  /** `MAX_TRANSIENT_APPLY_RETRIES`. */
  const MAX_TRANSIENT_RETRIES := 5

  datatype State = Prepared | InFlight | Confirmed | Reconciled | Failed | Finalized

  predicate IsSuccess(s: State) {
    s.Confirmed? || s.Reconciled? || s.Finalized?
  }

  /** `transient` is `metadata.transient_failures`; `settled` is `finalized_at is not null`. */
  datatype Intent = Intent(state: State, owner: string, transient: nat, settled: bool)

  type Rows = map<Patch, Intent>

  /** One logical PATCH request; the metadata it persists may carry a failure count. */
  datatype Request = Request(patch: Patch, owner: string, transient: nat, fallback: bool)

  /** The failures of a PATCH call the loop tells apart. */
  datatype PatchError = Transient | BadRequest(mentionsCustom: bool) | OtherError

  predicate IsCustomFieldsBadRequest(e: PatchError) {
    e.BadRequest? && e.mentionsCustom
  }

  predicate SettledFailure(row: Intent) {
    row.state.Failed? && row.settled
  }

  /** The row is new, or a settled failure that a new decision opens again. */
  predicate Opens(rows: Rows, a: Patch) {
    a !in rows || SettledFailure(rows[a])
  }

  function Prepare(rows: Rows, req: Request): Rows {
    if Opens(rows, req.patch)
    then rows[req.patch := Intent(Prepared, req.owner, req.transient, false)]
    else rows
  }

  /** Preparing leaves a row somebody may execute, finalize or settle, and restarts no row but a settled failure. */
  lemma PreparedIsLive(rows: Rows, req: Request)
    ensures var a, after := req.patch, Prepare(rows, req);
      && after.Keys == rows.Keys + {a} && !SettledFailure(after[a])
      && (forall b :: b in rows && !(b == a && SettledFailure(rows[b])) ==> after[b] == rows[b])
      && (a !in rows || SettledFailure(rows[a]) ==>
            after[a].state.Prepared? && Recoverable(after[a]) && after[a].owner == req.owner
            && after[a].transient == req.transient)
  {
  }

  function MarkInFlight(row: Intent, owner: string): Option<Intent> {
    if row.state.Prepared? then Some(row.(state := InFlight, owner := owner)) else None
  }

  function MarkConfirmed(row: Intent, owner: string): Option<Intent> {
    if row.state.InFlight? && row.owner == owner then Some(row.(state := Confirmed)) else None
  }

  function Reconcile(row: Intent, owner: string): Option<Intent> {
    if row.state.InFlight? then Some(row.(state := Reconciled, owner := owner)) else None
  }

  function Fail(row: Intent, owner: string): Option<Intent> {
    if row.state.Prepared? || row.state.InFlight? then Some(row.(state := Failed, owner := owner)) else None
  }

  function ReleaseTransient(row: Intent, owner: string): Option<Intent> {
    if row.state.InFlight? && row.owner == owner && row.transient < MAX_TRANSIENT_RETRIES
    then Some(row.(state := Prepared, transient := row.transient + 1))
    else None
  }

  function Finalize(row: Intent): Option<Intent> {
    if row.state.Confirmed? || row.state.Reconciled?
    then Some(row.(state := Finalized, settled := true))
    else None
  }

  function FinalizeFailed(row: Intent): Option<Intent> {
    if row.state.Failed? && !row.settled then Some(row.(settled := true)) else None
  }

  /** Rows `resume_apply_source` and review recovery execute again. */
  predicate Recoverable(row: Intent) {
    (row.state.Prepared? || row.state.InFlight? || row.state.Confirmed? || row.state.Reconciled?) && !row.settled
  }

  /** `request_from_intent`: the body decoded from the row, its owner and metadata, without fallback. */
  function RequestFrom(a: Patch, row: Intent): Request {
    Request(PatchCodec.Recovered(a), row.owner, row.transient, false)
  }
}
