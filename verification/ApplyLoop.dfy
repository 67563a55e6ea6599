/**
 * `apply_document_inner` and `reconcile_existing` as they run while the source
 * lock is held: a loop over DB statements and HTTP calls. Every statement is tied
 * to one action of ApplyProtocol, so what ApplySafety proves of all runs holds of
 * the loop. Around every HTTP call the rest of the world may act, and every statement
 * on the intent row may fail, before or after it took effect. Which of this happens is
 * given, so the contracts say what the loop makes of it.
 */
module ApplyLoop {
  import opened Options
  import opened Patches
  import opened ApplyIntents
  import opened ApplyHistory
  import opened ApplyProtocol
  import opened ApplySafety

  /** `ApplyExecution`: the success state found or reached, the body, the fallback flag. */
  datatype Execution = Execution(outcome: State, patch: Patch, dropped: bool)

  datatype Failure =
    | AlreadyFailed        // the attempt failed before
    | WillRetry            // transient failure, the attempt is prepared again
    | NotApplied           // the PATCH failed and the document does not carry the body
    | Mismatch             // an in-flight attempt does not match the document
    | Unreadable           // the outcome stays ambiguous: the document could not be read
    | DatabaseError        // a statement on the intent row failed, or its answer was lost

  lemma {:induction false} ReachesOneMore(init: Source, run: seq<Action>, s: Source, act: Action)
    requires Reaches(init, run, s) && Next(s, act).Some?
    ensures Reaches(init, run + [act], Next(s, act).value)
    decreases |run|
  {
    if run == [] {
      assert [act][1..] == [];
    } else {
      assert (run + [act])[1..] == run[1..] + [act];
      ReachesOneMore(Next(init, run[0]).value, run[1..], s, act);
    }
  }

  /** The bodies sent, in order. */
  function SentBodies(h: History): seq<Patch> {
    if h == [] then []
    else SentBodies(h[..|h| - 1]) + if h[|h| - 1].Sent? then [h[|h| - 1].a] else []
  }

  lemma SentBodiesPush(h: History, e: Event)
    ensures SentBodies(h + [e]) == SentBodies(h) + if e.Sent? then [e.a] else []
  {
    assert (h + [e])[..|h|] == h;
  }

  /** The body an action sends: only the step at `Send` sends one. */
  function SentIn(s: Source, act: Action): seq<Patch> {
    if act.Run? && s.inside.Some? && s.inside.value.at.Send? then [s.inside.value.req.patch] else []
  }

  /** A step logs at most one event. */
  predicate LogsOne(s: Source, t: Source, sent: seq<Patch>) {
    || (t.hist == s.hist && sent == [])
    || (|t.hist| > 0 &&
        var e := t.hist[|t.hist| - 1];
        t.hist == s.hist + [e] && sent == if e.Sent? then [e.a] else [])
  }

  lemma FoundLogs(s: Source, pc: Pc, reply: Reply)
    requires s.inside == Some(pc) && pc.at.Top? && !Opens(s.rows, pc.req.patch)
    ensures Body(s, pc, reply).Some? && LogsOne(s, Body(s, pc, reply).value, [])
  {
    assert Open(s, pc.req) == s;
    match s.rows[pc.req.patch].state {
      case Confirmed | Reconciled | Finalized =>
      case Failed | InFlight | Prepared =>
    }
  }

  /** The points at which a statement on the row or a PATCH call ends. */
  lemma StatementLogs(s: Source, pc: Pc, reply: Reply)
    requires s.inside == Some(pc) && Body(s, pc, reply).Some?
    requires pc.at.Claim? || pc.at.AwaitPatch? || pc.at.Confirm? || pc.at.ReconcileOwn? || pc.at.ReconMark?
    ensures LogsOne(s, Body(s, pc, reply).value, [])
  {
  }

  lemma ReadLogs(s: Source, pc: Pc, reply: Reply)
    requires s.inside == Some(pc) && Body(s, pc, reply).Some?
    requires pc.at.Reread? || pc.at.Requery? || pc.at.ReadBack? || pc.at.ReconRead?
    ensures LogsOne(s, Body(s, pc, reply).value, [])
  {
  }

  lemma BodyLogs(s: Source, pc: Pc, reply: Reply)
    requires s.inside == Some(pc) && Body(s, pc, reply).Some?
    ensures LogsOne(s, Body(s, pc, reply).value, SentIn(s, Run(reply)))
  {
    match pc.at {
      case Top => if Opens(s.rows, pc.req.patch) { OpenIsOpened(s, pc, reply); } else { FoundLogs(s, pc, reply); }
      case Claim | AwaitPatch | Confirm | ReconcileOwn | ReconMark => StatementLogs(s, pc, reply);
      case Reread | Requery | ReadBack | ReconRead => ReadLogs(s, pc, reply);
      case Send | Release | FailOwn | ReconFail | Finished =>
    }
  }

  lemma NextLogs(s: Source, act: Action)
    requires Next(s, act).Some?
    ensures LogsOne(s, Next(s, act).value, SentIn(s, act))
  {
    if act.Run? { BodyLogs(s, s.inside.value, act.reply); }
  }

  lemma NextSends(s: Source, act: Action)
    requires Next(s, act).Some?
    ensures var t := Next(s, act).value;
      s.hist <= t.hist && SentBodies(t.hist) == SentBodies(s.hist) + SentIn(s, act)
  {
    var t := Next(s, act).value;
    NextLogs(s, act);
    if t.hist != s.hist { SentBodiesPush(s.hist, t.hist[|t.hist| - 1]); }
  }

  /** Where prepare_apply_intent leads, by the state of the row it returns. */
  function AfterPrepare(state: State): Label {
    if state.Prepared? then Claim else if state.InFlight? then ReconRead else Finished
  }

  lemma PrepareStep(s: Source, pc: Pc)
    requires s.inside == Some(pc) && pc.at == Top
    ensures Next(s, Run(Done)).Some?
    ensures var t := Next(s, Run(Done)).value;
      && t.rows == Prepare(s.rows, pc.req) && t.doc == s.doc && t.wire == s.wire
      && t.inside == Some(pc.(at := AfterPrepare(t.rows[pc.req.patch].state)))
  {
    if Opens(s.rows, pc.req.patch) { OpenIsOpened(s, pc, Done); }
  }

  /** What a request carried out by Paperless adds to the history. */
  lemma ArrivalStep(s: Source, b: Patch, a: Patch)
    requires b in s.wire
    ensures var t := Next(s, Arrive(b)).value;
      && t == s.(doc := Land(s.doc, b), wire := s.wire - multiset{b}, hist := s.hist + [Landed(b, Land(s.doc, b))])
      && Read(t.hist, a).landed == (Read(s.hist, a).landed || a == b)
  {
    ReadPush(s.hist, Landed(b, Land(s.doc, b)), a);
  }

  /** What others may do at any time without the source lock. */
  predicate FromOutside(act: Action) {
    act.Arrive? || act.Lose? || act.Edit? || act.SettleSuccess? || act.SettleFailure?
  }

  /** Lock discipline of every reachable state, without the rest of the invariant. */
  lemma ReachableHolder(init: Source, run: seq<Action>, s: Source, patches: seq<Patch>)
    requires Recorded(init, run, s, patches)
    ensures HolderOk(s)
  {
    RecordedReaches(init, run, s, patches);
    InitialInv(init);
    ReachableInv(init, run, s);
  }

  /** Asks `Recorded` for its run. */
  predicate Unrolled(run: seq<Action>) {
    true
  }

  /**
   * `run` leads from the empty protocol `start` to `s` and sends the bodies `patches`.
   * Statements of the loop need only the last state, so the run stays folded until
   * `Unrolled` asks for it.
   */
  ghost predicate Recorded(start: Source, run: seq<Action>, s: Source, patches: seq<Patch>) {
    Init(start) && forall r {:trigger Unrolled(r)} :: r == run ==> Reaches(start, r, s) && patches == SentBodies(s.hist)
  }

  lemma RecordedReaches(start: Source, run: seq<Action>, s: Source, patches: seq<Patch>)
    ensures Recorded(start, run, s, patches) <==> Init(start) && Reaches(start, run, s) && patches == SentBodies(s.hist)
  {
    assert Unrolled(run);
  }

  lemma RecordedOneMore(start: Source, run: seq<Action>, s: Source, patches: seq<Patch>, act: Action)
    requires Recorded(start, run, s, patches) && Next(s, act).Some?
    ensures Recorded(start, run + [act], Next(s, act).value, patches + SentIn(s, act))
  {
    RecordedReaches(start, run, s, patches);
    ReachesOneMore(start, run, s, act);
    NextSends(s, act);
    RecordedReaches(start, run + [act], Next(s, act).value, patches + SentIn(s, act));
  }

  // ------------------------------------------- the statements under the lock

  lemma HoldsRow(start: Source, run: seq<Action>, s: Source, patches: seq<Patch>, pc: Pc)
    requires Recorded(start, run, s, patches) && s.inside == Some(pc)
    requires Owned(pc.at) || Settling(pc.at) || pc.at == Claim
    ensures var a := pc.req.patch; a in s.rows && s.rows[a].state == (if pc.at == Claim then Prepared else InFlight)
    ensures Owned(pc.at) ==> s.rows[pc.req.patch].owner == pc.req.owner
  {
    ReachableHolder(start, run, s, patches);
  }

  lemma ClaimRuns(s: Source, pc: Pc)
    requires s.inside == Some(pc) && pc.at == Claim && pc.req.patch in s.rows && s.rows[pc.req.patch].state == Prepared
    ensures var a := pc.req.patch; var row := s.rows[a].(state := InFlight, owner := pc.req.owner);
      MarkInFlight(s.rows[a], pc.req.owner) == Some(row) &&
      Next(s, Run(Done)) == Some(s.(rows := s.rows[a := row], inside := Some(pc.(at := Send)),
                                    hist := s.hist + [Entered(a, pc.proc)]))
  {
  }

  /** A fresh request has not landed. */
  lemma FreshHasNotLanded(h: History, a: Patch, proc: nat)
    ensures !Read(h + [Sent(a, proc)], a).landed
  {
    ReadPush(h, Sent(a, proc), a);
  }

  lemma SendRuns(s: Source, pc: Pc)
    requires s.inside == Some(pc) && pc.at == Send && pc.req.patch in s.rows
    ensures var a := pc.req.patch;
      Next(s, Run(Done)) == Some(s.(wire := s.wire + multiset{a}, inside := Some(pc.(at := AwaitPatch)),
                                    hist := s.hist + [Sent(a, pc.proc)]))
  {
  }

  lemma AnswerRuns(s: Source, pc: Pc)
    requires s.inside == Some(pc) && pc.at == AwaitPatch && pc.req.patch in s.rows && Read(s.hist, pc.req.patch).landed
    ensures var a := pc.req.patch;
      var t := s.(inside := Some(pc.(at := Confirm)), hist := s.hist + [Answered(a)]);
      Next(s, Run(Done)) == Some(t) && Read(t.hist, a).landed
  {
    ReadPush(s.hist, Answered(pc.req.patch), pc.req.patch);
  }

  lemma ErrorRuns(s: Source, pc: Pc, e: PatchError)
    requires s.inside == Some(pc) && pc.at == AwaitPatch && pc.req.patch in s.rows
    ensures Next(s, Run(PatchFailed(e))) == Some(s.(inside := Some(pc.(at := ReadBack, error := e))))
  {
  }

  /** Where a GET leads. */
  function AfterGet(at: Label, hit: bool): Label {
    if at.ReadBack? then if hit then ReconcileOwn else Release else if hit then ReconMark else ReconFail
  }

  lemma GetRuns(s: Source, pc: Pc)
    requires s.inside == Some(pc) && (pc.at == ReadBack || pc.at == ReconRead) && pc.req.patch in s.rows
    ensures var a := pc.req.patch;
      Next(s, Run(Done)) == Some(s.(wire := multiset{}, inside := Some(pc.(at := AfterGet(pc.at, Matches(s.doc, a)))),
                                    hist := s.hist + [Observed(a, s.doc)]))
  {
  }

  lemma ConfirmRuns(s: Source, pc: Pc)
    requires s.inside == Some(pc) && pc.at == Confirm && pc.req.patch in s.rows
    requires s.rows[pc.req.patch].state == InFlight && s.rows[pc.req.patch].owner == pc.req.owner
    ensures var a := pc.req.patch; var row := s.rows[a].(state := Confirmed);
      MarkConfirmed(s.rows[a], pc.req.owner) == Some(row) &&
      Next(s, Run(Done)) == Some(s.(rows := s.rows[a := row], inside := Some(pc.(at := Finished)),
                                    hist := s.hist + [Reported(a, pc.proc)]))
  {
  }

  lemma ReconcileRuns(s: Source, pc: Pc)
    requires s.inside == Some(pc) && (pc.at == ReconcileOwn || pc.at == ReconMark) && pc.req.patch in s.rows
    requires s.rows[pc.req.patch].state == InFlight
    ensures var a := pc.req.patch; var row := s.rows[a].(state := Reconciled, owner := pc.req.owner);
      Reconcile(s.rows[a], pc.req.owner) == Some(row) &&
      Next(s, Run(Done)) == Some(s.(rows := s.rows[a := row], inside := Some(pc.(at := Finished)),
                                    hist := s.hist + [Reported(a, pc.proc)]))
  {
  }

  lemma ReleaseRuns(s: Source, pc: Pc)
    requires s.inside == Some(pc) && pc.at == Release && pc.req.patch in s.rows
    requires s.rows[pc.req.patch].state == InFlight && s.rows[pc.req.patch].owner == pc.req.owner
    ensures var a := pc.req.patch; var row := s.rows[a];
      var back := row.(state := Prepared, transient := row.transient + 1);
      var released := pc.error.Transient? && row.transient < MAX_TRANSIENT_RETRIES;
      && ReleaseTransient(row, pc.req.owner) == (if row.transient < MAX_TRANSIENT_RETRIES then Some(back) else None)
      && Next(s, Run(Done)) == Some(
           if released then s.(rows := s.rows[a := back], inside := Some(pc.(at := Finished)))
           else s.(inside := Some(pc.(at := FailOwn))))
  {
  }

  /** Where the loop goes once the attempt has failed. */
  function AfterFail(pc: Pc): Pc {
    if pc.at.FailOwn? && pc.req.fallback && pc.req.patch.customFields.Some? && IsCustomFieldsBadRequest(pc.error)
    then pc.(at := Top, req := Reduced(pc.req))
    else pc.(at := Finished)
  }

  lemma FailRuns(s: Source, pc: Pc)
    requires s.inside == Some(pc) && (pc.at == FailOwn || pc.at == ReconFail) && pc.req.patch in s.rows
    requires s.rows[pc.req.patch].state == InFlight
    ensures var a := pc.req.patch; var row := s.rows[a].(state := Failed, owner := pc.req.owner);
      Fail(s.rows[a], pc.req.owner) == Some(row) &&
      Next(s, Run(Done)) == Some(s.(rows := s.rows[a := row], inside := Some(AfterFail(pc))))
  {
  }

  /**
   * From position `i` of the run and `j` of the history on, Paperless rejected the
   * custom fields of `req`, and a GET saw the body not applied.
   */
  ghost predicate Rejected(req: Request, i: nat, run: seq<Action>, j: nat, hist: History) {
    && req.fallback && req.patch.customFields.Some?
    && (exists m :: i <= m < |run| && IsRejection(run[m]))
    && exists k :: j <= k < |hist| && Miss(hist[k], req.patch)
  }

  predicate IsRejection(act: Action) {
    act == Run(PatchFailed(BadRequest(true)))
  }

  lemma RejectedFromEarlier(req: Request, i: nat, run: seq<Action>, j: nat, hist: History, i': nat, j': nat)
    requires Rejected(req, i, run, j, hist) && i' <= i && j' <= j
    ensures Rejected(req, i', run, j', hist)
  {
  }

  /** Between two runs the PATCH was rejected for its custom fields. */
  ghost predicate Complained(before: seq<Action>, run: seq<Action>) {
    exists m :: |before| <= m < |run| && IsRejection(run[m])
  }

  lemma ComplainedLater(before: seq<Action>, run: seq<Action>, later: seq<Action>)
    requires Complained(before, run) && run <= later
    ensures Complained(before, later)
  {
    var m :| |before| <= m < |run| && IsRejection(run[m]);
    assert IsRejection(later[m]);
  }

  /** What happens later does not change that. */
  lemma StaysRejected(req: Request, i: nat, run: seq<Action>, run': seq<Action>, j: nat, hist: History, hist': History)
    requires Rejected(req, i, run, j, hist) && run <= run' && hist <= hist'
    ensures Rejected(req, i, run', j, hist')
  {
    var m :| i <= m < |run| && IsRejection(run[m]);
    assert IsRejection(run'[m]);
    var k :| j <= k < |hist| && Miss(hist[k], req.patch);
    assert Miss(hist'[k], req.patch);
  }

  /**
   * What happens around one statement or call: others act first; it may fail, or take
   * effect without an answer; a PATCH is answered with success or ends in `error`.
   */
  datatype Turn = Turn(outside: seq<Action>, fails: bool, lost: bool, answered: bool, error: PatchError)

  /** Nobody acts, nothing fails; a PATCH nobody carries out ends as a transient error. */
  const CLEAR := Turn([], false, false, true, PatchError.Transient)

  function TurnAt(turns: seq<Turn>, k: nat): Turn {
    if k < |turns| then turns[k] else CLEAR
  }

  predicate Broken(t: Turn) {
    t.fails || t.lost
  }

  /** One of the statements from `i` to `j` failed or went without an answer. */
  ghost predicate Faulty(turns: seq<Turn>, i: nat, j: nat) {
    exists k: nat :: i <= k < j && Broken(TurnAt(turns, k))
  }

  /** A GET on behalf of `a` saw `doc`, from position `j` of the history on. */
  ghost predicate Saw(hist: History, j: nat, a: Patch, doc: Document) {
    exists k :: j <= k < |hist| && hist[k] == Observed(a, doc)
  }

  function Spent(rows: Rows, a: Patch): nat {
    if a in rows then rows[a].transient else 0
  }

  /** The attempt is open and claimed or not; only the lock holder changes such a row. */
  predicate IsOpen(rows: Rows, a: Patch) {
    a in rows && (rows[a].state.Prepared? || rows[a].state.InFlight?)
  }

  /** A GET saw the document without the body, from position `j` of the history on. */
  ghost predicate Missed(hist: History, j: nat, a: Patch) {
    exists k :: j <= k < |hist| && Miss(hist[k], a)
  }

  predicate StateIs(rows: Rows, a: Patch, state: State) {
    a in rows && rows[a].state == state
  }

  /** The execution is of request `req`, whose row is in the success state it reports. */
  predicate Names(e: Execution, req: Request, dropped: bool, rows: Rows) {
    e.patch == req.patch && e.dropped == dropped && IsSuccess(e.outcome) && StateIs(rows, req.patch, e.outcome)
  }

  /** What the result says of row, document and statements is so; turns `i` to `k` and the history from `j` on. */
  ghost predicate Told(r: Result<Execution, Failure>, req: Request, dropped: bool, rows: Rows,
                       turns: seq<Turn>, i: nat, k: nat, j: nat, hist: History)
  {
    match r
    case Ok(e) => Names(e, req, dropped, rows)
    case Err(AlreadyFailed) | Err(Mismatch) => StateIs(rows, req.patch, Failed)
    case Err(WillRetry) => StateIs(rows, req.patch, Prepared) && Missed(hist, j, req.patch)
    case Err(NotApplied) => StateIs(rows, req.patch, Failed) && Missed(hist, j, req.patch)
    case Err(Unreadable) | Err(DatabaseError) => Faulty(turns, i, k)
  }

  /** It is so as well when one looks back further. */
  lemma ToldFromEarlier(r: Result<Execution, Failure>, req: Request, dropped: bool, rows: Rows,
                        turns: seq<Turn>, i: nat, k: nat, j: nat, hist: History, i': nat, j': nat)
    requires Told(r, req, dropped, rows, turns, i, k, j, hist) && i' <= i && j' <= j
    ensures Told(r, req, dropped, rows, turns, i', k, j', hist)
  {
  }

  /** What `reconcile_existing` returns when its turns start at `k` and its GET finds the body or not. */
  function ReconcileOutcome(turns: seq<Turn>, k: nat, hit: bool, done: Execution): Result<Execution, Failure> {
    if TurnAt(turns, k).fails then Err(Unreadable)
    else if Broken(TurnAt(turns, k + 1)) then Err(DatabaseError)
    else if hit then Ok(done)
    else Err(Mismatch)
  }

  /** What follows a failed PATCH whose GET missed: `None` is another round without custom fields. */
  function MissOutcome(turns: seq<Turn>, k: nat, req: Request, error: PatchError, spent: nat)
    : Option<Result<Execution, Failure>>
  {
    if error.Transient? && Broken(TurnAt(turns, k)) then Some(Err(DatabaseError))
    else if error.Transient? && spent < MAX_TRANSIENT_RETRIES then Some(Err(WillRetry))
    else if Broken(TurnAt(turns, if error.Transient? then k + 1 else k)) then Some(Err(DatabaseError))
    else if req.fallback && req.patch.customFields.Some? && error == BadRequest(true) then None
    else Some(Err(NotApplied))
  }

  /** What follows a failed PATCH, when the turns start at `k` and the GET finds the body or not. */
  function ErrorOutcome(turns: seq<Turn>, k: nat, hit: bool, req: Request, error: PatchError, spent: nat,
                        done: Execution)
    : Option<Result<Execution, Failure>>
  {
    if TurnAt(turns, k).fails then Some(Err(Unreadable))
    else if !hit then MissOutcome(turns, k + 1, req, error, spent)
    else if Broken(TurnAt(turns, k + 1)) then Some(Err(DatabaseError))
    else Some(Ok(done))
  }

  class Session {
    var rows: Rows
    var doc: Document
    var wire: multiset<Patch>
    var now: nat                   // the turns that are over
    const turns: seq<Turn>
    ghost var src: Source
    ghost var run: seq<Action>
    ghost var patches: seq<Patch>  // the bodies sent, in order
    ghost const start: Source

    ghost predicate Valid()
      reads this
    {
      && src.rows == rows && src.doc == doc && src.wire == wire
      && Recorded(start, run, src, patches)
    }

    /** The lock holder is at `at` with request `req`. */
    ghost predicate Doing(at: Label, req: Request)
      reads this
    {
      Valid() && src.inside.Some? && src.inside.value.at == at && src.inside.value.req == req
    }

    /** Nothing recorded before is lost. */
    twostate predicate Grew()
      reads this
    {
      old(run) <= run && old(src).hist <= src.hist && old(now) <= now
    }

    /** Record that the statement just executed is the protocol's action `act`. */
    ghost method Take(act: Action)
      requires Recorded(start, run, src, patches) && Next(src, act).Some?
      modifies this`src, this`run, this`patches
      ensures src == Next(old(src), act).value && run == old(run) + [act]
      ensures patches == old(patches) + SentIn(old(src), act)
      ensures Recorded(start, run, src, patches) && old(src).hist <= src.hist
    {
      RecordedOneMore(start, run, src, patches, act);
      NextSends(src, act);
      patches := patches + SentIn(src, act);
      src := Next(src, act).value;
      run := run + [act];
    }

    /** Paperless carries out a request that is still on the wire. */
    method Deliver(b: Patch, a: Patch)
      requires Valid() && b in wire
      modifies this
      ensures Valid() && Grew() && src.inside == old(src).inside
      ensures patches == old(patches)
      ensures Read(src.hist, a).landed == (Read(old(src).hist, a).landed || a == b)
      ensures rows == old(rows) && now == old(now)
    {
      ArrivalStep(src, b, a);
      doc, wire := Land(doc, b), wire - multiset{b};
      Take(Arrive(b));
    }

    /** Somebody else edits the document. */
    method Rewrite(d: Document, a: Patch)
      requires Valid()
      modifies this
      ensures Valid() && Grew() && src.inside == old(src).inside
      ensures patches == old(patches)
      ensures Read(src.hist, a).landed == Read(old(src).hist, a).landed
      ensures rows == old(rows) && now == old(now)
    {
      doc := d;
      Take(Edit(d));
    }

    /** One action of somebody else, if it is possible at this moment. */
    method Outside(act: Action, a: Patch)
      requires Valid() && FromOutside(act)
      modifies this
      ensures Valid() && Grew() && src.inside == old(src).inside
      ensures patches == old(patches)
      ensures Read(src.hist, a).landed == (Read(old(src).hist, a).landed || (act == Arrive(a) && a in old(wire)))
      ensures IsOpen(old(rows), a) ==> IsOpen(rows, a) && rows[a] == old(rows)[a]
      ensures now == old(now)
    {
      match act {
        case Arrive(b) =>
          if b in wire { Deliver(b, a); }
        case Lose(b) =>
          if b in wire {
            wire := wire - multiset{b};
            Take(act);
          }
        case Edit(d) =>
          Rewrite(d, a);
        case SettleSuccess(b) =>
          if b in rows && Finalize(rows[b]).Some? {
            rows := rows[b := Finalize(rows[b]).value];
            Take(act);
          }
        case SettleFailure(b) =>
          if b in rows && FinalizeFailed(rows[b]).Some? {
            rows := rows[b := FinalizeFailed(rows[b]).value];
            Take(act);
          }
      }
    }

    /** The given actions of others, as far as they are possible; reports whether request `a` arrived. */
    method Elsewhere(a: Patch, outside: seq<Action>) returns (arrived: bool)
      requires Valid()
      modifies this
      ensures Valid() && Grew() && src.inside == old(src).inside
      ensures patches == old(patches) && now == old(now)
      ensures Read(src.hist, a).landed == (Read(old(src).hist, a).landed || arrived)
      ensures IsOpen(old(rows), a) ==> IsOpen(rows, a) && rows[a] == old(rows)[a]
      ensures outside == [] ==> src == old(src) && run == old(run) && !arrived
    {
      arrived := false;
      for k := 0 to |outside|
        invariant Valid() && Grew() && src.inside == old(src).inside
        invariant patches == old(patches) && now == old(now)
        invariant Read(src.hist, a).landed == (Read(old(src).hist, a).landed || arrived)
        invariant IsOpen(old(rows), a) ==> IsOpen(rows, a) && rows[a] == old(rows)[a]
        invariant k == 0 ==> src == old(src) && run == old(run) && !arrived
      {
        if FromOutside(outside[k]) {
          arrived := arrived || (outside[k] == Arrive(a) && a in wire);
          Outside(outside[k], a);
        }
      }
    }

    /** A database error, before a statement took effect or with its answer lost, ends the body. */
    method BreakIf(broken: bool)
      requires Valid() && src.inside.Some?
      modifies this`src, this`run, this`patches
      ensures Valid() && old(run) <= run && patches == old(patches) && src.hist == old(src).hist && src.inside.Some?
      ensures broken ==> src.inside.value == old(src).inside.value.(at := Finished)
      ensures !broken ==> src == old(src) && run == old(run)
    {
      if broken { Take(Break); }
    }

    /** The next turn. */
    method NextTurn() returns (turn: Turn)
      modifies this`now
      ensures turn == TurnAt(turns, old(now)) && now == old(now) + 1
    {
      turn := TurnAt(turns, now);
      now := now + 1;
    }

    /** `prepare_apply_intent`; `None` is a database error. */
    method PrepareIntent(req: Request) returns (found: Option<Intent>)
      requires Doing(Top, req)
      modifies this
      ensures Valid() && Grew() && patches == old(patches)
      ensures now == old(now) + 1 && (found.None? <==> Broken(TurnAt(turns, old(now))))
      ensures found.None? ==> Doing(Finished, req)
      ensures rows == if TurnAt(turns, old(now)).fails then old(rows) else Prepare(old(rows), req)
      ensures found.Some? ==> req.patch in rows && found.value == rows[req.patch]
      ensures found.Some? ==> Doing(AfterPrepare(found.value.state), req)
    {
      var turn := NextTurn();
      BreakIf(turn.fails);
      if turn.fails {
        return None;
      }
      PrepareStep(src, src.inside.value);
      rows := Prepare(rows, req);
      var row := rows[req.patch];
      Take(Run(Done));
      BreakIf(turn.lost);
      found := if turn.lost then None else Some(row);
    }

    /** `mark_apply_intent_in_flight`: under the lock the claim succeeds unless the database fails. */
    method ClaimIntent(req: Request) returns (claimed: Option<bool>)
      requires Doing(Claim, req)
      modifies this
      ensures Grew() && patches == old(patches)
      ensures now == old(now) + 1 && (claimed.None? <==> Broken(TurnAt(turns, old(now))))
      ensures if claimed.None? then Doing(Finished, req) else claimed.value && Doing(Send, req)
      ensures !TurnAt(turns, old(now)).fails ==>
        && req.patch in old(rows)
        && rows == old(rows)[req.patch := old(rows)[req.patch].(state := InFlight, owner := req.owner)]
      ensures TurnAt(turns, old(now)).fails ==> rows == old(rows)
    {
      var turn := NextTurn();
      BreakIf(turn.fails);
      if turn.fails {
        return None;
      }
      HoldsRow(start, run, src, patches, src.inside.value);
      ClaimRuns(src, src.inside.value);
      var row := MarkInFlight(rows[req.patch], req.owner);
      if row.Some? { rows := rows[req.patch := row.value]; }
      Take(Run(Done));
      BreakIf(turn.lost);
      claimed := if turn.lost then None else Some(row.Some?);
    }

    /** The request goes out, and others act; reports whether it arrived. */
    method SendPatch(req: Request, outside: seq<Action>) returns (arrived: bool)
      requires Doing(Send, req)
      modifies this
      ensures Grew() && Doing(AwaitPatch, req) && patches == old(patches) + [req.patch] && now == old(now)
      ensures arrived == Read(src.hist, req.patch).landed
      ensures IsOpen(rows, req.patch) && req.patch in old(rows) && rows[req.patch] == old(rows)[req.patch]
    {
      HoldsRow(start, run, src, patches, src.inside.value);
      SendRuns(src, src.inside.value);
      FreshHasNotLanded(src.hist, req.patch, src.inside.value.proc);
      wire := wire + multiset{req.patch};
      Take(Run(Done));
      arrived := Elsewhere(req.patch, outside);
    }

    /** The PATCH call: the request goes out, the world moves on, and the call returns somehow. */
    method PatchDocument(req: Request) returns (error: Option<PatchError>)
      requires Doing(Send, req)
      modifies this
      ensures Grew() && patches == old(patches) + [req.patch]
      ensures error.None? ==> Doing(Confirm, req)
      ensures error.Some? ==> Doing(ReadBack, req) && src.inside.value.error == error.value
      ensures error.Some? ==> Run(PatchFailed(error.value)) in run[|old(run)|..]
      // It succeeds exactly if the request landed and the response came back.
      ensures now == old(now) + 1
      ensures error.None? <==> TurnAt(turns, old(now)).answered && Read(src.hist, req.patch).landed
      ensures error.Some? ==> error.value == TurnAt(turns, old(now)).error
      ensures IsOpen(rows, req.patch) && req.patch in old(rows) && rows[req.patch] == old(rows)[req.patch]
    {
      var turn := NextTurn();
      var arrived := SendPatch(req, turn.outside);
      if arrived && turn.answered {
        AnswerRuns(src, src.inside.value);
        Take(Run(Done));
        error := None;
      } else {
        ErrorRuns(src, src.inside.value, turn.error);
        Take(Run(PatchFailed(turn.error)));
        error := Some(turn.error);
        assert run[|run| - 1] == Run(PatchFailed(turn.error));
      }
    }

    /** `mark_apply_intent_confirmed`. */
    method ConfirmIntent(req: Request) returns (done: Option<bool>)
      requires Doing(Confirm, req)
      modifies this
      ensures Grew() && Doing(Finished, req) && patches == old(patches)
      ensures now == old(now) + 1 && (done.None? <==> Broken(TurnAt(turns, old(now))))
      ensures done.Some? ==> done.value && req.patch in rows && rows[req.patch].state == Confirmed
    {
      var turn := NextTurn();
      BreakIf(turn.fails);
      if turn.fails {
        return None;
      }
      HoldsRow(start, run, src, patches, src.inside.value);
      ConfirmRuns(src, src.inside.value);
      var row := MarkConfirmed(rows[req.patch], req.owner);
      if row.Some? { rows := rows[req.patch := row.value]; }
      Take(Run(Done));
      BreakIf(turn.lost);
      done := if turn.lost then None else Some(row.Some?);
    }

    /** The document as it is now; nothing sent before it is on the wire any more. */
    method See(req: Request) returns (seen: Document)
      requires Doing(ReadBack, req) || Doing(ReconRead, req)
      requires req.patch in rows
      modifies this
      ensures Valid() && Grew() && patches == old(patches) && rows == old(rows) && now == old(now)
      ensures Doing(AfterGet(old(src).inside.value.at, Matches(seen, req.patch)), req)
      ensures src.inside.value.error == old(src).inside.value.error
      ensures src.hist == old(src).hist + [Observed(req.patch, seen)]
    {
      GetRuns(src, src.inside.value);
      seen := doc;
      wire := multiset{};
      Take(Run(Done));
    }

    /** A GET after a failed PATCH (`ReadBack`) or of an in-flight attempt (`ReconRead`). */
    method GetDocument(req: Request) returns (seen: Option<Document>)
      requires Doing(ReadBack, req) || Doing(ReconRead, req)
      modifies this
      ensures Valid() && Grew() && patches == old(patches)
      ensures now == old(now) + 1 && (seen.None? <==> TurnAt(turns, old(now)).fails)
      ensures IsOpen(rows, req.patch) && req.patch in old(rows) && rows[req.patch] == old(rows)[req.patch]
      ensures seen.None? ==> Doing(Finished, req)
      ensures seen.Some? ==>
        var hit := Matches(seen.value, req.patch);
        && Doing(AfterGet(old(src).inside.value.at, hit), req)
        && src.inside.value.error == old(src).inside.value.error
      ensures seen.Some? ==> |src.hist| > |old(src).hist| && src.hist[|src.hist| - 1] == Observed(req.patch, seen.value)
    {
      var turn := NextTurn();
      HoldsRow(start, run, src, patches, src.inside.value);
      var _ := Elsewhere(req.patch, turn.outside);
      if turn.fails {
        Take(Break);
        return None;
      }
      var found := See(req);
      seen := Some(found);
    }

    /** `reconcile_apply_intent`. */
    method ReconcileIntent(req: Request) returns (done: Option<bool>)
      requires Doing(ReconcileOwn, req) || Doing(ReconMark, req)
      modifies this
      ensures Grew() && Doing(Finished, req) && patches == old(patches)
      ensures now == old(now) + 1 && (done.None? <==> Broken(TurnAt(turns, old(now))))
      ensures done.Some? ==> done.value && req.patch in rows && rows[req.patch].state == Reconciled
    {
      var turn := NextTurn();
      BreakIf(turn.fails);
      if turn.fails {
        return None;
      }
      HoldsRow(start, run, src, patches, src.inside.value);
      ReconcileRuns(src, src.inside.value);
      var row := Reconcile(rows[req.patch], req.owner);
      if row.Some? { rows := rows[req.patch := row.value]; }
      Take(Run(Done));
      BreakIf(turn.lost);
      done := if turn.lost then None else Some(row.Some?);
    }

    /** `release_transient_apply_intent`, tried only for a transient error. */
    method ReleaseIntent(req: Request, error: PatchError) returns (released: Option<bool>)
      requires Doing(Release, req) && src.inside.value.error == error
      modifies this
      ensures Grew() && patches == old(patches)
      ensures Doing(if released == Some(false) then FailOwn else Finished, req) && src.inside.value.error == error
      ensures now == if error.Transient? then old(now) + 1 else old(now)
      ensures released ==
        if !error.Transient? then Some(false)
        else if Broken(TurnAt(turns, old(now))) then None
        else Some(Spent(old(rows), req.patch) < MAX_TRANSIENT_RETRIES)
      ensures released == Some(true) ==> req.patch in rows && rows[req.patch].state == Prepared
      ensures released == Some(false) ==> rows == old(rows)
    {
      HoldsRow(start, run, src, patches, src.inside.value);
      ReleaseRuns(src, src.inside.value);
      if !error.Transient? {
        Take(Run(Done));
        return Some(false);
      }
      var turn := NextTurn();
      BreakIf(turn.fails);
      if turn.fails {
        return None;
      }
      var row := ReleaseTransient(rows[req.patch], req.owner);
      if row.Some? { rows := rows[req.patch := row.value]; }
      Take(Run(Done));
      BreakIf(turn.lost);
      released := if turn.lost then None else Some(row.Some?);
    }

    /** `fail_apply_intent`. */
    method FailIntent(req: Request) returns (done: Option<bool>)
      requires Doing(FailOwn, req) || Doing(ReconFail, req)
      modifies this
      ensures Valid() && Grew() && patches == old(patches)
      ensures now == old(now) + 1 && (done.None? <==> Broken(TurnAt(turns, old(now))))
      ensures done.None? ==> src.inside.Some? && src.inside.value.at == Finished
      ensures done.Some? ==>
        && done.value && req.patch in rows && rows[req.patch].state == Failed
        && var pc := old(src).inside.value;
           if pc.at.FailOwn? && req.fallback && req.patch.customFields.Some? && IsCustomFieldsBadRequest(pc.error)
           then Doing(Top, Reduced(req))
           else Doing(Finished, req)
    {
      var turn := NextTurn();
      BreakIf(turn.fails);
      if turn.fails {
        return None;
      }
      HoldsRow(start, run, src, patches, src.inside.value);
      FailRuns(src, src.inside.value);
      var row := Fail(rows[req.patch], req.owner);
      if row.Some? { rows := rows[req.patch := row.value]; }
      Take(Run(Done));
      BreakIf(turn.lost);
      done := if turn.lost then None else Some(row.Some?);
    }

    /** `reconcile_existing`: an in-flight attempt is settled by a GET, never sent again. */
    method ReconcileExisting(req: Request, dropped: bool) returns (r: Result<Execution, Failure>, ghost doc: Document)
      requires Doing(ReconRead, req)
      modifies this
      ensures Valid() && Grew() && src.inside.Some? && src.inside.value.at == Finished
      ensures patches == old(patches)
      ensures r == ReconcileOutcome(turns, old(now), Matches(doc, req.patch), Execution(Reconciled, req.patch, dropped))
      ensures !TurnAt(turns, old(now)).fails ==> Saw(src.hist, |old(src).hist|, req.patch, doc)
      ensures r.Err? && r.error != Mismatch ==> Faulty(turns, old(now), now)
      ensures r.Ok? ==> req.patch in rows && rows[req.patch].state == Reconciled
      ensures r == Err(Mismatch) ==> req.patch in rows && rows[req.patch].state == Failed
    {
      var seen := GetDocument(req);
      if seen.None? {
        return Err(Unreadable), *;
      }
      doc := seen.value;
      assert src.hist[|src.hist| - 1] == Observed(req.patch, doc);
      if !Matches(seen.value, req.patch) {
        var failed := FailIntent(req);
        return Err(if failed.None? then DatabaseError else Mismatch), doc;
      }
      var done := ReconcileIntent(req);
      r := if done.None? then Err(DatabaseError) else Ok(Execution(Reconciled, req.patch, dropped));
    }

    /** What the result says is so: of the row, of the document, or of a statement that failed. */
    twostate predicate Tells(new r: Result<Execution, Failure>, req: Request, dropped: bool)
      reads this
    {
      Told(r, req, dropped, rows, turns, old(now), now, |old(src).hist|, src.hist)
    }

    ghost predicate RowIs(req: Request, state: State)
      reads this
    {
      req.patch in rows && rows[req.patch].state == state
    }

    /** Since the old state, Paperless rejected the custom fields of `req` and a GET saw the body not applied. */
    twostate predicate FellBack(req: Request)
      reads this
    {
      Grew() && Rejected(req, |old(run)|, run, |old(src).hist|, src.hist)
    }

    /** The PATCH failed and a GET missed: the attempt is prepared again, or fails, perhaps for a smaller body. */
    method GiveUp(req: Request, error: PatchError) returns (r: Option<Result<Execution, Failure>>)
      requires Doing(Release, req) && src.inside.value.error == error
      modifies this
      ensures Valid() && Grew() && patches == old(patches)
      ensures r == MissOutcome(turns, old(now), req, error, Spent(old(rows), req.patch))
      ensures r.None? ==> Doing(Top, Reduced(req))
      ensures r.Some? ==> src.inside.Some? && src.inside.value.at == Finished
      ensures r == Some(Err(WillRetry)) ==> RowIs(req, Prepared)
      ensures r == Some(Err(NotApplied)) ==> RowIs(req, Failed)
      ensures r == Some(Err(DatabaseError)) ==> Faulty(turns, old(now), now)
    {
      var released := ReleaseIntent(req, error);
      if released != Some(false) {
        return Some(Err(if released.None? then DatabaseError else WillRetry));
      }
      var failed := FailIntent(req);
      if failed.None? {
        return Some(Err(DatabaseError));
      }
      if req.fallback && req.patch.customFields.Some? && IsCustomFieldsBadRequest(error) {
        return None;
      }
      return Some(Err(NotApplied));
    }

    /** After a failed PATCH: a GET decides whether it took effect; `None` asks for a round without custom fields. */
    method AfterPatchError(req: Request, dropped: bool, error: PatchError)
      returns (r: Option<Result<Execution, Failure>>, ghost doc: Document)
      requires Doing(ReadBack, req) && src.inside.value.error == error
      modifies this
      ensures Valid() && Grew() && patches == old(patches)
      ensures r.None? ==>
        && Doing(Top, Reduced(req))
        && req.fallback && req.patch.customFields.Some? && error == BadRequest(true)
        && exists k :: |old(src).hist| <= k < |src.hist| && Miss(src.hist[k], req.patch)
      ensures r.Some? ==> src.inside.Some? && src.inside.value.at == Finished && Tells(r.value, req, dropped)
      ensures r == ErrorOutcome(turns, old(now), Matches(doc, req.patch), req, error, Spent(old(rows), req.patch),
                                Execution(Reconciled, req.patch, dropped))
      ensures !TurnAt(turns, old(now)).fails ==> Saw(src.hist, |old(src).hist|, req.patch, doc)
    {
      var seen := GetDocument(req);
      if seen.None? {
        return Some(Err(Unreadable)), *;
      }
      doc := seen.value;
      assert src.hist[|src.hist| - 1] == Observed(req.patch, doc);
      if Matches(seen.value, req.patch) {
        var done := ReconcileIntent(req);
        return Some(if done.None? then Err(DatabaseError) else Ok(Execution(Reconciled, req.patch, dropped))), doc;
      }
      assert Miss(src.hist[|src.hist| - 1], req.patch);
      r := GiveUp(req, error);
    }

    /** A claimed attempt is sent, and its outcome is recorded. */
    method SendAndRecord(req: Request, dropped: bool) returns (r: Option<Result<Execution, Failure>>)
      requires Doing(Send, req)
      modifies this
      ensures Valid() && Grew() && patches == old(patches) + [req.patch]
      ensures r != Some(Err(AlreadyFailed)) && r != Some(Err(Mismatch))
      ensures r.None? ==> Doing(Top, Reduced(req)) && FellBack(req)
      ensures r.Some? ==> src.inside.Some? && src.inside.value.at == Finished && Tells(r.value, req, dropped)
    {
      var error := PatchDocument(req);
      if error.None? {
        var done := ConfirmIntent(req);
        return Some(if done.None? then Err(DatabaseError) else Ok(Execution(Confirmed, req.patch, dropped)));
      }
      ghost var turn, past, sentAt := now, src.hist, run;
      assert error == Some(BadRequest(true)) ==> Complained(old(run), run);
      ghost var doc;
      r, doc := AfterPatchError(req, dropped, error.value);
      if r.Some? {
        ToldFromEarlier(r.value, req, dropped, rows, turns, turn, now, |past|, src.hist, old(now), |old(src).hist|);
      } else {
        ComplainedLater(old(run), sentAt, run);
      }
    }

    /** The claim of a prepared attempt, and what follows from it. */
    method Attempt(req: Request, dropped: bool) returns (r: Option<Result<Execution, Failure>>, ghost sent: seq<Patch>)
      requires Doing(Claim, req)
      modifies this
      ensures Valid() && Grew() && patches == old(patches) + sent
      ensures sent == [req.patch] || (sent == [] && r == Some(Err(DatabaseError)))
      ensures r != Some(Err(AlreadyFailed)) && r != Some(Err(Mismatch))
      ensures r.None? ==> Doing(Top, Reduced(req)) && FellBack(req)
      ensures r.Some? ==> src.inside.Some? && src.inside.value.at == Finished && Tells(r.value, req, dropped)
    {
      sent := [];
      var claimed := ClaimIntent(req);
      if claimed.None? {
        return Some(Err(DatabaseError)), sent;
      }
      sent := [req.patch];
      ghost var turn, past, before := now, src.hist, run;
      r := SendAndRecord(req, dropped);
      if r.Some? {
        ToldFromEarlier(r.value, req, dropped, rows, turns, turn, now, |past|, src.hist, old(now), |old(src).hist|);
      } else {
        RejectedFromEarlier(req, |before|, run, |past|, src.hist, |old(run)|, |old(src).hist|);
      }
    }

    /** One round of the loop: `None` asks for another one without custom fields. */
    method Round(req: Request, dropped: bool) returns (r: Option<Result<Execution, Failure>>, ghost sent: seq<Patch>)
      requires Doing(Top, req)
      modifies this
      ensures Valid() && Grew() && patches == old(patches) + sent
      ensures sent == [] || sent == [req.patch]
      ensures r == Some(Err(AlreadyFailed)) || r == Some(Err(Mismatch)) ==> sent == []
      ensures r.None? ==> sent == [req.patch] && Doing(Top, Reduced(req)) && FellBack(req)
      ensures r.Some? ==> src.inside.Some? && src.inside.value.at == Finished && Tells(r.value, req, dropped)
    {
      sent := [];
      var found := PrepareIntent(req);
      if found.None? {
        return Some(Err(DatabaseError)), sent;
      }
      var row := found.value;
      match row.state {
        case Confirmed | Reconciled | Finalized => r := Some(Ok(Execution(row.state, req.patch, dropped)));
        case Failed => r := Some(Err(AlreadyFailed));
        case InFlight =>
          ghost var doc;
          var settled;
          settled, doc := ReconcileExisting(req, dropped);
          r := Some(settled);
        case Prepared =>
          r, sent := Attempt(req, dropped);
      }
    }

    /** `apply_document_inner`. */
    method ApplyDocumentInner(initial: Request)
      returns (r: Result<Execution, Failure>, ghost sent: seq<Patch>, ghost fell: bool)
      requires Doing(Top, initial)
      modifies this
      ensures Valid() && Grew() && src.inside.Some? && src.inside.value.at == Finished
      // The result is true of the initial body, or after the fallback of the one without custom fields.
      ensures Tells(r, if fell then Reduced(initial) else initial, fell)
      // At most two PATCHes; the second drops the custom fields after a 400 about them that a GET saw not applied.
      ensures patches == old(patches) + sent
      ensures !fell ==> sent == [] || sent == [initial.patch]
      ensures fell ==> FellBack(initial) && (sent == [initial.patch] || sent == [initial.patch, Reduced(initial).patch])
    {
      var req, dropped := initial, false;
      sent, fell := [], false;
      while true
        invariant Grew() && Doing(Top, req) && fell == dropped
        invariant req == if dropped then Reduced(initial) else initial
        invariant patches == old(patches) + sent
        invariant sent == if dropped then [initial.patch] else []
        invariant if dropped then FellBack(initial) else run == old(run) && src == old(src) && now == old(now)
        decreases !dropped
      {
        ghost var more, before, past, turn := [], run, src.hist, now;
        var done: Option<Result<Execution, Failure>>;
        done, more := Round(req, dropped);
        if dropped { StaysRejected(initial, |old(run)|, before, run, |old(src).hist|, past, src.hist); }
        sent := sent + more;
        if done.Some? {
          ToldFromEarlier(done.value, req, dropped, rows, turns, turn, now, |past|, src.hist,
                          old(now), |old(src).hist|);
          return done.value, sent, fell;
        }
        req, dropped, fell := Reduced(req), true, true;
      }
    }
  }
}
