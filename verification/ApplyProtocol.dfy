/**
 * The apply protocol of one source key, as a step relation. Any number of
 * processes take turns on it; each DB statement, each half of an HTTP call and a
 * crash is one step. `inside` is the process that owns the advisory lock of the
 * source key, which module ApplyLock shows to be at most one; `wire` holds the
 * PATCH requests Paperless has neither carried out nor lost yet.
 */
module ApplyProtocol {
  import opened Options
  import opened Patches
  import opened ApplyIntents
  import opened ApplyHistory

  /** What the process that holds the lock does next. */
  datatype Label =
    | Top             // prepare_apply_intent
    | Claim           // mark_apply_intent_in_flight
    | Reread          // the claim was lost: read the row again
    | Send            // issue the PATCH
    | AwaitPatch      // the PATCH call has not returned
    | Confirm         // the PATCH succeeded: mark_apply_intent_confirmed
    | ReadBack        // the PATCH failed: GET
    | ReconcileOwn    // that GET saw the body: reconcile_apply_intent
    | Release         // it did not: release_transient_apply_intent if the error is transient
    | FailOwn         // fail_apply_intent, then perhaps the custom-field fallback
    | ReconRead       // reconcile_existing: GET
    | ReconMark       // it saw the body: reconcile_apply_intent
    | ReconFail       // it did not: fail_apply_intent
    | Requery         // a later compare-and-set was lost: resume_existing
    | Finished        // about to release the lock

  datatype Pc = Pc(proc: nat, at: Label, req: Request, error: PatchError)

  datatype Source = Source(rows: Rows, doc: Document, wire: multiset<Patch>, inside: Option<Pc>, hist: History)

  /** `apply_document` brings a request; resume and recovery take a persisted row. */
  datatype Mode = Direct(req: Request) | Resume(a: Patch)

  datatype Reply = Done | PatchFailed(error: PatchError)

  datatype Action =
    | Acquire(p: nat, mode: Mode)
    | Run(reply: Reply)            // the process inside takes its next step
    | Break                        // a DB or network error propagates out of the body
    | Unlock
    | Crash                        // the process dies or its future is dropped
    | Arrive(a: Patch)             // Paperless carries out a request on the wire
    | Lose(a: Patch)               // a request on the wire never arrives
    | Edit(doc: Document)          // anybody else writes the document
    | SettleSuccess(a: Patch)      // finalize_apply_intent, which needs no lock
    | SettleFailure(a: Patch)      // finalize_failed_apply_intent, likewise

  function Goto(s: Source, pc: Pc): Source {
    s.(inside := Some(pc))
  }

  function Log(s: Source, e: Event): Source {
    s.(hist := s.hist + [e])
  }

  /** The attempt reached a success state: return the execution. */
  function Succeed(s: Source, pc: Pc): Source {
    Log(Goto(s, pc.(at := Finished)), Reported(pc.req.patch, pc.proc))
  }

  /** Continue from a row as it was read: the two `match` statements on its state. */
  function Dispatch(s: Source, pc: Pc, row: Intent, whenPrepared: Label): Source {
    match row.state
    case Confirmed | Reconciled | Finalized => Succeed(s, pc)
    case Failed => Goto(s, pc.(at := Finished))
    case InFlight => Goto(s, pc.(at := ReconRead))
    case Prepared => Goto(s, pc.(at := whenPrepared))
  }

  /** A compare-and-set on the row; nothing changes when no row matched. */
  function Update(s: Source, a: Patch, row: Option<Intent>): Source {
    if row.Some? then s.(rows := s.rows[a := row.value]) else s
  }

  /**
   * A GET by the lock holder. A request whose call returned, or whose process
   * died, does not land after the next GET; under the lock every request still
   * on the wire is of that kind.
   */
  function Observe(s: Source, pc: Pc, hit: Label, miss: Label): Source {
    var a := pc.req.patch;
    Log(Goto(s.(wire := multiset{}), pc.(at := if Matches(s.doc, a) then hit else miss)), Observed(a, s.doc))
  }

  /** The request without custom fields and without a further fallback, and otherwise the same. */
  function Reduced(req: Request): (r: Request)
    ensures r.patch.customFields.None? && !r.fallback
    ensures r.patch.(customFields := req.patch.customFields) == req.patch
    ensures r.owner == req.owner && r.transient == req.transient
  {
    req.(patch := req.patch.(customFields := None), fallback := false)
  }

  function Open(s: Source, req: Request): Source {
    var t := s.(rows := Prepare(s.rows, req));
    if Opens(s.rows, req.patch) then Log(t, Opened(req.patch)) else t
  }

  /** After fail_apply_intent: retry once without custom fields, or give up. */
  function AfterFailure(s: Source, pc: Pc): Source {
    if pc.req.fallback && pc.req.patch.customFields.Some? && IsCustomFieldsBadRequest(pc.error)
    then Goto(s, pc.(at := Top, req := Reduced(pc.req)))
    else Goto(s, pc.(at := Finished))
  }

  /** One step of the apply body; `None` when the reply does not fit. */
  function Body(s: Source, pc: Pc, reply: Reply): Option<Source> {
    var req := pc.req;
    var a := req.patch;
    if pc.at.Top? then
      var t := Open(s, req);
      Some(Dispatch(t, pc, t.rows[a], Claim))
    else if a !in s.rows then
      if pc.at.Reread? || pc.at.Requery? then Some(Goto(s, pc.(at := Finished))) else None
    else
      var row := s.rows[a];
      match pc.at
      case Claim =>
        var claimed := MarkInFlight(row, req.owner);
        if claimed.Some?
        then Some(Log(Goto(Update(s, a, claimed), pc.(at := Send)), Entered(a, pc.proc)))
        else Some(Goto(s, pc.(at := Reread)))
      case Reread => Some(Dispatch(s, pc, row, Top))
      case Send =>
        Some(Log(Goto(s.(wire := s.wire + multiset{a}), pc.(at := AwaitPatch)), Sent(a, pc.proc)))
      case AwaitPatch =>
        if reply.PatchFailed? then Some(Goto(s, pc.(at := ReadBack, error := reply.error)))
        else if Read(s.hist, a).landed then Some(Log(Goto(s, pc.(at := Confirm)), Answered(a)))
        else None
      case Confirm =>
        var confirmed := MarkConfirmed(row, req.owner);
        if confirmed.Some? then Some(Succeed(Update(s, a, confirmed), pc)) else Some(Goto(s, pc.(at := Requery)))
      case ReadBack => Some(Observe(s, pc, ReconcileOwn, Release))
      case ReconcileOwn =>
        var reconciled := Reconcile(row, req.owner);
        if reconciled.Some? then Some(Succeed(Update(s, a, reconciled), pc)) else Some(Goto(s, pc.(at := Requery)))
      case Release =>
        var released := ReleaseTransient(row, req.owner);
        if pc.error.Transient? && released.Some?
        then Some(Goto(Update(s, a, released), pc.(at := Finished)))
        else Some(Goto(s, pc.(at := FailOwn)))
      case FailOwn => Some(AfterFailure(Update(s, a, Fail(row, req.owner)), pc))
      case ReconRead => Some(Observe(s, pc, ReconMark, ReconFail))
      case ReconMark => Some(Succeed(Update(s, a, Reconcile(row, req.owner)), pc))
      case ReconFail => Some(Goto(Update(s, a, Fail(row, req.owner)), pc.(at := Finished)))
      case Requery => Some(Dispatch(s, pc, row, Finished))
      case _ => None
  }

  /** The successor state, or `None` when the action is not possible. */
  function Next(s: Source, act: Action): Option<Source> {
    match act
    case Acquire(p, mode) =>
      if s.inside.Some? then None
      else if mode.Direct? then Some(Goto(s, Pc(p, Top, mode.req, OtherError)))
      else if mode.a in s.rows && Recoverable(s.rows[mode.a])
      then Some(Goto(s, Pc(p, Top, RequestFrom(mode.a, s.rows[mode.a]), OtherError)))
      else None
    case Run(reply) => if s.inside.Some? then Body(s, s.inside.value, reply) else None
    case Break => if s.inside.Some? then Some(Goto(s, s.inside.value.(at := Finished))) else None
    case Unlock => if s.inside.Some? && s.inside.value.at.Finished? then Some(s.(inside := None)) else None
    case Crash => Some(s.(inside := None))
    case Arrive(a) =>
      if a in s.wire
      then Some(Log(s.(doc := Land(s.doc, a), wire := s.wire - multiset{a}), Landed(a, Land(s.doc, a))))
      else None
    case Lose(a) => if a in s.wire then Some(s.(wire := s.wire - multiset{a})) else None
    case Edit(doc) => Some(Log(s.(doc := doc), Edited(doc)))
    case SettleSuccess(a) =>
      if a in s.rows && Finalize(s.rows[a]).Some? then Some(Update(s, a, Finalize(s.rows[a]))) else None
    case SettleFailure(a) =>
      if a in s.rows && FinalizeFailed(s.rows[a]).Some? then Some(Update(s, a, FinalizeFailed(s.rows[a]))) else None
  }

  predicate Init(s: Source) {
    s.rows == map[] && s.wire == multiset{} && s.inside.None? && s.hist == []
  }

  /** `s` is reached from `init` by the actions `run`, in order. */
  predicate Reaches(init: Source, run: seq<Action>, s: Source)
    decreases |run|
  {
    if run == [] then init == s
    else
      var t := Next(init, run[0]);
      t.Some? && Reaches(t.value, run[1..], s)
  }

  // ---------------------------------------------------------------- invariant

  /** Points at which the attempt has been claimed and not yet settled by its process. */
  predicate Owned(at: Label) {
    at.Send? || at.AwaitPatch? || at.Confirm? || at.ReadBack? || at.ReconcileOwn? || at.Release? || at.FailOwn?
  }

  predicate Settling(at: Label) {
    at.ReconRead? || at.ReconMark? || at.ReconFail?
  }

  /** Points reached only after a GET that saw the body or a success response. */
  predicate Proven(at: Label) {
    at.Confirm? || at.ReconcileOwn? || at.ReconMark?
  }

  /** Points reached only after a GET that missed. */
  predicate Missed(at: Label) {
    at.Release? || at.FailOwn? || at.ReconFail?
  }

  /** The lock holder works on attempt `a` and is at a point of `kind`. */
  predicate AtSend(s: Source, a: Patch) {
    s.inside.Some? && s.inside.value.req.patch == a && s.inside.value.at.Send?
  }

  predicate AtMissed(s: Source, a: Patch) {
    s.inside.Some? && s.inside.value.req.patch == a && Missed(s.inside.value.at)
  }

  /** What the program point says about the row; no compare-and-set is ever lost. */
  predicate HolderOk(s: Source) {
    s.inside.Some? ==>
      var pc := s.inside.value;
      var a := pc.req.patch;
      && !pc.at.Reread? && !pc.at.Requery?
      && (pc.at.Claim? ==> a in s.rows && s.rows[a].state.Prepared?)
      && (Owned(pc.at) || Settling(pc.at) ==> a in s.rows && s.rows[a].state.InFlight?)
      && (Owned(pc.at) ==> s.rows[a].owner == pc.req.owner)
      && (pc.at.Send? ==> Read(s.hist, a).claimant == Some(pc.proc))
      && (Proven(pc.at) ==> Read(s.hist, a).witnessed && s.wire[a] == 0)
  }

  /** Nothing is outstanding: the last PATCH, if any, was seen not to have taken effect. */
  predicate Clear(s: Source, a: Patch, r: Reading) {
    r.unanswered == 0 && !r.undisturbed && s.wire[a] == 0
  }

  predicate RowOk(s: Source, a: Patch, row: Intent, r: Reading) {
    match row.state
    case Prepared => Clear(s, a, r) && r.sends <= row.transient && r.sends <= MAX_TRANSIENT_RETRIES
    case InFlight =>
      if AtSend(s, a)
      then Clear(s, a, r) && r.sends <= row.transient && r.sends <= MAX_TRANSIENT_RETRIES
      else r.sends <= row.transient + 1 && (AtMissed(s, a) ==> Clear(s, a, r))
    case Failed => Clear(s, a, r)
    case Confirmed | Reconciled | Finalized => r.witnessed && s.wire[a] == 0
  }

  /** The state of one attempt against its history. */
  predicate AttemptOk(s: Source, a: Patch) {
    var r := Read(s.hist, a);
    && s.wire[a] <= 1
    && (r.undisturbed ==> Matches(s.doc, a))
    && (r.undisturbed || r.landed ==> s.wire[a] == 0)
    && (r.landed || r.witnessed ==> r.effected)
    && r.sends <= MAX_TRANSIENT_RETRIES + 1
    && if a in s.rows then RowOk(s, a, s.rows[a], r) else Clear(s, a, r) && r.sends == 0
  }

  ghost predicate Inv(s: Source) {
    && HolderOk(s)
    && HistoryOk(s.hist)
    && forall a :: AttemptOk(s, a)
  }

  // ------------------------------------------------------------ preservation

  lemma LandMatches(d: Document, p: Patch)
    ensures Matches(Land(d, p), p)
  {
  }

  /** A step that leaves the document, the row and the history of `b` alone keeps its state. */
  lemma Untouched(s: Source, t: Source, b: Patch)
    requires AttemptOk(s, b)
    requires t.doc == s.doc && Read(t.hist, b) == Read(s.hist, b)
    requires t.wire[b] <= s.wire[b]
    requires (b in t.rows) == (b in s.rows) && (b in s.rows ==> t.rows[b] == s.rows[b])
    requires !AtSend(t, b) && !AtMissed(t, b)
    ensures AttemptOk(t, b)
  {
  }

  /** A step on attempt `a` that logs at most one event keeps the state of every other attempt. */
  lemma OthersKeep(s: Source, t: Source, a: Patch)
    requires forall b :: AttemptOk(s, b)
    requires Local(s, t, a)
    ensures forall b :: b != a ==> AttemptOk(t, b)
  {
    forall b | b != a ensures AttemptOk(t, b) {
      assert AttemptOk(s, b);
      if t.hist != s.hist { ReadPush(s.hist, t.hist[|t.hist| - 1], b); }
      Untouched(s, t, b);
    }
  }

  /** The steps that change nothing but where the process is. */
  lemma MoveKeeps(s: Source, act: Action)
    requires Inv(s) && Next(s, act).Some? && (act.Acquire? || act.Break? || act.Unlock? || act.Crash?)
    ensures Inv(Next(s, act).value)
  {
    forall b ensures AttemptOk(Next(s, act).value, b) {
      assert AttemptOk(s, b);
      Untouched(s, Next(s, act).value, b);
    }
  }

  lemma ArriveStep(s: Source, a: Patch, b: Patch)
    requires AttemptOk(s, b) && a in s.wire
    ensures AttemptOk(Next(s, Arrive(a)).value, b)
  {
    LandMatches(s.doc, a);
    ReadPush(s.hist, Landed(a, Land(s.doc, a)), b);
  }

  lemma ArriveKeeps(s: Source, a: Patch)
    requires Inv(s) && a in s.wire
    ensures Inv(Next(s, Arrive(a)).value)
  {
    var e := Landed(a, Land(s.doc, a));
    assert AttemptOk(s, a);
    LandMatches(s.doc, a);
    HistoryOkPush(s.hist, e);
    if s.inside.Some? { ReadPush(s.hist, e, s.inside.value.req.patch); }
    forall b ensures AttemptOk(Next(s, Arrive(a)).value, b) {
      ArriveStep(s, a, b);
    }
  }

  lemma EditKeeps(s: Source, doc: Document)
    requires Inv(s)
    ensures Inv(Next(s, Edit(doc)).value)
  {
    var t := Next(s, Edit(doc)).value;
    HistoryOkPush(s.hist, Edited(doc));
    forall b ensures AttemptOk(t, b) {
      assert AttemptOk(s, b);
      ReadPush(s.hist, Edited(doc), b);
    }
    if s.inside.Some? { ReadPush(s.hist, Edited(doc), s.inside.value.req.patch); }
  }

  lemma LoseKeeps(s: Source, a: Patch)
    requires Inv(s) && a in s.wire
    ensures Inv(Next(s, Lose(a)).value)
  {
    forall b ensures AttemptOk(Next(s, Lose(a)).value, b) {
      assert AttemptOk(s, b);
    }
  }

  /** Settling a row changes neither what its state says nor anything else. */
  predicate IsSettled(s: Source, t: Source, a: Patch) {
    && a in s.rows && a in t.rows && t == s.(rows := s.rows[a := t.rows[a]])
    && ((s.rows[a].state.Failed? && t.rows[a].state.Failed?)
        || (IsSuccess(s.rows[a].state) && IsSuccess(t.rows[a].state)))
  }

  lemma SettleIsSettled(s: Source, a: Patch, act: Action)
    requires (act == SettleSuccess(a) || act == SettleFailure(a)) && Next(s, act).Some?
    ensures IsSettled(s, Next(s, act).value, a)
  {
  }

  lemma SettledKeeps(s: Source, t: Source, a: Patch)
    requires Inv(s) && IsSettled(s, t, a)
    ensures Inv(t)
  {
    forall b ensures AttemptOk(t, b) {
      assert AttemptOk(s, b);
    }
  }

  lemma SettleKeeps(s: Source, a: Patch, act: Action)
    requires Inv(s) && (act == SettleSuccess(a) || act == SettleFailure(a)) && Next(s, act).Some?
    ensures Inv(Next(s, act).value)
  {
    SettleIsSettled(s, a, act);
    SettledKeeps(s, Next(s, act).value, a);
  }

  /** What a step of the apply body may rely on. */
  predicate Working(s: Source) {
    s.inside.Some? && HolderOk(s) && AttemptOk(s, s.inside.value.req.patch)
  }

  /** The step touched its own row and request only and logged at most one event, in order. */
  predicate Local(s: Source, t: Source, a: Patch) {
    && t.doc == s.doc
    && (t.rows == s.rows || (a in t.rows && t.rows == s.rows[a := t.rows[a]]))
    && (t.wire == s.wire || t.wire == s.wire + multiset{a} || t.wire == multiset{})
    && (t.inside.Some? ==> t.inside.value.req.patch == a || t.inside.value.at.Top?)
    && (t.hist == s.hist || (|t.hist| > 0 &&
      var e := t.hist[|t.hist| - 1];
      t.hist == s.hist + [e] && !e.Edited? && !e.Landed? && e.a == a && EventOk(s.hist, e)))
  }

  /** What every step of the apply body achieves for the attempt it works on. */
  predicate Stepped(s: Source, n: Option<Source>)
    requires s.inside.Some?
  {
    n.Some? && var t, a := n.value, s.inside.value.req.patch;
    && HolderOk(t) && AttemptOk(t, a)
    && Local(s, t, a)
  }

  /** The source after a row was opened. */
  predicate IsOpened(s: Source, t: Source, pc: Pc) {
    var a := pc.req.patch;
    && t.doc == s.doc && t.wire == s.wire && t.inside == Some(pc.(at := Claim)) && t.hist == s.hist + [Opened(a)]
    && t.rows == s.rows[a := Intent(Prepared, pc.req.owner, pc.req.transient, false)]
  }

  lemma OpenedReading(h: History, a: Patch)
    ensures Read(h + [Opened(a)], a) == Read(h, a).(sends := 0)
  {
    ReadPush(h, Opened(a), a);
  }

  lemma OpenedAttempt(s: Source, t: Source, pc: Pc)
    requires AttemptOk(s, pc.req.patch) && Opens(s.rows, pc.req.patch) && IsOpened(s, t, pc)
    requires Read(t.hist, pc.req.patch) == Read(s.hist, pc.req.patch).(sends := 0)
    ensures AttemptOk(t, pc.req.patch)
  {
  }

  lemma OpenedHolder(s: Source, t: Source, pc: Pc)
    requires IsOpened(s, t, pc)
    ensures HolderOk(t) && Local(s, t, pc.req.patch)
  {
  }

  lemma OpenIsOpened(s: Source, pc: Pc, reply: Reply)
    requires s.inside == Some(pc) && pc.at == Top && Opens(s.rows, pc.req.patch)
    ensures Next(s, Run(reply)).Some? && IsOpened(s, Next(s, Run(reply)).value, pc)
  {
  }

  lemma OpenStep(s: Source, reply: Reply)
    requires Working(s) && s.inside.value.at == Top && Opens(s.rows, s.inside.value.req.patch)
    ensures Stepped(s, Next(s, Run(reply)))
  {
    var pc, n := s.inside.value, Next(s, Run(reply));
    OpenIsOpened(s, pc, reply);
    OpenedReading(s.hist, pc.req.patch);
    OpenedAttempt(s, n.value, pc);
    OpenedHolder(s, n.value, pc);
  }

  lemma FoundSuccessStep(s: Source)
    requires Working(s) && s.inside.value.at == Top && s.inside.value.req.patch in s.rows
    requires IsSuccess(s.rows[s.inside.value.req.patch].state)
    ensures Stepped(s, Some(Succeed(s, s.inside.value)))
  {
    var pc := s.inside.value;
    ReadPush(s.hist, Reported(pc.req.patch, pc.proc), pc.req.patch);
  }

  lemma FoundOpenStep(s: Source, at: Label)
    requires Working(s) && s.inside.value.at == Top && s.inside.value.req.patch in s.rows
    requires var state := s.rows[s.inside.value.req.patch].state;
      at == Finished || (state.InFlight? && at == ReconRead) || (state.Prepared? && at == Claim)
    ensures var pc := s.inside.value; Stepped(s, Some(Goto(s, pc.(at := at))))
  {
  }

  lemma DispatchStep(s: Source)
    requires Working(s) && s.inside.value.at == Top && s.inside.value.req.patch in s.rows
    ensures var pc := s.inside.value; Stepped(s, Some(Dispatch(s, pc, s.rows[pc.req.patch], Claim)))
  {
    match s.rows[s.inside.value.req.patch].state {
      case Confirmed | Reconciled | Finalized => FoundSuccessStep(s);
      case Failed => FoundOpenStep(s, Finished);
      case InFlight => FoundOpenStep(s, ReconRead);
      case Prepared => FoundOpenStep(s, Claim);
    }
  }

  lemma ClaimStep(s: Source, reply: Reply)
    requires Working(s) && s.inside.value.at == Claim
    ensures Stepped(s, Next(s, Run(reply)))
  {
    var pc := s.inside.value;
    var a := pc.req.patch;
    ReadPush(s.hist, Entered(a, pc.proc), a);
  }

  lemma SendStep(s: Source, reply: Reply)
    requires Working(s) && s.inside.value.at == Send
    ensures Stepped(s, Next(s, Run(reply)))
  {
    var pc := s.inside.value;
    var a := pc.req.patch;
    ReadPush(s.hist, Sent(a, pc.proc), a);
  }

  lemma AwaitStep(s: Source, reply: Reply)
    requires Working(s) && s.inside.value.at == AwaitPatch && Next(s, Run(reply)).Some?
    ensures Stepped(s, Next(s, Run(reply)))
  {
    var pc := s.inside.value;
    var a := pc.req.patch;
    if reply.Done? { ReadPush(s.hist, Answered(a), a); }
  }

  lemma ObserveStep(s: Source, reply: Reply, hit: Label, miss: Label)
    requires Working(s)
    requires (s.inside.value.at, hit, miss) in {(ReadBack, ReconcileOwn, Release), (ReconRead, ReconMark, ReconFail)}
    ensures Stepped(s, Some(Observe(s, s.inside.value, hit, miss)))
  {
    var a := s.inside.value.req.patch;
    ReadPush(s.hist, Observed(a, s.doc), a);
    if Matches(s.doc, a) {
    } else {
    }
  }

  lemma ConfirmStep(s: Source, reply: Reply)
    requires Working(s) && s.inside.value.at == Confirm
    ensures Stepped(s, Next(s, Run(reply)))
  {
    var pc := s.inside.value;
    var a := pc.req.patch;
    ReadPush(s.hist, Reported(a, pc.proc), a);
  }

  lemma ReconcileStep(s: Source, reply: Reply)
    requires Working(s) && (s.inside.value.at == ReconcileOwn || s.inside.value.at == ReconMark)
    ensures Stepped(s, Next(s, Run(reply)))
  {
    var pc := s.inside.value;
    var a := pc.req.patch;
    ReadPush(s.hist, Reported(a, pc.proc), a);
  }

  lemma ReleaseStep(s: Source, reply: Reply)
    requires Working(s) && s.inside.value.at == Release
    ensures Stepped(s, Next(s, Run(reply)))
  {
  }

  lemma FailOwnStep(s: Source, reply: Reply)
    requires Working(s) && s.inside.value.at == FailOwn
    ensures Stepped(s, Next(s, Run(reply)))
  {
  }

  lemma ReconFailStep(s: Source, reply: Reply)
    requires Working(s) && s.inside.value.at == ReconFail
    ensures Stepped(s, Next(s, Run(reply)))
  {
  }

  /** The apply body is never stuck on a lost compare-and-set and keeps its attempt in order. */
  lemma BodyStep(s: Source, reply: Reply)
    requires Working(s) && Next(s, Run(reply)).Some?
    ensures Stepped(s, Next(s, Run(reply)))
  {
    match s.inside.value.at {
      case Top => if Opens(s.rows, s.inside.value.req.patch) { OpenStep(s, reply); } else { DispatchStep(s); }
      case Claim => ClaimStep(s, reply);
      case Send => SendStep(s, reply);
      case AwaitPatch => AwaitStep(s, reply);
      case ReadBack => ObserveStep(s, reply, ReconcileOwn, Release);
      case ReconRead => ObserveStep(s, reply, ReconMark, ReconFail);
      case Confirm => ConfirmStep(s, reply);
      case ReconcileOwn | ReconMark => ReconcileStep(s, reply);
      case Release => ReleaseStep(s, reply);
      case FailOwn => FailOwnStep(s, reply);
      case ReconFail => ReconFailStep(s, reply);
      case Reread | Requery | Finished =>
    }
  }

  lemma RunKeeps(s: Source, reply: Reply)
    requires Inv(s) && Next(s, Run(reply)).Some?
    ensures Inv(Next(s, Run(reply)).value)
  {
    var a := s.inside.value.req.patch;
    var t := Next(s, Run(reply)).value;
    assert AttemptOk(s, a);
    assert Stepped(s, Some(t)) by { BodyStep(s, reply); }
    KeepsAll(s, t, a);
  }

  lemma KeepsAll(s: Source, t: Source, a: Patch)
    requires Inv(s) && HolderOk(t) && AttemptOk(t, a) && Local(s, t, a)
    ensures Inv(t)
  {
    if t.hist != s.hist { HistoryOkPush(s.hist, t.hist[|t.hist| - 1]); }
    OthersKeep(s, t, a);
  }

  /** Every action of every process and of the environment keeps the invariant. */
  lemma NextKeeps(s: Source, act: Action)
    requires Inv(s) && Next(s, act).Some?
    ensures Inv(Next(s, act).value)
  {
    match act
    case Acquire(_, _) => MoveKeeps(s, act);
    case Break | Unlock | Crash => MoveKeeps(s, act);
    case Arrive(a) => ArriveKeeps(s, a);
    case Edit(doc) => EditKeeps(s, doc);
    case Lose(a) => LoseKeeps(s, a);
    case SettleSuccess(a) => SettleKeeps(s, a, act);
    case SettleFailure(a) => SettleKeeps(s, a, act);
    case Run(reply) => RunKeeps(s, reply);
  }
}
