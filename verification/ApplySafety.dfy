/**
 * What the apply protocol guarantees over every run: any number of processes,
 * recovery at any moment, crashes and lost or late requests at any step.
 */
module ApplySafety {
  import opened Options
  import opened Patches
  import Json
  import PatchCodec
  import opened ApplyIntents
  import opened ApplyHistory
  import opened ApplyProtocol

  /** The invariant holds in every reachable state. */
  lemma {:induction false} ReachableInv(init: Source, run: seq<Action>, s: Source)
    requires Inv(init) && Reaches(init, run, s)
    ensures Inv(s)
    decreases |run|
  {
    if run != [] {
      NextKeeps(init, run[0]);
      ReachableInv(Next(init, run[0]).value, run[1..], s);
    }
  }

  lemma InitialInv(init: Source)
    requires Init(init)
    ensures Inv(init)
  {
    forall a ensures AttemptOk(init, a) {
    }
  }

  lemma ReachableHistory(init: Source, run: seq<Action>, s: Source)
    requires Init(init) && Reaches(init, run, s)
    ensures HistoryOk(s.hist)
  {
    InitialInv(init);
    ReachableInv(init, run, s);
  }

  lemma HistoryOkPrefix(h: History, n: nat)
    requires HistoryOk(h) && n <= |h|
    ensures HistoryOk(h[..n])
  {
    forall j | 0 <= j < n ensures EventOk(h[..n][..j], h[..n][j]) {
      assert h[..n][..j] == h[..j];
    }
  }

  // ------------------------------------------- reading a history backwards

  predicate SentBy(e: Event, a: Patch) {
    e.Sent? && e.a == a
  }

  /** A GET on behalf of the attempt that saw the document without the body. */
  predicate Miss(e: Event, a: Patch) {
    e.Observed? && e.a == a && !Matches(e.doc, a)
  }

  /** A write by anyone but this attempt. */
  predicate Foreign(e: Event, a: Patch) {
    e.Edited? || (e.Landed? && e.a != a)
  }

  /** The document carried the body at this event. */
  predicate Carried(e: Event, a: Patch) {
    (e.Landed? || e.Observed?) && e.a == a && Matches(e.doc, a)
  }

  predicate EnteredBy(e: Event, a: Patch) {
    e.Entered? && e.a == a
  }

  /** Where the body was sent. */
  function SentAt(h: History, a: Patch): set<nat> {
    set k: nat | k < |h| && SentBy(h[k], a)
  }

  lemma OneMoreSent(h: History, a: Patch)
    requires h != []
    ensures |SentAt(h, a)| == |SentAt(h[..|h| - 1], a)| + if SentBy(h[|h| - 1], a) then 1 else 0
  {
    var before := SentAt(h[..|h| - 1], a);
    assert SentAt(h, a) == if SentBy(h[|h| - 1], a) then before + {|h| - 1} else before;
  }

  lemma {:induction false} UnansweredSince(h: History, a: Patch, i: nat)
    requires i < |h| && SentBy(h[i], a)
    requires forall k :: i < k < |h| ==> !Miss(h[k], a)
    ensures Read(h, a).unanswered > 0
  {
    if i < |h| - 1 { UnansweredSince(h[..|h| - 1], a, i); }
  }

  lemma {:induction false} UndisturbedSince(h: History, a: Patch, i: nat)
    requires i < |h| && h[i].Landed? && h[i].a == a
    requires forall k :: i < k < |h| ==> !Foreign(h[k], a)
    ensures Read(h, a).undisturbed
  {
    if i < |h| - 1 { UndisturbedSince(h[..|h| - 1], a, i); }
  }

  lemma {:induction false} SendsSince(h: History, a: Patch, i: nat)
    requires i <= |h|
    requires forall k :: i <= k < |h| ==> h[k] != Opened(a)
    ensures |SentAt(h[i..], a)| <= Read(h, a).sends
  {
    if i < |h| {
      OneMoreSent(h[i..], a);
      SendsSince(h[..|h| - 1], a, i);
      assert h[i..][..|h| - i - 1] == h[..|h| - 1][i..];
    }
  }

  lemma {:induction false} SendsBounded(h: History, a: Patch)
    requires HistoryOk(h)
    ensures Read(h, a).sends <= MAX_TRANSIENT_RETRIES + 1
  {
    if h != [] {
      HistoryOkPrefix(h, |h| - 1);
      SendsBounded(h[..|h| - 1], a);
      assert EventOk(h[..|h| - 1], h[|h| - 1]);
    }
  }

  lemma ClaimantKept(r: Reading, e: Event, a: Patch)
    requires Note(r, e, a).claimant.Some? && !EnteredBy(e, a)
    ensures r.claimant == Note(r, e, a).claimant && !SentBy(e, a)
  {
  }

  lemma {:induction false} ClaimantSince(h: History, a: Patch) returns (i: nat)
    requires Read(h, a).claimant.Some?
    ensures i < |h| && h[i] == Entered(a, Read(h, a).claimant.value)
    ensures forall k :: i < k < |h| ==> !SentBy(h[k], a) && !EnteredBy(h[k], a)
  {
    var before, e := h[..|h| - 1], h[|h| - 1];
    if EnteredBy(e, a) {
      i := |h| - 1;
    } else {
      ClaimantKept(Read(before, a), e, a);
      i := ClaimantSince(before, a);
    }
  }

  lemma {:induction false} EffectedSince(h: History, a: Patch) returns (k: nat)
    requires Read(h, a).effected
    ensures k < |h| && Carried(h[k], a)
    ensures forall m :: k < m < |h| ==> !EnteredBy(h[m], a)
  {
    if Carried(h[|h| - 1], a) {
      k := |h| - 1;
    } else {
      k := EffectedSince(h[..|h| - 1], a);
    }
  }

  // ------------------------------------------------------------ main results

  /** Between two PATCHes of one attempt lies a GET that saw the document without the body. */
  lemma PatchesAreSeparated(init: Source, run: seq<Action>, s: Source, a: Patch, i: nat, j: nat)
    requires Init(init) && Reaches(init, run, s)
    requires i < j < |s.hist| && SentBy(s.hist[i], a) && SentBy(s.hist[j], a)
    ensures exists k :: i < k < j && Miss(s.hist[k], a)
  {
    ReachableHistory(init, run, s);
    assert EventOk(s.hist[..j], s.hist[j]);
    if forall k :: i < k < j ==> !Miss(s.hist[k], a) {
      UnansweredSince(s.hist[..j], a, i);
    }
  }

  /** Unless a new decision opens the row again, one attempt sends at most 1 + 5 PATCHes. */
  lemma PatchBudget(init: Source, run: seq<Action>, s: Source, a: Patch, i: nat, j: nat)
    requires Init(init) && Reaches(init, run, s)
    requires i <= j <= |s.hist|
    requires forall k :: i <= k < j ==> s.hist[k] != Opened(a)
    ensures |SentAt(s.hist[i..j], a)| <= 1 + MAX_TRANSIENT_RETRIES
  {
    ReachableHistory(init, run, s);
    HistoryOkPrefix(s.hist, j);
    SendsBounded(s.hist[..j], a);
    SendsSince(s.hist[..j], a, i);
    assert s.hist[..j][i..] == s.hist[i..j];
  }

  /** A PATCH is sent only by the process that itself moved the row to in_flight, once per claim. */
  lemma SenderClaimed(init: Source, run: seq<Action>, s: Source, j: nat) returns (i: nat)
    requires Init(init) && Reaches(init, run, s)
    requires j < |s.hist| && s.hist[j].Sent?
    ensures i < j && s.hist[i] == Entered(s.hist[j].a, s.hist[j].proc)
    ensures forall k :: i < k < j ==> !SentBy(s.hist[k], s.hist[j].a) && !EnteredBy(s.hist[k], s.hist[j].a)
  {
    ReachableHistory(init, run, s);
    assert EventOk(s.hist[..j], s.hist[j]);
    i := ClaimantSince(s.hist[..j], s.hist[j].a);
  }

  /** A row in a success state: after it last became in_flight the document carried the body. */
  lemma SuccessIsReal(init: Source, run: seq<Action>, s: Source, a: Patch) returns (k: nat)
    requires Init(init) && Reaches(init, run, s)
    requires a in s.rows && (s.rows[a].state.Confirmed? || s.rows[a].state.Reconciled? || s.rows[a].state.Finalized?)
    ensures k < |s.hist| && Carried(s.hist[k], a)
    ensures forall m :: k < m < |s.hist| ==> !EnteredBy(s.hist[m], a)
  {
    InitialInv(init);
    ReachableInv(init, run, s);
    assert AttemptOk(s, a);
    k := EffectedSince(s.hist, a);
  }

  /** The same holds whenever a process returns a successful execution. */
  lemma ReportIsReal(init: Source, run: seq<Action>, s: Source, j: nat) returns (k: nat)
    requires Init(init) && Reaches(init, run, s)
    requires j < |s.hist| && s.hist[j].Reported?
    ensures k < j && Carried(s.hist[k], s.hist[j].a)
    ensures forall m :: k < m < j ==> !EnteredBy(s.hist[m], s.hist[j].a)
  {
    ReachableHistory(init, run, s);
    assert EventOk(s.hist[..j], s.hist[j]);
    k := EffectedSince(s.hist[..j], s.hist[j].a);
  }

  /** A body takes effect a second time only after somebody else wrote the document in between. */
  lemma EffectIsNotRepeated(init: Source, run: seq<Action>, s: Source, a: Patch, i: nat, j: nat)
    requires Init(init) && Reaches(init, run, s)
    requires i < j < |s.hist| && s.hist[i].Landed? && s.hist[j].Landed? && s.hist[i].a == s.hist[j].a == a
    ensures exists k :: i < k < j && Foreign(s.hist[k], a)
  {
    ReachableHistory(init, run, s);
    assert EventOk(s.hist[..j], s.hist[j]);
    if forall k :: i < k < j ==> !Foreign(s.hist[k], a) {
      UndisturbedSince(s.hist[..j], a, i);
    }
  }

  /** The process that owns the source key never loses a compare-and-set to another one. */
  lemma ClaimsAreNotLost(init: Source, run: seq<Action>, s: Source)
    requires Init(init) && Reaches(init, run, s) && s.inside.Some?
    ensures !s.inside.value.at.Reread? && !s.inside.value.at.Requery?
  {
    InitialInv(init);
    ReachableInv(init, run, s);
  }

  // -------------------------------------------------- bodies that set null

  /** The process inside the lock, if any, works on another attempt. */
  predicate Avoids(s: Source, a: Patch) {
    s.inside.Some? ==> s.inside.value.req.patch != a
  }

  /** The action brings the body `a` to the source by a new request. */
  predicate Asks(act: Action, a: Patch) {
    act.Acquire? && act.mode.Direct? && act.mode.req.patch == a
  }

  /** The row of `a` waits for recovery as `row` and nobody works on it. */
  predicate Waits(s: Source, a: Patch, row: Intent) {
    Avoids(s, a) && a in s.rows && s.rows[a] == row
  }

  lemma BodyLeavesRow(s: Source, pc: Pc, reply: Reply, a: Patch, row: Intent)
    requires a.customFields == Some(Json.Null) && Waits(s, a, row) && s.inside == Some(pc)
    requires Body(s, pc, reply).Some?
    ensures Waits(Body(s, pc, reply).value, a, row)
  {
    var b := pc.req.patch;
    var t := Body(s, pc, reply).value;
    assert b != a && Reduced(pc.req).patch != a;
    match pc.at {
      case Top => assert a in t.rows;
      case Claim | Confirm | ReconcileOwn | ReconMark | Release | FailOwn | ReconFail =>
      case Reread | Requery | Send | AwaitPatch | ReadBack | ReconRead | Finished =>
    }
  }

  lemma AcquireLeavesRow(s: Source, p: nat, mode: Mode, a: Patch, row: Intent)
    requires a.customFields == Some(Json.Null) && Waits(s, a, row) && !Asks(Acquire(p, mode), a)
    requires Next(s, Acquire(p, mode)).Some?
    ensures Waits(Next(s, Acquire(p, mode)).value, a, row)
  {
    if mode.Resume? { PatchCodec.RecoveredIsDecoded(mode.a); }
  }

  lemma SettleLeavesRow(s: Source, b: Patch, act: Action, a: Patch, row: Intent)
    requires (act == SettleSuccess(b) || act == SettleFailure(b)) && Next(s, act).Some?
    requires Waits(s, a, row) && (row.state.Prepared? || row.state.InFlight?)
    ensures Waits(Next(s, act).value, a, row)
  {
    SettleIsSettled(s, b, act);
  }

  lemma StepLeavesRow(s: Source, act: Action, a: Patch, row: Intent)
    requires a.customFields == Some(Json.Null) && (row.state.Prepared? || row.state.InFlight?)
    requires Waits(s, a, row) && !Asks(act, a) && Next(s, act).Some?
    ensures Waits(Next(s, act).value, a, row)
  {
    match act {
      case Run(reply) => BodyLeavesRow(s, s.inside.value, reply, a, row);
      case Acquire(p, mode) => AcquireLeavesRow(s, p, mode, a, row);
      case SettleSuccess(b) => SettleLeavesRow(s, b, act, a, row);
      case SettleFailure(b) => SettleLeavesRow(s, b, act, a, row);
      case Break | Unlock | Crash =>
      case Arrive(_) =>
      case Lose(_) =>
      case Edit(_) =>
    }
  }

  /**
   * Recovery decodes the body from the row, and null custom fields do not survive
   * that. So a row whose body sets them to null is beyond recovery: resuming it
   * opens another row, and no run changes this one until somebody asks for the
   * same body again.
   */
  lemma {:induction false} NullBodyIsStranded(s: Source, run: seq<Action>, t: Source, a: Patch, row: Intent)
    requires a.customFields == Some(Json.Null) && (row.state.Prepared? || row.state.InFlight?)
    requires Waits(s, a, row) && Reaches(s, run, t)
    requires forall i :: 0 <= i < |run| ==> !Asks(run[i], a)
    ensures Waits(t, a, row)
    decreases |run|
  {
    if run != [] {
      StepLeavesRow(s, run[0], a, row);
      NullBodyIsStranded(Next(s, run[0]).value, run[1..], t, a, row);
    }
  }

  /** Every other row is resumed as itself, for its own owner and without the fallback. */
  lemma ResumeFindsItsRow(a: Patch, row: Intent)
    ensures RequestFrom(a, row).patch == a <==> a.customFields != Some(Json.Null)
    ensures PatchCodec.Decode(PatchCodec.Encode(a)) == Ok(RequestFrom(a, row).patch)
    ensures var req := RequestFrom(a, row);
      req.owner == row.owner && req.transient == row.transient && !req.fallback
  {
    PatchCodec.RecoveredIsDecoded(a);
  }
}
