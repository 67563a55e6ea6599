/**
 * The audit hash chain: event hashes, the recovery of a lost sub-microsecond
 * timestamp suffix, one pass of verification, and what a verified chain binds.
 * SHA-256 over the canonical JSON text is a free constructor: different hashed
 * contents have different hashes, and no other text is a hash.
 */
module AuditChain {
  import opened Options
  import Json

  /** The event fields both hash versions cover. */
  datatype Core = Core(
    runId: Option<string>, jobId: Option<string>, documentId: Option<int>,
    eventType: string, actorType: string, actorId: Option<string>,
    before: Option<Json.Value>, after: Option<Json.Value>, metadata: Option<Json.Value>,
    outcome: string, errorMessage: Option<string>)

  /** Version 2 also covers the request origin; `Other` is any text that is no event hash. */
  datatype Hash =
    | V1(id: string, at: int, prev: Option<Hash>, core: Core)
    | V2(id: string, at: int, prev: Option<Hash>, core: Core, sourceIp: Option<string>, userAgent: Option<string>)
    | Other(text: string)

  /** A stored row; `createdUs` counts microseconds, the precision PostgreSQL keeps. */
  datatype Event = Event(
    id: string, core: Core, sourceIp: Option<string>, userAgent: Option<string>, createdUs: int,
    prev: Option<Hash>, hash: Option<Hash>, version: Option<int>, suffix: Option<int>, position: int)

  /** An absent value and a JSON null are printed alike. */
  function NullAsAbsent(v: Option<Json.Value>): Option<Json.Value> {
    if v == Some(Json.Null) then None else v
  }

  /** What of the fields the hashed text shows. */
  function Printed(c: Core): Core {
    c.(before := NullAsAbsent(c.before), after := NullAsAbsent(c.after), metadata := NullAsAbsent(c.metadata))
  }

  /** `audit_event_hash_for_version` at an instant in nanoseconds. */
  function HashAt(version: int, e: Event, ns: int): Option<Hash> {
    if version == 1 then Some(V1(e.id, ns, e.prev, Printed(e.core)))
    else if version == 2 then Some(V2(e.id, ns, e.prev, Printed(e.core), e.sourceIp, e.userAgent))
    else None
  }

  /** `postgres_timestamp_precision`, on instants in nanoseconds. */
  function Truncate(ns: int): int {
    ns / 1000 * 1000
  }

  datatype Verification = Exact | LegacyPrecision(suffix: int) | Mismatch

  predicate Reproduces(version: int, e: Event, suffix: int) {
    e.hash.Some? && HashAt(version, e, e.createdUs * 1000 + suffix) == e.hash
  }

  function Verdict(suffix: int): Verification {
    if suffix == 0 then Exact else LegacyPrecision(suffix)
  }

  /** `verify_audit_event_hash`: `None` for an unsupported version. */
  function Verify(version: int, e: Event): Option<Verification> {
    if HashAt(version, e, e.createdUs * 1000).None? then None
    else if e.suffix.Some? then
      Some(if Reproduces(version, e, e.suffix.value) then Verdict(e.suffix.value) else Mismatch)
    else if s :| 0 <= s < 1000 && Reproduces(version, e, s) then Some(Verdict(s))
    else Some(Mismatch)
  }

  /** The search as the verifier runs it: the stored instant first, then 1 to 999. */
  method VerifyEventHash(version: int, e: Event) returns (r: Option<Verification>)
    requires e.hash.Some?
    ensures r == Verify(version, e)
  {
    var exact := HashAt(version, e, e.createdUs * 1000);
    if exact.None? {
      return None;
    }
    if e.suffix.Some? {
      if HashAt(version, e, e.createdUs * 1000 + e.suffix.value) == e.hash {
        return Some(if e.suffix.value == 0 then Exact else LegacyPrecision(e.suffix.value));
      }
      return Some(Mismatch);
    }
    if exact == e.hash {
      assert Reproduces(version, e, 0);
      return Some(Exact);
    }
    for suffix := 1 to 1000
      invariant forall s :: 0 <= s < suffix ==> !Reproduces(version, e, s)
    {
      if HashAt(version, e, e.createdUs * 1000 + suffix) == e.hash {
        assert Reproduces(version, e, suffix);
        return Some(LegacyPrecision(suffix));
      }
    }
    return Some(Mismatch);
  }

  // -------------------------------------------------------- one pass over rows

  datatype Break = PreviousHash | UnsupportedVersion | Payload

  /** The rows with their validated suffixes persisted, the counters, and the first break. */
  datatype Walk = Walk(
    rows: seq<Event>, checked: nat, precision: nat, latest: Option<Hash>, broken: Option<(string, Break)>)

  /** The verdict on one hashed row that follows a row with hash `latest`. */
  function Check(e: Event, latest: Option<Hash>): Result<Verification, Break> {
    if latest.Some? && e.prev != latest then Err(PreviousHash)
    else if e.version.None? || Verify(e.version.value, e).None? then Err(UnsupportedVersion)
    else if Verify(e.version.value, e) == Some(Mismatch) then Err(Payload)
    else Ok(Verify(e.version.value, e).value)
  }

  function SuffixOf(v: Verification): int {
    if v.LegacyPrecision? then v.suffix else 0
  }

  function Persisted(e: Event, v: Verification): Event {
    if e.suffix.None? then e.(suffix := Some(SuffixOf(v))) else e
  }

  /** Verification as one pass in chain order; rows without a hash are skipped. */
  function Scan(rows: seq<Event>, latest: Option<Hash>): Walk {
    if rows == [] then Walk([], 0, 0, latest, None)
    else
      var e := rows[0];
      if e.hash.None? then
        var w := Scan(rows[1..], latest);
        w.(rows := [e] + w.rows)
      else
        var v := Check(e, latest);
        if v.Err? then Walk(rows, 0, 0, latest, Some((e.id, v.error)))
        else
          var w := Scan(rows[1..], e.hash);
          Walk([Persisted(e, v.value)] + w.rows, w.checked + 1,
               w.precision + if v.value.LegacyPrecision? then 1 else 0, w.latest, w.broken)
  }

  predicate Intact(rows: seq<Event>) {
    Scan(rows, None).broken.None?
  }

  /** The hash a new event is chained to: that of the last hashed row. */
  function LastHash(rows: seq<Event>): Option<Hash> {
    if rows == [] then None
    else if rows[|rows| - 1].hash.Some? then rows[|rows| - 1].hash
    else LastHash(rows[..|rows| - 1])
  }

  predicate Hashed(rows: seq<Event>) {
    forall i :: 0 <= i < |rows| ==> rows[i].hash.Some?
  }

  // ------------------------------------------------------------ main results

  /** An event hashed at a nanosecond instant and stored at microseconds verifies with exactly the lost digits. */
  lemma LostDigitsAreRecovered(e: Event, ns: int)
    requires e.version == Some(1) || e.version == Some(2)
    requires e.createdUs == ns / 1000 && e.suffix.None?
    requires e.hash == HashAt(e.version.value, e, ns)
    ensures Verify(e.version.value, e) == Some(Verdict(ns % 1000))
  {
    assert Reproduces(e.version.value, e, ns % 1000);
  }

  /** A truncated timestamp has nothing to lose. */
  lemma TruncatedIsExact(e: Event, ns: int)
    requires e.version == Some(1) || e.version == Some(2)
    requires e.createdUs * 1000 == Truncate(ns)
    requires e.hash == HashAt(e.version.value, e, Truncate(ns))
    requires e.suffix.None? || e.suffix == Some(0)
    ensures Verify(e.version.value, e) == Some(Exact)
  {
    assert Reproduces(e.version.value, e, 0);
  }

  lemma PersistedVerifies(e: Event, latest: Option<Hash>)
    requires e.hash.Some? && Check(e, latest).Ok?
    ensures Check(Persisted(e, Check(e, latest).value), latest) == Check(e, latest)
  {
    var v := Check(e, latest).value;
    var p := Persisted(e, v);
    assert Reproduces(e.version.value, p, SuffixOf(v)) == Reproduces(e.version.value, e, SuffixOf(v));
  }

  /** Verifying again, with the suffixes persisted, gives the same report, for intact and for broken chains. */
  lemma {:induction false} VerifyingAgain(rows: seq<Event>, latest: Option<Hash>)
    ensures var w := Scan(rows, latest); Scan(w.rows, latest) == w
  {
    if rows != [] {
      var e := rows[0];
      var w := Scan(rows, latest);
      if e.hash.None? {
        VerifyingAgain(rows[1..], latest);
        assert w.rows[1..] == Scan(rows[1..], latest).rows;
      } else if Check(e, latest).Ok? {
        var v := Check(e, latest).value;
        PersistedVerifies(e, latest);
        VerifyingAgain(rows[1..], e.hash);
        assert w.rows[1..] == Scan(rows[1..], e.hash).rows;
        assert Persisted(Persisted(e, v), v) == Persisted(e, v);
      }
    }
  }

  lemma {:induction false} LastHashOfTail(rows: seq<Event>)
    requires rows != []
    ensures LastHash(rows) == if LastHash(rows[1..]).Some? then LastHash(rows[1..]) else rows[0].hash
  {
    if |rows| > 1 && rows[|rows| - 1].hash.None? {
      LastHashOfTail(rows[..|rows| - 1]);
      assert rows[..|rows| - 1][1..] == rows[1..][..|rows| - 2];
    }
  }

  // ------------------------------------------------- what verification accepts

  /** The stored suffix reproduces the hash; without one, some three digits do. */
  ghost predicate Authentic(e: Event) {
    && (e.version == Some(1) || e.version == Some(2))
    && exists s :: (if e.suffix.Some? then s == e.suffix.value else 0 <= s < 1000) && Reproduces(e.version.value, e, s)
  }

  /** The predecessor, if there is one, has the hash the row names. */
  predicate Follows(e: Event, latest: Option<Hash>) {
    latest.Some? ==> e.prev == latest
  }

  /** A hashed row is accepted exactly when it follows and is authentic, and the verdict is the suffix that was lost. */
  lemma CheckExactly(e: Event, latest: Option<Hash>)
    requires e.hash.Some?
    ensures Check(e, latest).Ok? <==> Follows(e, latest) && Authentic(e)
    ensures Check(e, latest).Ok? ==>
      var v := Check(e, latest).value;
      && Reproduces(e.version.value, e, SuffixOf(v)) && v != Mismatch && (v.LegacyPrecision? ==> v.suffix != 0)
      && (e.suffix.Some? ==> SuffixOf(v) == e.suffix.value)
    ensures Check(e, latest) == Err(PreviousHash) <==> !Follows(e, latest)
    ensures Check(e, latest) == Err(UnsupportedVersion)
       <==> Follows(e, latest) && e.version != Some(1) && e.version != Some(2)
  {
  }

  /** The hash the row at `i` is to follow. */
  function Before(rows: seq<Event>, latest: Option<Hash>, i: nat): Option<Hash>
    requires i <= |rows|
  {
    if LastHash(rows[..i]).Some? then LastHash(rows[..i]) else latest
  }

  ghost predicate Fits(rows: seq<Event>, latest: Option<Hash>, i: nat)
    requires i < |rows|
  {
    rows[i].hash.Some? ==> Follows(rows[i], Before(rows, latest, i)) && Authentic(rows[i])
  }

  lemma FitsExactly(rows: seq<Event>, latest: Option<Hash>, i: nat)
    requires i < |rows|
    ensures Fits(rows, latest, i) <==> (rows[i].hash.Some? ==> Check(rows[i], Before(rows, latest, i)).Ok?)
  {
    if rows[i].hash.Some? { CheckExactly(rows[i], Before(rows, latest, i)); }
  }

  lemma BeforeInTail(rows: seq<Event>, latest: Option<Hash>, i: nat)
    requires 0 < i <= |rows|
    ensures Before(rows, latest, i) == Before(rows[1..], if rows[0].hash.Some? then rows[0].hash else latest, i - 1)
  {
    LastHashOfTail(rows[..i]);
    assert rows[..i][1..] == rows[1..][..i - 1];
  }

  function CountHashed(rows: seq<Event>): nat {
    if rows == [] then 0 else CountHashed(rows[1..]) + if rows[0].hash.Some? then 1 else 0
  }

  /** The rows whose hash was taken at an instant with digits that are not stored. */
  ghost function CountLost(rows: seq<Event>): nat {
    if rows == [] then 0 else CountLost(rows[1..]) + if rows[0].hash.Some? && LostDigits(rows[0]) then 1 else 0
  }

  ghost predicate LostDigits(e: Event) {
    e.version.Some? && !Reproduces(e.version.value, e, 0)
  }

  lemma LostIsLegacy(e: Event, latest: Option<Hash>)
    requires e.hash.Some? && Check(e, latest).Ok?
    ensures Check(e, latest).value.LegacyPrecision? <==> LostDigits(e)
  {
    CheckExactly(e, latest);
    var v := e.version.value;
    assert forall s :: Reproduces(v, e, 0) && Reproduces(v, e, s) ==> s == 0;
  }

  /**
   * A chain whose hashed rows follow one another and are authentic is reported intact,
   * with every hashed row checked and every row with lost digits counted.
   */
  lemma {:induction false} FittingChainIsIntact(rows: seq<Event>, latest: Option<Hash>)
    requires forall i :: 0 <= i < |rows| ==> Fits(rows, latest, i)
    ensures var w := Scan(rows, latest);
      w.broken.None? && w.checked == CountHashed(rows) && w.precision == CountLost(rows)
  {
    if rows != [] {
      FitsExactly(rows, latest, 0);
      assert Fits(rows, latest, 0) && rows[..0] == [];
      var next := if rows[0].hash.Some? then rows[0].hash else latest;
      forall i | 0 <= i < |rows[1..]| ensures Fits(rows[1..], next, i) {
        assert Fits(rows, latest, i + 1);
        BeforeInTail(rows, latest, i + 1);
      }
      FittingChainIsIntact(rows[1..], next);
      if rows[0].hash.Some? { LostIsLegacy(rows[0], latest); }
    }
  }

  /** Otherwise the first row that does not fit is reported, with what is wrong with it. */
  lemma {:induction false} FirstMisfitIsReported(rows: seq<Event>, latest: Option<Hash>, k: nat)
    requires k < |rows| && !Fits(rows, latest, k) && forall i :: 0 <= i < k ==> Fits(rows, latest, i)
    ensures Check(rows[k], Before(rows, latest, k)).Err?
    ensures Scan(rows, latest).broken == Some((rows[k].id, Check(rows[k], Before(rows, latest, k)).error))
    ensures Scan(rows, latest).checked == CountHashed(rows[..k])
  {
    assert rows[..0] == [];
    FitsExactly(rows, latest, 0);
    FitsExactly(rows, latest, k);
    if k > 0 {
      assert Fits(rows, latest, 0);
      var next := if rows[0].hash.Some? then rows[0].hash else latest;
      forall i | 0 <= i < k - 1 ensures Fits(rows[1..], next, i) {
        assert Fits(rows, latest, i + 1);
        BeforeInTail(rows, latest, i + 1);
      }
      BeforeInTail(rows, latest, k);
      FirstMisfitIsReported(rows[1..], next, k - 1);
      assert rows[..k][1..] == rows[1..][..k - 1];
    }
  }

  // ------------------------------------------------------------------ binding

  /** The instant the hash was taken at, once verified. */
  function Instant(e: Event, v: Verification): int {
    e.createdUs * 1000 + SuffixOf(v)
  }

  /** The values are equal, or one is null and the other absent. */
  predicate SameJson(a: Option<Json.Value>, b: Option<Json.Value>) {
    a == b || (a == None && b == Some(Json.Null)) || (a == Some(Json.Null) && b == None)
  }

  /** Every field is the same, a null `before`, `after` or `metadata` being as good as none. */
  predicate SameCore(a: Core, b: Core) {
    && SameJson(a.before, b.before) && SameJson(a.after, b.after) && SameJson(a.metadata, b.metadata)
    && a == b.(before := a.before, after := a.after, metadata := a.metadata)
  }

  /** That is just what the hashed text shows. */
  lemma PrintedExactly(a: Core, b: Core)
    ensures Printed(a) == Printed(b) <==> SameCore(a, b)
  {
  }

  /** What a hash binds of two verified rows, up to null against absent; the request origin only from version 2 on. */
  predicate SameHashed(a: Event, va: Verification, b: Event, vb: Verification) {
    && a.id == b.id && SameCore(a.core, b.core)
    && a.prev == b.prev && a.hash == b.hash && a.version == b.version
    && Instant(a, va) == Instant(b, vb)
    && (a.version == Some(2) ==> a.sourceIp == b.sourceIp && a.userAgent == b.userAgent)
  }

  /** Row `e` verifies on its own, with verdict `v`. */
  predicate Vouched(e: Event, v: Verification) {
    e.hash.Some? && Check(e, None) == Ok(v)
  }

  /** A verified row is hashed at the instant of its verdict. */
  lemma VouchedHash(e: Event, v: Verification)
    requires Vouched(e, v)
    ensures e.version == Some(1) || e.version == Some(2)
    ensures e.hash == HashAt(e.version.value, e, Instant(e, v))
  {
    assert Reproduces(e.version.value, e, SuffixOf(v));
  }

  lemma HashBindsRow(a: Event, va: Verification, b: Event, vb: Verification)
    requires Vouched(a, va) && Vouched(b, vb) && a.hash == b.hash
    ensures SameHashed(a, va, b, vb)
  {
    VouchedHash(a, va);
    VouchedHash(b, vb);
    PrintedExactly(a.core, b.core);
  }

  /** Nothing else is bound: a row that prints alike verifies with the same verdict. */
  lemma PrintedAlikeVerifiesAlike(e: Event, core: Core, latest: Option<Hash>)
    requires e.hash.Some? && SameCore(core, e.core)
    ensures Check(e.(core := core), latest) == Check(e, latest)
  {
    PrintedExactly(core, e.core);
    var d := e.(core := core);
    assert forall version, suffix :: Reproduces(version, d, suffix) == Reproduces(version, e, suffix);
    if e.version.Some? && e.suffix.None? && HashAt(e.version.value, e, e.createdUs * 1000).Some? {
      SuffixIsUnique(e.version.value, e);
      SuffixIsUnique(e.version.value, d);
    }
  }

  /** At most one suffix reproduces a hash. */
  lemma SuffixIsUnique(version: int, e: Event)
    requires HashAt(version, e, e.createdUs * 1000).Some?
    ensures forall s, t :: Reproduces(version, e, s) && Reproduces(version, e, t) ==> s == t
  {
  }

  /** Two rows whose `before` differs as null differs from absent carry one hash, and both verify. */
  lemma NullAndAbsentShareAHash(e: Event)
    requires e.core.before.None? && Vouched(e, Exact)
    ensures var d := e.(core := e.core.(before := Some(Json.Null))); d != e && d.hash == e.hash && Vouched(d, Exact)
  {
    PrintedAlikeVerifiesAlike(e, e.core.(before := Some(Json.Null)), None);
  }

  /** In an intact chain every row verifies and names its predecessor's hash. */
  lemma {:induction false} IntactRows(rows: seq<Event>, latest: Option<Hash>, i: nat)
    requires Hashed(rows) && Scan(rows, latest).broken.None? && i < |rows|
    ensures Check(rows[i], None).Ok?
    ensures var before := if i > 0 then rows[i - 1].hash else latest; before.Some? ==> rows[i].prev == before
  {
    if i > 0 { IntactRows(rows[1..], rows[0].hash, i - 1); }
  }

  /** The verdict of the verifier on row `i` of an intact chain. */
  function VerdictAt(rows: seq<Event>, i: nat): Verification
    requires Hashed(rows) && Intact(rows) && i < |rows|
  {
    IntactRows(rows, None, i);
    Check(rows[i], None).value
  }

  /** A row of an intact chain verifies on its own, and its successor names it. */
  lemma RowVouched(rows: seq<Event>, i: nat)
    requires Hashed(rows) && Intact(rows) && i < |rows|
    ensures Vouched(rows[i], VerdictAt(rows, i))
    ensures i + 1 < |rows| ==> rows[i + 1].prev == rows[i].hash
  {
    IntactRows(rows, None, i);
    if i + 1 < |rows| { IntactRows(rows, None, i + 1); }
  }

  /** Rows that agree have predecessors with one hash. */
  lemma SamePredecessor(a: seq<Event>, i: nat, b: seq<Event>, j: nat)
    requires Hashed(a) && Hashed(b) && Intact(a) && Intact(b) && i + 1 < |a| && j + 1 < |b|
    requires SameHashed(a[i + 1], VerdictAt(a, i + 1), b[j + 1], VerdictAt(b, j + 1))
    ensures a[i].hash == b[j].hash
  {
    RowVouched(a, i);
    RowVouched(b, j);
  }

  lemma RowsAgree(a: seq<Event>, i: nat, b: seq<Event>, j: nat)
    requires Hashed(a) && Hashed(b) && Intact(a) && Intact(b) && i < |a| && j < |b| && a[i].hash == b[j].hash
    ensures SameHashed(a[i], VerdictAt(a, i), b[j], VerdictAt(b, j))
  {
    RowVouched(a, i);
    RowVouched(b, j);
    HashBindsRow(a[i], VerdictAt(a, i), b[j], VerdictAt(b, j));
  }

  /** Two intact chains that end in the same hash agree on everything hashed, as far back as both reach. */
  lemma {:induction false} ChainsWithOneEndAgree(a: seq<Event>, b: seq<Event>, k: nat)
    requires Hashed(a) && Hashed(b) && Intact(a) && Intact(b)
    requires k < |a| && k < |b| && LastHash(a) == LastHash(b)
    ensures var i, j := |a| - 1 - k, |b| - 1 - k;
      SameHashed(a[i], VerdictAt(a, i), b[j], VerdictAt(b, j))
    decreases k
  {
    var i, j := |a| - 1 - k, |b| - 1 - k;
    assert a[i].hash == b[j].hash by {
      if k > 0 {
        ChainsWithOneEndAgree(a, b, k - 1);
        SamePredecessor(a, i, b, j);
      }
    }
    RowsAgree(a, i, b, j);
  }

  /** The rows verification looks at. */
  function OnlyHashed(rows: seq<Event>): (r: seq<Event>)
    ensures Hashed(r)
  {
    if rows == [] then []
    else (if rows[0].hash.Some? then [rows[0]] else []) + OnlyHashed(rows[1..])
  }

  /** Rows without a hash neither help nor hurt a chain. */
  lemma {:induction false} UnhashedRowsDoNotMatter(rows: seq<Event>, latest: Option<Hash>)
    ensures var w, h := Scan(rows, latest), Scan(OnlyHashed(rows), latest);
      h.broken == w.broken && h.checked == w.checked && h.precision == w.precision && h.latest == w.latest
  {
    if rows != [] {
      if rows[0].hash.None? {
        UnhashedRowsDoNotMatter(rows[1..], latest);
        assert OnlyHashed(rows) == OnlyHashed(rows[1..]);
      } else {
        UnhashedRowsDoNotMatter(rows[1..], rows[0].hash);
        assert OnlyHashed(rows)[1..] == OnlyHashed(rows[1..]);
      }
    }
  }
}
