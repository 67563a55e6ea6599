/**
 * `verify_audit_integrity_tx`: the same verdict as one pass over the chain, reached
 * in pages of 256 rows keyed by chain position, while validated timestamp suffixes
 * are written back.
 */
module AuditVerifier {
  import opened Options
  import opened AuditChain

  const PAGE := 256

  datatype Report = Report(
    ok: bool, checked: nat, legacy: nat, v1: nat, v2: nat, precision: nat,
    latest: Option<Hash>, broken: Option<(string, Break)>)

  /** How many rows have no hash, and how many are hashed with `version`. */
  function CountLegacy(rows: seq<Event>): nat {
    if rows == [] then 0 else CountLegacy(rows[1..]) + if rows[0].hash.None? then 1 else 0
  }

  function CountVersion(rows: seq<Event>, version: int): nat {
    if rows == [] then 0
    else CountVersion(rows[1..], version) + if rows[0].hash.Some? && rows[0].version == Some(version) then 1 else 0
  }

  /** The report that one pass over the table gives. */
  function OnePass(rows: seq<Event>): Report {
    var w := Scan(rows, None);
    Report(w.broken.None?, w.checked, CountLegacy(rows), CountVersion(rows, 1), CountVersion(rows, 2),
           w.precision, w.latest, w.broken)
  }

  /** The hash versions there are; a table may hold others. */
  ghost predicate KnownVersions(rows: seq<Event>) {
    forall i :: 0 <= i < |rows| && rows[i].hash.Some? ==> rows[i].version == Some(1) || rows[i].version == Some(2)
  }

  ghost predicate NoneOfVersion(rows: seq<Event>, version: int) {
    forall i :: 0 <= i < |rows| && rows[i].hash.Some? ==> rows[i].version != Some(version)
  }

  lemma {:induction false} CountsAddUp(rows: seq<Event>)
    ensures CountHashed(rows) + CountLegacy(rows) == |rows|
    ensures CountVersion(rows, 1) + CountVersion(rows, 2) <= CountHashed(rows)
    ensures KnownVersions(rows) ==> CountVersion(rows, 1) + CountVersion(rows, 2) == CountHashed(rows)
    ensures NoneOfVersion(rows, 1) ==> CountVersion(rows, 1) == 0
    ensures NoneOfVersion(rows, 2) ==> CountVersion(rows, 2) == 0
  {
    if rows != [] {
      assert rows[0] in rows;
      CountsAddUp(rows[1..]);
    }
  }

  lemma {:induction false} UnbrokenCounts(rows: seq<Event>, latest: Option<Hash>)
    requires Scan(rows, latest).broken.None?
    ensures Scan(rows, latest).checked == CountHashed(rows) && KnownVersions(rows)
  {
    if rows != [] { UnbrokenCounts(rows[1..], if rows[0].hash.Some? then rows[0].hash else latest); }
  }

  /** The counters of a good report cover the table: every row is checked, in its version, or has no hash. */
  lemma ReportAddsUp(rows: seq<Event>)
    ensures var r := OnePass(rows);
      && r.v1 + r.v2 + r.legacy <= |rows|
      && (r.ok ==> r.checked == r.v1 + r.v2 && r.checked + r.legacy == |rows|)
      && (NoneOfVersion(rows, 1) ==> r.v1 == 0) && (NoneOfVersion(rows, 2) ==> r.v2 == 0)
  {
    CountsAddUp(rows);
    if OnePass(rows).ok { UnbrokenCounts(rows, None); }
  }

  /** The first `n` hashed rows beyond a position, in chain order. */
  function Page(rows: seq<Event>, last: int, n: nat): (r: seq<Event>)
    ensures |r| <= n
  {
    if rows == [] || n == 0 then []
    else if rows[0].hash.Some? && rows[0].position > last then [rows[0]] + Page(rows[1..], last, n - 1)
    else Page(rows[1..], last, n)
  }

  /** `update audit_events set suffix where id = .. and suffix is null`. */
  function SetSuffix(rows: seq<Event>, id: string, suffix: int): seq<Event> {
    seq(|rows|, i requires 0 <= i < |rows| =>
      if rows[i].id == id && rows[i].suffix.None? then rows[i].(suffix := Some(suffix)) else rows[i])
  }

  /** Chain positions start at one, are unique and order the rows; ids are unique. */
  ghost predicate WellKeyed(rows: seq<Event>) {
    && (forall i :: 0 <= i < |rows| ==> rows[i].position > 0)
    && (forall i, j :: 0 <= i < j < |rows| ==> rows[i].position < rows[j].position)
    && (forall i, j :: 0 <= i < j < |rows| ==> rows[i].id != rows[j].id)
  }

  /** `done` rows were accepted with these counters before `w` starts. */
  function Extend(done: seq<Event>, checked: nat, precision: nat, w: Walk): Walk {
    Walk(done + w.rows, checked + w.checked, precision + w.precision, w.latest, w.broken)
  }

  /** Rows up to a position add nothing to a page. */
  lemma {:induction false} PageSkips(done: seq<Event>, rest: seq<Event>, last: int, n: nat)
    requires forall i :: 0 <= i < |done| ==> done[i].hash.None? || done[i].position <= last
    ensures Page(done + rest, last, n) == Page(rest, last, n)
  {
    if done == [] {
      assert done + rest == rest;
    } else {
      assert (done + rest)[1..] == done[1..] + rest;
      PageSkips(done[1..], rest, last, n);
    }
  }

  /** A page of rows that all lie beyond two positions is the same for both. */
  lemma {:induction false} PageBeyond(rows: seq<Event>, last: int, last': int, n: nat)
    requires forall i :: 0 <= i < |rows| ==> rows[i].position > last && rows[i].position > last'
    ensures Page(rows, last, n) == Page(rows, last', n)
  {
    if rows != [] && n > 0 {
      PageBeyond(rows[1..], last, last', if rows[0].hash.Some? then n - 1 else n);
    }
  }

  /** The first row of a page, the rows without a hash before it, and the rows after it. */
  lemma {:induction false} PageHead(rest: seq<Event>, last: int, n: nat) returns (skip: seq<Event>, tail: seq<Event>)
    requires Page(rest, last, n) != []
    requires forall i :: 0 <= i < |rest| ==> rest[i].position > last
    ensures var page := Page(rest, last, n);
      && page[0].hash.Some? && n > 0
      && rest == skip + [page[0]] + tail
      && page[1..] == Page(tail, last, n - 1)
    ensures forall i :: 0 <= i < |skip| ==> skip[i].hash.None?
  {
    if rest[0].hash.Some? {
      skip, tail := [], rest[1..];
    } else {
      skip, tail := PageHead(rest[1..], last, n);
      skip := [rest[0]] + skip;
    }
  }

  lemma {:induction false} PageEmpty(rest: seq<Event>, last: int, n: nat, latest: Option<Hash>)
    requires n > 0 && Page(rest, last, n) == []
    requires forall i :: 0 <= i < |rest| ==> rest[i].position > last
    ensures Scan(rest, latest) == Walk(rest, 0, 0, latest, None)
  {
    if rest != [] { PageEmpty(rest[1..], last, n, latest); }
  }

  /** Rows without a hash are passed over. */
  lemma {:induction false} ScanSkips(skip: seq<Event>, rest: seq<Event>, latest: Option<Hash>)
    requires forall i :: 0 <= i < |skip| ==> skip[i].hash.None?
    ensures Scan(skip + rest, latest) == Extend(skip, 0, 0, Scan(rest, latest))
  {
    if skip == [] {
      assert skip + rest == rest;
    } else {
      assert (skip + rest)[1..] == skip[1..] + rest;
      ScanSkips(skip[1..], rest, latest);
      assert [skip[0]] + (skip[1..] + Scan(rest, latest).rows) == skip + Scan(rest, latest).rows;
    }
  }

  /** The verifier's running variables. */
  datatype Counters = Counters(checked: nat, precision: nat, latest: Option<Hash>, last: int)

  /** ... after accepting row `e`. */
  function Counted(c: Counters, e: Event, v: Verification): Counters {
    Counters(c.checked + 1, c.precision + if v.LegacyPrecision? then 1 else 0, e.hash, e.position)
  }

  /** One pass over the whole table is what the verifier has so far, followed by one pass over the untouched rest. */
  predicate Progress(done: seq<Event>, rest: seq<Event>, all: seq<Event>, c: Counters) {
    Scan(all, None) == Extend(done, c.checked, c.precision, Scan(rest, c.latest))
  }

  /** The pass at the next hashed row, past rows without a hash. */
  lemma AtNext(done: seq<Event>, skip: seq<Event>, e: Event, tail: seq<Event>, all: seq<Event>,
               c: Counters)
    requires Progress(done, skip + [e] + tail, all, c)
    requires e.hash.Some? && forall i :: 0 <= i < |skip| ==> skip[i].hash.None?
    ensures Progress(done + skip, [e] + tail, all, c)
  {
    assert skip + [e] + tail == skip + ([e] + tail);
    ScanSkips(skip, [e] + tail, c.latest);
    var w := Scan([e] + tail, c.latest);
    assert done + (skip + w.rows) == done + skip + w.rows;
  }

  lemma Rejected(done: seq<Event>, e: Event, tail: seq<Event>, all: seq<Event>, c: Counters)
    requires Progress(done, [e] + tail, all, c) && e.hash.Some? && Check(e, c.latest).Err?
    ensures Scan(all, None)
         == Walk(done + [e] + tail, c.checked, c.precision, c.latest, Some((e.id, Check(e, c.latest).error)))
  {
    assert done + ([e] + tail) == done + [e] + tail;
  }

  lemma Accepted(done: seq<Event>, e: Event, tail: seq<Event>, all: seq<Event>, c: Counters)
    requires Progress(done, [e] + tail, all, c) && e.hash.Some? && Check(e, c.latest).Ok?
    ensures var v := Check(e, c.latest).value;
      Progress(done + [Persisted(e, v)], tail, all, Counted(c, e, v))
  {
    assert ([e] + tail)[1..] == tail;
    var p := Persisted(e, Check(e, c.latest).value);
    var w := Scan(tail, e.hash);
    assert done + ([p] + w.rows) == done + [p] + w.rows;
  }

  /** The rows behind the verifier lie up to its position, the others beyond it. */
  ghost predicate Placed(done: seq<Event>, rest: seq<Event>, last: int) {
    && WellKeyed(done + rest) && last >= 0
    && (forall i :: 0 <= i < |done| ==> done[i].hash.None? || done[i].position <= last)
    && (forall i :: 0 <= i < |rest| ==> rest[i].position > last)
  }

  lemma PlacedAfter(done: seq<Event>, skip: seq<Event>, e: Event, tail: seq<Event>, last: int, p: Event)
    requires Placed(done, skip + [e] + tail, last)
    requires forall i :: 0 <= i < |skip| ==> skip[i].hash.None?
    requires p.position == e.position && p.id == e.id
    ensures Placed(done + skip + [p], tail, e.position)
    ensures forall i :: 0 <= i < |tail| ==> tail[i].position > last
  {
    var rows, rows' := done + (skip + [e] + tail), done + skip + [p] + tail;
    var n := |done| + |skip|;
    assert rows[n] == e;
    assert rows' == rows[n := p];
    forall i | 0 <= i < |tail| ensures tail[i].position > e.position && tail[i].position > last {
      assert rows[n + 1 + i] == tail[i] == (skip + [e] + tail)[|skip| + 1 + i];
    }
    assert e.position > last by { assert (skip + [e] + tail)[|skip|] == e; }
    assert forall i :: 0 <= i < |rows| ==> rows'[i].position == rows[i].position && rows'[i].id == rows[i].id;
  }

  lemma SetSuffixAt(before: seq<Event>, e: Event, after: seq<Event>, suffix: int)
    requires WellKeyed(before + [e] + after) && e.suffix.None?
    ensures SetSuffix(before + [e] + after, e.id, suffix) == before + [e.(suffix := Some(suffix))] + after
  {
    var rows := before + [e] + after;
    assert rows[|before|] == e;
    assert forall i :: 0 <= i < |rows| && i != |before| ==> rows[i].id != e.id;
  }

  /** Persisting suffixes changes no counter. */
  lemma {:induction false} CountsKeep(rows: seq<Event>, latest: Option<Hash>, version: int)
    ensures CountLegacy(Scan(rows, latest).rows) == CountLegacy(rows)
    ensures CountVersion(Scan(rows, latest).rows, version) == CountVersion(rows, version)
  {
    if rows != [] {
      var e := rows[0];
      var next := if e.hash.None? then latest else e.hash;
      if e.hash.None? || Check(e, latest).Ok? {
        CountsKeep(rows[1..], next, version);
        assert Scan(rows, latest).rows[1..] == Scan(rows[1..], next).rows;
      }
    }
  }

  /** The second verification of a table reports what the first one did, whether the chain is intact or broken. */
  lemma SecondReportIsTheSame(rows: seq<Event>)
    ensures OnePass(Scan(rows, None).rows) == OnePass(rows)
  {
    VerifyingAgain(rows, None);
    CountsKeep(rows, None, 1);
    CountsKeep(rows, None, 2);
  }

  /** The rows around the next row of a page. */
  lemma PageGoesOn(page: seq<Event>, i: nat, rest: seq<Event>, last: int, n: nat)
    returns (skip: seq<Event>, tail: seq<Event>)
    requires i < |page| && page[i..] == Page(rest, last, n) && forall j :: 0 <= j < |rest| ==> rest[j].position > last
    ensures n > 0 && rest == skip + [page[i]] + tail && page[i].hash.Some? && page[i + 1..] == Page(tail, last, n - 1)
    ensures forall j :: 0 <= j < |skip| ==> skip[j].hash.None?
  {
    skip, tail := PageHead(rest, last, n);
    assert page[i..][1..] == page[i + 1..];
  }

  /** The loop has accepted `done` and the table goes on with `rest`. */
  ghost predicate Reading(rows: seq<Event>, done: seq<Event>, rest: seq<Event>, all: seq<Event>, c: Counters) {
    rows == done + rest && Placed(done, rest, c.last) && Progress(done, rest, all, c)
  }

  lemma ReadingStarts(all: seq<Event>)
    requires WellKeyed(all)
    ensures Reading(all, [], all, all, Counters(0, 0, None, 0))
  {
    assert [] + all == all;
    var w := Scan(all, None);
    assert [] + w.rows == w.rows;
  }

  lemma ReadingPages(rows: seq<Event>, done: seq<Event>, rest: seq<Event>, all: seq<Event>, c: Counters, n: nat)
    requires Reading(rows, done, rest, all, c)
    ensures Page(rows, c.last, n) == Page(rest, c.last, n)
  {
    PageSkips(done, rest, c.last, n);
  }

  lemma ReadingEnds(rows: seq<Event>, done: seq<Event>, rest: seq<Event>, all: seq<Event>, c: Counters, n: nat)
    requires Reading(rows, done, rest, all, c) && n > 0 && Page(rest, c.last, n) == []
    ensures Scan(all, None) == Walk(rows, c.checked, c.precision, c.latest, None)
  {
    PageEmpty(rest, c.last, n, c.latest);
  }

  /** The report on a finished pass. */
  function ReportOn(all: seq<Event>, c: Counters, problem: Option<(string, Break)>): Report {
    Report(problem.None?, c.checked, CountLegacy(all), CountVersion(all, 1), CountVersion(all, 2),
           c.precision, c.latest, problem)
  }

  lemma ReportIsOnePass(all: seq<Event>, rows: seq<Event>, c: Counters, problem: Option<(string, Break)>)
    requires Scan(all, None) == Walk(rows, c.checked, c.precision, c.latest, problem)
    ensures ReportOn(all, c, problem) == OnePass(all) && rows == Scan(all, None).rows
  {
  }

  class AuditTable {
    var rows: seq<Event>

    /** One row of a page: the checks, and the write of a newly validated suffix. */
    method VerifyRow(ghost before: seq<Event>, e: Event, ghost after: seq<Event>, latest: Option<Hash>)
      returns (r: Result<Verification, Break>)
      requires WellKeyed(rows) && rows == before + [e] + after && e.hash.Some?
      modifies this
      ensures r == Check(e, latest)
      ensures rows == if r.Ok? then before + [Persisted(e, r.value)] + after else old(rows)
    {
      if latest.Some? && e.prev != latest {
        return Err(PreviousHash);
      }
      if e.version.None? {
        return Err(UnsupportedVersion);
      }
      var verdict := VerifyEventHash(e.version.value, e);
      if verdict.None? {
        return Err(UnsupportedVersion);
      }
      if verdict.value == Mismatch {
        return Err(Payload);
      }
      if e.suffix.None? {
        SetSuffixAt(before, e, after, SuffixOf(verdict.value));
        rows := SetSuffix(rows, e.id, SuffixOf(verdict.value));
      }
      return Ok(verdict.value);
    }

    /** The next row of a page, which stands between `done + skip` and `tail`. */
    method VerifyNext(e: Event, c: Counters, ghost done: seq<Event>, ghost skip: seq<Event>,
                      ghost tail: seq<Event>, ghost all: seq<Event>)
      returns (problem: Option<(string, Break)>, c': Counters, ghost done': seq<Event>)
      requires rows == done + (skip + [e] + tail) && Placed(done, skip + [e] + tail, c.last)
      requires Progress(done, skip + [e] + tail, all, c)
      requires e.hash.Some? && forall i :: 0 <= i < |skip| ==> skip[i].hash.None?
      modifies this
      ensures problem.Some? ==> c' == c && Scan(all, None) == Walk(rows, c.checked, c.precision, c.latest, problem)
      ensures problem.None? ==>
        && rows == done' + tail && Placed(done', tail, c'.last) && Progress(done', tail, all, c')
        && c'.last == e.position && forall i :: 0 <= i < |tail| ==> tail[i].position > c.last
    {
      AtNext(done, skip, e, tail, all, c);
      assert rows == done + skip + [e] + tail;
      var verdict := VerifyRow(done + skip, e, tail, c.latest);
      if verdict.Err? {
        Rejected(done + skip, e, tail, all, c);
        return Some((e.id, verdict.error)), c, done;
      }
      Accepted(done + skip, e, tail, all, c);
      PlacedAfter(done, skip, e, tail, c.last, Persisted(e, verdict.value));
      return None, Counted(c, e, verdict.value), done + skip + [Persisted(e, verdict.value)];
    }

    /** One page, row by row, up to the first problem. */
    method VerifyPage(page: seq<Event>, c0: Counters, ghost done0: seq<Event>, ghost rest0: seq<Event>,
                      ghost all: seq<Event>)
      returns (problem: Option<(string, Break)>, c: Counters, ghost done: seq<Event>, ghost rest: seq<Event>)
      requires Reading(rows, done0, rest0, all, c0)
      requires page != [] && page == Page(rest0, c0.last, PAGE)
      modifies this
      ensures problem.Some? ==> Scan(all, None) == Walk(rows, c.checked, c.precision, c.latest, problem)
      ensures problem.None? ==> Reading(rows, done, rest, all, c) && |rest| < |rest0|
    {
      problem, c, done, rest := None, c0, done0, rest0;
      assert page[0..] == page;
      for i := 0 to |page|
        invariant problem.None?
        invariant if i > 0 then |rest| < |rest0| else |rest| == |rest0|
        invariant Reading(rows, done, rest, all, c)
        invariant page[i..] == Page(rest, c.last, PAGE - i)
      {
        var e := page[i];
        ghost var skip, tail := PageGoesOn(page, i, rest, c.last, PAGE - i);
        ghost var last := c.last;
        problem, c, done := VerifyNext(e, c, done, skip, tail, all);
        if problem.Some? {
          return;
        }
        PageBeyond(tail, last, e.position, PAGE - i - 1);
        rest := tail;
      }
    }

    /** `verify_audit_integrity_tx`. */
    method VerifyIntegrity() returns (report: Report)
      requires WellKeyed(rows)
      modifies this
      ensures report == OnePass(old(rows)) && rows == Scan(old(rows), None).rows
    {
      ghost var all := rows;
      var legacy, v1, v2 := CountLegacy(rows), CountVersion(rows, 1), CountVersion(rows, 2);
      var c, problem := Counters(0, 0, None, 0), None;
      ghost var done, rest := [], rows;
      ReadingStarts(rows);
      while true
        invariant Reading(rows, done, rest, all, c)
        decreases |rest|
      {
        var page := Page(rows, c.last, PAGE);
        ReadingPages(rows, done, rest, all, c, PAGE);
        if page == [] {
          ReadingEnds(rows, done, rest, all, c, PAGE);
          ReportIsOnePass(all, rows, c, None);
          break;
        }
        problem, c, done, rest := VerifyPage(page, c, done, rest, all);
        if problem.Some? {
          ReportIsOnePass(all, rows, c, problem);
          return Report(false, c.checked, legacy, v1, v2, c.precision, c.latest, problem);
        }
      }
      report := Report(true, c.checked, legacy, v1, v2, c.precision, c.latest, None);
    }
  }
}
