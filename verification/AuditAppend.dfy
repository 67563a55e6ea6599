/**
 * Concurrent appenders of the audit chain. Each transaction takes the advisory
 * transaction lock, reads the hash of the last row it can see, inserts its event
 * with the next chain position, and commits or rolls back; the lock is held until
 * then. A transaction may append several events. Each statement sees every row
 * committed before it (read committed) and the transaction's own rows.
 */
module AuditAppend {
  import opened Options
  import opened AuditChain

  /** What an appender brings; the redaction of its JSON is not part of this model. */
  datatype Input = Input(core: Core, sourceIp: Option<string>, userAgent: Option<string>)

  /** A transaction that holds the lock: its own rows, and the hash it read but has not used yet. */
  datatype Open = Open(t: nat, staged: seq<Event>, read: Option<Option<Hash>>)

  datatype Log = Log(committed: seq<Event>, open: Option<Open>, nextPosition: int)

  datatype Action =
    | Lock(t: nat)
    | ReadLast(t: nat)
    | InsertRow(t: nat, id: string, now: int, input: Input)
    | Commit(t: nat)
    | Rollback(t: nat)

  /** The row `append_audit_tx` inserts at instant `now`, in nanoseconds. */
  function NewEvent(id: string, now: int, input: Input, prev: Option<Hash>, position: int): Event {
    var at := Truncate(now);
    Event(id, input.core, input.sourceIp, input.userAgent, at / 1000, prev,
          Some(V2(id, at, prev, Printed(input.core), input.sourceIp, input.userAgent)), Some(2), Some(0), position)
  }

  function Next(l: Log, act: Action): Option<Log> {
    if act.Lock? then
      // the lock is free, or this transaction has it already
      if l.open.None? then Some(l.(open := Some(Open(act.t, [], None))))
      else if l.open.value.t == act.t then Some(l)
      else None
    else if l.open.None? || l.open.value.t != act.t then None
    else
      var o := l.open.value;
      match act
      case ReadLast(_) => Some(l.(open := Some(o.(read := Some(LastHash(l.committed + o.staged))))))
      case InsertRow(_, id, now, input) =>
        if o.read.None? then None
        else
          var e := NewEvent(id, now, input, o.read.value, l.nextPosition);
          Some(l.(open := Some(o.(staged := o.staged + [e], read := None)), nextPosition := l.nextPosition + 1))
      case Commit(_) => Some(l.(committed := l.committed + o.staged, open := None))
      case _ => Some(l.(open := None))
  }

  function Run(l: Log, run: seq<Action>): Option<Log>
    decreases |run|
  {
    if run == [] then Some(l)
    else
      var n := Next(l, run[0]);
      if n.None? then None else Run(n.value, run[1..])
  }

  /** Everything the lock holder sees. */
  function Visible(l: Log): seq<Event> {
    l.committed + if l.open.Some? then l.open.value.staged else []
  }

  ghost predicate Positioned(rows: seq<Event>, next: int) {
    && (forall i, j :: 0 <= i < j < |rows| ==> rows[i].position < rows[j].position)
    && (forall i :: 0 <= i < |rows| ==> rows[i].position < next)
  }

  ghost predicate Inv(l: Log) {
    && Intact(l.committed) && Intact(Visible(l)) && Positioned(Visible(l), l.nextPosition)
    && (l.open.Some? && l.open.value.read.Some? ==> l.open.value.read.value == LastHash(Visible(l)))
  }

  // ------------------------------------------------------------------ lemmas

  /** Where a pass that accepted every row ends. */
  lemma {:induction false} EndOfScan(rows: seq<Event>, latest: Option<Hash>)
    requires Scan(rows, latest).broken.None?
    ensures Scan(rows, latest).latest == if LastHash(rows).Some? then LastHash(rows) else latest
  {
    if rows != [] {
      var e := rows[0];
      EndOfScan(rows[1..], if e.hash.Some? then e.hash else latest);
      LastHashOfTail(rows);
    }
  }

  lemma {:induction false} ScanConcat(a: seq<Event>, b: seq<Event>, latest: Option<Hash>)
    requires Scan(a, latest).broken.None?
    ensures Scan(a + b, latest).broken == Scan(b, Scan(a, latest).latest).broken
    ensures Scan(a + b, latest).latest == Scan(b, Scan(a, latest).latest).latest
  {
    if a == [] {
      assert a + b == b;
    } else {
      assert (a + b)[1..] == a[1..] + b;
      ScanConcat(a[1..], b, if a[0].hash.Some? then a[0].hash else latest);
    }
  }

  lemma NewEventVerifies(id: string, now: int, input: Input, prev: Option<Hash>, position: int)
    ensures var e := NewEvent(id, now, input, prev, position);
      e.hash.Some? && Check(e, prev) == Ok(Exact)
  {
    var e := NewEvent(id, now, input, prev, position);
    assert Truncate(now) / 1000 * 1000 == Truncate(now);
    TruncatedIsExact(e, now);
  }

  /** Appending a row chained to the last hash keeps the chain intact. */
  lemma AppendKeepsIntact(rows: seq<Event>, id: string, now: int, input: Input, position: int)
    requires Intact(rows)
    ensures Intact(rows + [NewEvent(id, now, input, LastHash(rows), position)])
  {
    var e := NewEvent(id, now, input, LastHash(rows), position);
    NewEventVerifies(id, now, input, LastHash(rows), position);
    EndOfScan(rows, None);
    ScanConcat(rows, [e], None);
    assert [e][1..] == [];
  }

  lemma AppendedPositions(rows: seq<Event>, e: Event)
    requires Positioned(rows, e.position)
    ensures Positioned(rows + [e], e.position + 1)
  {
  }

  lemma InsertKeeps(l: Log, id: string, now: int, input: Input)
    requires Inv(l) && l.open.Some? && l.open.value.read.Some?
    ensures Inv(Next(l, InsertRow(l.open.value.t, id, now, input)).value)
  {
    var o := l.open.value;
    var e := NewEvent(id, now, input, o.read.value, l.nextPosition);
    AppendKeepsIntact(Visible(l), id, now, input, l.nextPosition);
    AppendedPositions(Visible(l), e);
    assert l.committed + (o.staged + [e]) == Visible(l) + [e];
  }

  lemma CommitKeeps(l: Log, t: nat)
    requires Inv(l) && Next(l, Commit(t)).Some?
    ensures Inv(Next(l, Commit(t)).value)
  {
    assert Visible(Next(l, Commit(t)).value) == Visible(l);
  }

  lemma RollbackKeeps(l: Log, t: nat)
    requires Inv(l) && Next(l, Rollback(t)).Some?
    ensures Inv(Next(l, Rollback(t)).value)
  {
    assert Visible(Next(l, Rollback(t)).value) == l.committed;
    assert forall i :: 0 <= i < |l.committed| ==> l.committed[i] == Visible(l)[i];
  }

  lemma NextKeeps(l: Log, act: Action)
    requires Inv(l) && Next(l, act).Some?
    ensures Inv(Next(l, act).value)
    ensures l.committed <= Next(l, act).value.committed
  {
    match act
    case Lock(_) => assert l.committed + [] == l.committed;
    case ReadLast(_) =>
    case InsertRow(_, id, now, input) => InsertKeeps(l, id, now, input);
    case Commit(t) => CommitKeeps(l, t);
    case Rollback(t) => RollbackKeeps(l, t);
  }

  // ---------------------------------------------------- what is recorded

  /** One appended event: its id, the instant it was written at, and what the appender brought. */
  datatype Written = Written(id: string, now: int, input: Input)

  /** The appended events of a run: those of committed transactions, and those of the open one. */
  datatype Ledger = Ledger(settled: seq<Written>, pending: seq<Written>)

  function Noted(ledger: Ledger, act: Action): Ledger {
    match act
    case InsertRow(_, id, now, input) => ledger.(pending := ledger.pending + [Written(id, now, input)])
    case Commit(_) => Ledger(ledger.settled + ledger.pending, [])
    case Rollback(_) => ledger.(pending := [])
    case Lock(_) | ReadLast(_) => ledger
  }

  function LedgerOf(ledger: Ledger, run: seq<Action>): Ledger
    decreases |run|
  {
    if run == [] then ledger else LedgerOf(Noted(ledger, run[0]), run[1..])
  }

  /** The row records the event: every field as given, the instant in whole microseconds, unabridged. */
  predicate Records(e: Event, w: Written) {
    && e.id == w.id && e.core == w.input.core
    && e.sourceIp == w.input.sourceIp && e.userAgent == w.input.userAgent
    && e.createdUs == w.now / 1000 && e.version == Some(2) && e.suffix == Some(0)
  }

  ghost predicate AllRecord(rows: seq<Event>, ws: seq<Written>) {
    |rows| == |ws| && forall i :: 0 <= i < |rows| ==> Records(rows[i], ws[i])
  }

  lemma NewEventRecords(id: string, now: int, input: Input, prev: Option<Hash>, position: int)
    ensures var e := NewEvent(id, now, input, prev, position);
      Records(e, Written(id, now, input)) && e.prev == prev && e.position == position
  {
    assert Truncate(now) / 1000 == now / 1000;
  }

  /** The log holds the rows `old` and, after them, exactly what the ledger says. */
  ghost predicate Keeps(l: Log, before: seq<Event>, ledger: Ledger) {
    && before <= l.committed && AllRecord(l.committed[|before|..], ledger.settled)
    && AllRecord(if l.open.Some? then l.open.value.staged else [], ledger.pending)
  }

  lemma InsertRecords(l: Log, before: seq<Event>, ledger: Ledger, act: Action)
    requires Keeps(l, before, ledger) && act.InsertRow? && Next(l, act).Some?
    ensures Keeps(Next(l, act).value, before, Noted(ledger, act))
  {
    NewEventRecords(act.id, act.now, act.input, l.open.value.read.value, l.nextPosition);
  }

  lemma CommitRecords(l: Log, before: seq<Event>, ledger: Ledger, act: Action)
    requires Keeps(l, before, ledger) && act.Commit? && Next(l, act).Some?
    ensures Keeps(Next(l, act).value, before, Noted(ledger, act))
  {
    var staged := l.open.value.staged;
    assert (l.committed + staged)[|before|..] == l.committed[|before|..] + staged;
  }

  lemma StepRecords(l: Log, before: seq<Event>, ledger: Ledger, act: Action)
    requires Keeps(l, before, ledger) && Next(l, act).Some?
    ensures Keeps(Next(l, act).value, before, Noted(ledger, act))
  {
    match act
    case InsertRow(_, _, _, _) => InsertRecords(l, before, ledger, act);
    case Commit(_) => CommitRecords(l, before, ledger, act);
    case Lock(_) | ReadLast(_) | Rollback(_) =>
  }

  lemma {:induction false} RunRecords(l: Log, run: seq<Action>, before: seq<Event>, ledger: Ledger)
    requires Keeps(l, before, ledger) && Run(l, run).Some?
    ensures Keeps(Run(l, run).value, before, LedgerOf(ledger, run))
    decreases |run|
  {
    if run != [] {
      StepRecords(l, before, ledger, run[0]);
      RunRecords(Next(l, run[0]).value, run[1..], before, Noted(ledger, run[0]));
    }
  }

  /**
   * The committed chain is the old one followed by the events of the transactions that
   * committed, each as it was given, in the order they were written, and by nothing else.
   */
  lemma ChainRecordsCommitted(l: Log, run: seq<Action>)
    requires l.open.None? && Run(l, run).Some?
    ensures var t, ledger := Run(l, run).value, LedgerOf(Ledger([], []), run);
      l.committed <= t.committed && AllRecord(t.committed[|l.committed|..], ledger.settled)
  {
    RunRecords(l, run, l.committed, Ledger([], []));
  }

  // ---------------------------------------------------- the chain verifies

  /** However appenders interleave, commit and roll back, the committed chain verifies and only grows. */
  lemma {:induction false} ChainStaysIntact(l: Log, run: seq<Action>)
    requires Inv(l) && Run(l, run).Some?
    ensures Intact(Run(l, run).value.committed) && l.committed <= Run(l, run).value.committed
    ensures Inv(Run(l, run).value)
    decreases |run|
  {
    if run != [] {
      NextKeeps(l, run[0]);
      ChainStaysIntact(Next(l, run[0]).value, run[1..]);
    }
  }
}
