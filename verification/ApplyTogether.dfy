/**
 * The lock table and the apply bodies together. Here nothing says that a body runs
 * alone: every session that guards the source key may run one, on the same rows and
 * the same document. Module ApplyProtocol, which has room for a single process
 * inside, is shown to simulate every run in which the server drops no session under
 * a live process.
 */
module ApplyTogether {
  import opened Options
  import opened Patches
  import opened ApplyIntents
  import opened ApplyHistory
  import L = ApplyLock
  import P = ApplyProtocol
  import ApplySafety

  /** `bodies` has the program counter of every session whose process is in the apply body of the key. */
  datatype World = World(
    locks: L.Locks,
    bodies: map<nat, P.Pc>,
    rows: Rows,
    doc: Document,
    wire: multiset<Patch>,
    hist: History)

  datatype Action =
    | Session(statement: L.Action)    // a statement of some connection, or the loss of one
    | Start(s: nat, mode: P.Mode)     // the guard is there: enter the apply body
    | Work(s: nat, reply: P.Reply)    // the process behind session `s` takes its next step
    | Fail(s: nat)                    // an error ends its body
    | Around(act: P.Action)           // Paperless, other writers, settling

  /** The source as the process behind one session sees it, or nobody. */
  function View(w: World, inside: Option<P.Pc>): P.Source {
    P.Source(w.rows, w.doc, w.wire, inside, w.hist)
  }

  function Shared(w: World, t: P.Source): World {
    w.(rows := t.rows, doc := t.doc, wire := t.wire, hist := t.hist)
  }

  /** Session `s` has taken the source to `t`. */
  function Put(w: World, s: nat, t: P.Source): World {
    Shared(w, t).(bodies := if t.inside.Some? then w.bodies[s := t.inside.value] else w.bodies - {s})
  }

  function Moved(w: World, s: nat, n: Option<P.Source>): Option<World> {
    if n.Some? then Some(Put(w, s, n.value)) else None
  }

  predicate InBody(w: World, s: nat) {
    s in w.bodies
  }

  /** Paperless and everybody without the lock. */
  predicate IsAround(act: P.Action) {
    act.Arrive? || act.Lose? || act.Edit? || act.SettleSuccess? || act.SettleFailure?
  }

  function SessionStep(w: World, act: L.Action): Option<World> {
    var n := L.Next(w.locks, act);
    if n.None? || (act.StartRelease? && act.s in w.bodies && w.bodies[act.s].at != P.Finished) then None
    else
      Some(w.(locks := n.value,
              bodies := if act.StartRelease? || act.Abandon? then w.bodies - {act.s} else w.bodies))
  }

  function Next(w: World, key: string, act: Action): Option<World> {
    match act
    case Session(a) => SessionStep(w, a)
    case Start(s, mode) =>
      if L.InBody(w.locks, s, key) && s !in w.bodies
      then Moved(w, s, P.Next(View(w, None), P.Acquire(w.locks.clients[s].p, mode)))
      else None
    case Work(s, reply) =>
      if s in w.bodies then Moved(w, s, P.Next(View(w, Some(w.bodies[s])), P.Run(reply))) else None
    case Fail(s) =>
      if s in w.bodies then Moved(w, s, P.Next(View(w, Some(w.bodies[s])), P.Break)) else None
    case Around(a) =>
      var n := if IsAround(a) then P.Next(View(w, None), a) else None;
      if n.Some? then Some(Shared(w, n.value)) else None
  }

  predicate Init(w: World) {
    L.Init(w.locks) && w.bodies == map[] && P.Init(View(w, None))
  }

  predicate Reaches(init: World, key: string, run: seq<Action>, w: World)
    decreases |run|
  {
    if run == [] then init == w
    else
      var t := Next(init, key, run[0]);
      t.Some? && Reaches(t.value, key, run[1..], w)
  }

  // ---------------------------------------------------------------- invariant

  /** Bodies run behind guards, and no session was dropped under one. */
  ghost predicate Inv(w: World, key: string) {
    && L.Inv(w.locks) && w.locks.lost == {}
    && forall s :: InBody(w, s) ==> L.InBody(w.locks, s, key)
  }

  lemma OneBody(w: World, key: string, s1: nat, s2: nat)
    requires Inv(w, key) && L.InBody(w.locks, s1, key) && L.InBody(w.locks, s2, key)
    ensures s1 == s2
  {
    assert L.Owns(w.locks.clients[s1], key) && L.Owns(w.locks.clients[s2], key);
    assert w.locks.locks[key] == s1 && w.locks.locks[key] == s2;
  }

  lemma LocksMove(st: L.Locks, act: L.Action, s: nat, key: string)
    requires L.InBody(st, s, key) && L.Next(st, act).Some?
    requires act.s != s || !(act.StartRelease? || act.Abandon?)
    ensures L.InBody(L.Next(st, act).value, s, key)
  {
  }

  lemma NextKeeps(w: World, key: string, act: Action)
    requires Inv(w, key) && Next(w, key, act).Some?
    requires act.Session? ==> !act.statement.SessionLost?
    ensures Inv(Next(w, key, act).value, key)
  {
    var t := Next(w, key, act).value;
    if act.Session? {
      L.NextKeeps(w.locks, act.statement);
      forall s | InBody(t, s) ensures L.InBody(t.locks, s, key) {
        assert InBody(w, s);
        LocksMove(w.locks, act.statement, s, key);
      }
    } else {
      forall s | InBody(t, s) ensures L.InBody(t.locks, s, key) {
        assert InBody(w, s) || L.InBody(w.locks, s, key);
      }
    }
  }

  // --------------------------------------------------------------- simulation

  /** `src` is the source of `w`, with the one running body inside. */
  ghost predicate Shows(w: World, src: P.Source) {
    && src == View(w, src.inside)
    && (src.inside.None? ==> w.bodies == map[])
    && (src.inside.Some? ==> exists s: nat :: InBody(w, s) && w.bodies == map[s := src.inside.value])
  }

  /** The step of the single-process protocol that stands for a step of the world, if any. */
  function Shadow(w: World, act: Action): Option<P.Action> {
    match act
    case Session(a) =>
      if a.s !in w.bodies then None
      else if a.StartRelease? then Some(P.Unlock)
      else if a.Abandon? then Some(P.Crash)
      else None
    case Start(s, mode) =>
      if s in w.locks.clients && w.locks.clients[s].Guarding? then Some(P.Acquire(w.locks.clients[s].p, mode)) else None
    case Work(_, reply) => Some(P.Run(reply))
    case Fail(_) => Some(P.Break)
    case Around(a) => Some(a)
  }

  predicate Follows(src: P.Source, act: Option<P.Action>, dst: P.Source) {
    if act.None? then src == dst else P.Next(src, act.value) == Some(dst)
  }

  /** Only one body runs, so what session `s` sees is the source. */
  lemma SeesSource(w: World, src: P.Source, s: nat)
    requires Shows(w, src) && s in w.bodies
    ensures src == View(w, Some(w.bodies[s])) && w.bodies == map[s := w.bodies[s]]
  {
    assert InBody(w, s);
  }

  lemma SessionShadowed(w: World, a: L.Action, src: P.Source) returns (dst: P.Source)
    requires Shows(w, src) && SessionStep(w, a).Some? && !a.SessionLost?
    ensures Follows(src, Shadow(w, Session(a)), dst) && Shows(SessionStep(w, a).value, dst)
  {
    dst := src;
    if a.s in w.bodies {
      SeesSource(w, src, a.s);
      if a.StartRelease? || a.Abandon? {
        dst := src.(inside := None);
        assert w.bodies - {a.s} == map[];
      }
    } else {
      assert w.bodies - {a.s} == w.bodies;
      forall s | InBody(w, s) ensures InBody(SessionStep(w, a).value, s) {
      }
    }
  }

  /** Nobody else can be inside when a guard enters the body. */
  lemma StartShadowed(w: World, key: string, s: nat, mode: P.Mode, src: P.Source) returns (dst: P.Source)
    requires Inv(w, key) && Shows(w, src) && Next(w, key, Start(s, mode)).Some?
    ensures Follows(src, Shadow(w, Start(s, mode)), dst) && Shows(Next(w, key, Start(s, mode)).value, dst)
  {
    if src.inside.Some? {
      var other: nat :| InBody(w, other) && w.bodies == map[other := src.inside.value];
      OneBody(w, key, s, other);
    }
    dst := P.Next(src, P.Acquire(w.locks.clients[s].p, mode)).value;
    assert InBody(Next(w, key, Start(s, mode)).value, s);
  }

  lemma StaysInside(src: P.Source, act: P.Action)
    requires (act.Run? || act.Break?) && P.Next(src, act).Some?
    ensures P.Next(src, act).value.inside.Some?
  {
  }

  lemma OwnShadowed(w: World, s: nat, act: P.Action, src: P.Source) returns (dst: P.Source)
    requires Shows(w, src) && s in w.bodies && (act.Run? || act.Break?)
    requires P.Next(View(w, Some(w.bodies[s])), act).Some?
    ensures P.Next(src, act) == Some(dst) && Shows(Put(w, s, dst), dst)
  {
    SeesSource(w, src, s);
    dst := P.Next(src, act).value;
    StaysInside(src, act);
    assert InBody(Put(w, s, dst), s);
  }

  lemma AroundShadowed(w: World, act: P.Action, src: P.Source) returns (dst: P.Source)
    requires Shows(w, src) && IsAround(act) && P.Next(View(w, None), act).Some?
    ensures P.Next(src, act) == Some(dst) && Shows(Shared(w, P.Next(View(w, None), act).value), dst)
  {
    dst := P.Next(src, act).value;
    forall s | InBody(w, s) ensures InBody(Shared(w, P.Next(View(w, None), act).value), s) {
    }
  }

  /** Every step of the world is a step of the protocol or invisible to it. */
  lemma StepShadowed(w: World, key: string, act: Action, src: P.Source) returns (dst: P.Source)
    requires Inv(w, key) && Shows(w, src) && Next(w, key, act).Some?
    requires act.Session? ==> !act.statement.SessionLost?
    ensures Follows(src, Shadow(w, act), dst) && Shows(Next(w, key, act).value, dst)
  {
    match act {
      case Session(a) => dst := SessionShadowed(w, a, src);
      case Start(s, mode) => dst := StartShadowed(w, key, s, mode, src);
      case Work(s, reply) => dst := OwnShadowed(w, s, P.Run(reply), src);
      case Fail(s) => dst := OwnShadowed(w, s, P.Break, src);
      case Around(a) => dst := AroundShadowed(w, a, src);
    }
  }

  /** No session is dropped under a live process. */
  ghost predicate SessionsLive(run: seq<Action>) {
    forall i :: 0 <= i < |run| && run[i].Session? ==> !run[i].statement.SessionLost?
  }

  // ------------------------------------------------------------ the converse

  /** Session 0 is the only one. */
  function Alone(key: string, c: L.Client, held: bool): L.Locks {
    L.Locks(map[0 := c], if held then map[key := 0] else map[], {})
  }

  /** The locks while session 0 waits in the pool, or guards the body of a process. */
  function LocksAt(key: string, guard: Option<nat>): L.Locks {
    if guard.None? then Alone(key, L.Pooled, false) else Alone(key, L.Guarding(guard.value, key), true)
  }

  /** The world of the source `src` in which session 0 does all the work. */
  function WorldOf(key: string, src: P.Source, guard: Option<nat>): World {
    World(LocksAt(key, guard), if src.inside.Some? then map[0 := src.inside.value] else map[],
          src.rows, src.doc, src.wire, src.hist)
  }

  ghost predicate IsWorldOf(w: World, key: string, src: P.Source) {
    exists guard: Option<nat> :: (guard.Some? <==> src.inside.Some?) && w == WorldOf(key, src, guard)
  }

  lemma {:induction false} RunsJoin(a: World, key: string, run: seq<Action>, b: World, more: seq<Action>, c: World)
    requires Reaches(a, key, run, b) && Reaches(b, key, more, c)
    ensures Reaches(a, key, run + more, c)
    decreases |run|
  {
    if run == [] {
      assert run + more == more;
    } else {
      assert (run + more)[1..] == run[1..] + more;
      RunsJoin(Next(a, key, run[0]).value, key, run[1..], b, more, c);
    }
  }

  /** One statement of session 0. */
  lemma SessionRun(w: World, key: string, act: L.Action)
    requires SessionStep(w, act).Some?
    ensures Reaches(w, key, [Session(act)], SessionStep(w, act).value)
  {
    assert [Session(act)][1..] == [];
  }

  lemma AloneAsks(key: string, p: nat)
    ensures L.Next(Alone(key, L.Pooled, false), L.CheckOut(0, p, key))
            == Some(Alone(key, L.Asking(p, key, None), false))
    ensures L.Next(Alone(key, L.Asking(p, key, None), false), L.ServeLock(0))
            == Some(Alone(key, L.Asking(p, key, Some(true)), true))
    ensures L.Next(Alone(key, L.Asking(p, key, Some(true)), true), L.Acquired(0))
            == Some(Alone(key, L.Guarding(p, key), true))
  {
    assert forall c: L.Client, d: L.Client :: map[0 := c][0 := d] == map[0 := d];
  }

  lemma AloneReleases(key: string, p: nat)
    ensures L.Next(Alone(key, L.Guarding(p, key), true), L.StartRelease(0))
            == Some(Alone(key, L.Unlocking(p, key, None), true))
    ensures L.Next(Alone(key, L.Unlocking(p, key, None), true), L.ServeUnlock(0))
            == Some(Alone(key, L.Unlocking(p, key, Some(true)), false))
    ensures L.Next(Alone(key, L.Unlocking(p, key, Some(true)), false), L.Released(0))
            == Some(Alone(key, L.Pooled, false))
  {
    assert forall c: L.Client, d: L.Client :: map[0 := c][0 := d] == map[0 := d];
  }

  lemma AloneEnds(key: string, p: nat)
    ensures L.Next(Alone(key, L.Guarding(p, key), true), L.Abandon(0)) == Some(Alone(key, L.Closing, true))
    ensures L.Next(Alone(key, L.Closing, true), L.SessionEnds(0)) == Some(L.Locks(map[], map[], {}))
    ensures L.Next(L.Locks(map[], map[], {}), L.Connect(0)) == Some(Alone(key, L.Pooled, false))
  {
    assert forall c: L.Client, d: L.Client :: map[0 := c][0 := d] == map[0 := d];
  }

  /** Session 0 asks for the lock and gets it. */
  lemma LockRun(key: string, src: P.Source, p: nat)
    requires src.inside.None?
    ensures Reaches(WorldOf(key, src, None), key,
                    [Session(L.CheckOut(0, p, key)), Session(L.ServeLock(0)), Session(L.Acquired(0))],
                    WorldOf(key, src, Some(p)))
  {
    var w0 := WorldOf(key, src, None);
    var w1 := w0.(locks := Alone(key, L.Asking(p, key, None), false));
    var w2 := w0.(locks := Alone(key, L.Asking(p, key, Some(true)), true));
    var w3 := WorldOf(key, src, Some(p));
    AloneAsks(key, p);
    assert SessionStep(w0, L.CheckOut(0, p, key)) == Some(w1);
    assert SessionStep(w1, L.ServeLock(0)) == Some(w2);
    assert SessionStep(w2, L.Acquired(0)) == Some(w3);
    SessionRun(w0, key, L.CheckOut(0, p, key));
    SessionRun(w1, key, L.ServeLock(0));
    SessionRun(w2, key, L.Acquired(0));
    RunsJoin(w0, key, [Session(L.CheckOut(0, p, key))], w1, [Session(L.ServeLock(0))], w2);
    RunsJoin(w0, key, [Session(L.CheckOut(0, p, key)), Session(L.ServeLock(0))], w2, [Session(L.Acquired(0))], w3);
  }

  /** It gives the lock back and returns to the pool. */
  lemma UnlockRun(key: string, src: P.Source, p: nat)
    requires src.inside.Some? && src.inside.value.at == P.Finished
    ensures Reaches(WorldOf(key, src, Some(p)), key,
                    [Session(L.StartRelease(0)), Session(L.ServeUnlock(0)), Session(L.Released(0))],
                    WorldOf(key, src.(inside := None), None))
  {
    var w0, w3 := WorldOf(key, src, Some(p)), WorldOf(key, src.(inside := None), None);
    var w1 := w3.(locks := Alone(key, L.Unlocking(p, key, None), true));
    var w2 := w3.(locks := Alone(key, L.Unlocking(p, key, Some(true)), false));
    AloneReleases(key, p);
    assert SessionStep(w0, L.StartRelease(0)) == Some(w1);
    assert SessionStep(w1, L.ServeUnlock(0)) == Some(w2);
    assert SessionStep(w2, L.Released(0)) == Some(w3);
    SessionRun(w0, key, L.StartRelease(0));
    SessionRun(w1, key, L.ServeUnlock(0));
    SessionRun(w2, key, L.Released(0));
    RunsJoin(w0, key, [Session(L.StartRelease(0))], w1, [Session(L.ServeUnlock(0))], w2);
    RunsJoin(w0, key, [Session(L.StartRelease(0)), Session(L.ServeUnlock(0))], w2, [Session(L.Released(0))], w3);
  }

  /** Its process dies, the server notices, and a new connection takes its place. */
  lemma CrashRun(key: string, src: P.Source, p: nat)
    requires src.inside.Some?
    ensures Reaches(WorldOf(key, src, Some(p)), key,
                    [Session(L.Abandon(0)), Session(L.SessionEnds(0)), Session(L.Connect(0))],
                    WorldOf(key, src.(inside := None), None))
  {
    var w0, w3 := WorldOf(key, src, Some(p)), WorldOf(key, src.(inside := None), None);
    var w1 := w3.(locks := Alone(key, L.Closing, true));
    var w2 := w3.(locks := L.Locks(map[], map[], {}));
    AloneEnds(key, p);
    assert SessionStep(w0, L.Abandon(0)) == Some(w1);
    assert SessionStep(w1, L.SessionEnds(0)) == Some(w2);
    assert SessionStep(w2, L.Connect(0)) == Some(w3);
    SessionRun(w0, key, L.Abandon(0));
    SessionRun(w1, key, L.SessionEnds(0));
    SessionRun(w2, key, L.Connect(0));
    RunsJoin(w0, key, [Session(L.Abandon(0))], w1, [Session(L.SessionEnds(0))], w2);
    RunsJoin(w0, key, [Session(L.Abandon(0)), Session(L.SessionEnds(0))], w2, [Session(L.Connect(0))], w3);
  }

  /** Putting back what session 0 has done leaves its world. */
  lemma PutAlone(key: string, src: P.Source, guard: nat, dst: P.Source)
    requires src.inside.Some? && dst.inside.Some?
    ensures Put(WorldOf(key, src, Some(guard)), 0, dst) == WorldOf(key, dst, Some(guard))
  {
    assert map[0 := src.inside.value][0 := dst.inside.value] == map[0 := dst.inside.value];
  }

  lemma AcquireShown(key: string, src: P.Source, p: nat, mode: P.Mode) returns (run: seq<Action>)
    requires P.Next(src, P.Acquire(p, mode)).Some?
    ensures Reaches(WorldOf(key, src, None), key, run, WorldOf(key, P.Next(src, P.Acquire(p, mode)).value, Some(p)))
    ensures SessionsLive(run)
  {
    var w, t := WorldOf(key, src, Some(p)), WorldOf(key, P.Next(src, P.Acquire(p, mode)).value, Some(p));
    LockRun(key, src, p);
    assert View(w, None) == src;
    assert Next(w, key, Start(0, mode)) == Some(t);
    assert [Start(0, mode)][1..] == [];
    run := [Session(L.CheckOut(0, p, key)), Session(L.ServeLock(0)), Session(L.Acquired(0))];
    RunsJoin(WorldOf(key, src, None), key, run, w, [Start(0, mode)], t);
    run := run + [Start(0, mode)];
  }

  lemma OwnShown(key: string, src: P.Source, guard: nat, act: P.Action) returns (run: seq<Action>)
    requires (act.Run? || act.Break?) && P.Next(src, act).Some?
    ensures Reaches(WorldOf(key, src, Some(guard)), key, run, WorldOf(key, P.Next(src, act).value, Some(guard)))
    ensures P.Next(src, act).value.inside.Some? && SessionsLive(run)
  {
    var w := WorldOf(key, src, Some(guard));
    StaysInside(src, act);
    PutAlone(key, src, guard, P.Next(src, act).value);
    assert View(w, Some(w.bodies[0])) == src;
    run := [if act.Run? then Work(0, act.reply) else Fail(0)];
    assert run[1..] == [];
  }

  lemma AroundShown(key: string, src: P.Source, guard: Option<nat>, act: P.Action) returns (run: seq<Action>)
    requires IsAround(act) && P.Next(src, act).Some?
    ensures Reaches(WorldOf(key, src, guard), key, run, WorldOf(key, P.Next(src, act).value, guard))
    ensures P.Next(src, act).value.inside == src.inside && SessionsLive(run)
  {
    var w := WorldOf(key, src, guard);
    assert View(w, None) == src.(inside := None);
    run := [Around(act)];
    assert run[1..] == [];
  }

  /** Every step of the protocol is a run of a locked process or of those around it. */
  lemma StepShown(w: World, key: string, src: P.Source, act: P.Action) returns (run: seq<Action>, t: World)
    requires IsWorldOf(w, key, src) && P.Next(src, act).Some?
    ensures Reaches(w, key, run, t) && SessionsLive(run) && IsWorldOf(t, key, P.Next(src, act).value)
  {
    var guard: Option<nat> :| (guard.Some? <==> src.inside.Some?) && w == WorldOf(key, src, guard);
    var dst := P.Next(src, act).value;
    if act.Acquire? {
      run := AcquireShown(key, src, act.p, act.mode);
      t := WorldOf(key, dst, Some(act.p));
    } else if act.Run? || act.Break? {
      run := OwnShown(key, src, guard.value, act);
      t := WorldOf(key, dst, guard);
    } else if IsAround(act) {
      run := AroundShown(key, src, guard, act);
      t := WorldOf(key, dst, guard);
    } else if src.inside.None? {
      run, t := [], w;
    } else {
      t := WorldOf(key, dst, None);
      if act.Unlock? {
        UnlockRun(key, src, guard.value);
        run := [Session(L.StartRelease(0)), Session(L.ServeUnlock(0)), Session(L.Released(0))];
      } else {
        CrashRun(key, src, guard.value);
        run := [Session(L.Abandon(0)), Session(L.SessionEnds(0)), Session(L.Connect(0))];
      }
    }
  }

  lemma {:induction false} RunShown(w: World, key: string, src: P.Source, shadow: seq<P.Action>, dst: P.Source)
    returns (run: seq<Action>, t: World)
    requires IsWorldOf(w, key, src) && P.Reaches(src, shadow, dst)
    ensures Reaches(w, key, run, t) && SessionsLive(run) && IsWorldOf(t, key, dst)
    decreases |shadow|
  {
    if shadow == [] {
      run, t := [], w;
    } else {
      var first, mid := StepShown(w, key, src, shadow[0]);
      var rest;
      rest, t := RunShown(mid, key, P.Next(src, shadow[0]).value, shadow[1..], dst);
      RunsJoin(w, key, first, mid, rest, t);
      run := first + rest;
    }
  }

  // ------------------------------------------------------------- main results

  lemma {:induction false} RunShadowed(w: World, key: string, run: seq<Action>, t: World, src: P.Source)
    returns (shadow: seq<P.Action>, dst: P.Source)
    requires Inv(w, key) && Shows(w, src) && Reaches(w, key, run, t) && SessionsLive(run)
    ensures P.Reaches(src, shadow, dst) && Shows(t, dst) && |shadow| <= |run|
    decreases |run|
  {
    if run == [] {
      shadow, dst := [], src;
    } else {
      var next := Next(w, key, run[0]).value;
      var mid := StepShadowed(w, key, run[0], src);
      NextKeeps(w, key, run[0]);
      shadow, dst := RunShadowed(next, key, run[1..], t, mid);
      var first := Shadow(w, run[0]);
      if first.Some? {
        assert ([first.value] + shadow)[1..] == shadow;
        shadow := [first.value] + shadow;
      }
    }
  }

  /**
   * Refinement: whatever processes do behind their locks is a run of the protocol
   * with a single process inside, on the same rows, document, wire and history.
   */
  lemma RunsAreProtocolRuns(init: World, key: string, run: seq<Action>, w: World)
    returns (shadow: seq<P.Action>, src: P.Source)
    requires Init(init) && Reaches(init, key, run, w) && SessionsLive(run)
    ensures P.Init(View(init, None)) && P.Reaches(View(init, None), shadow, src)
    ensures src.rows == w.rows && src.doc == w.doc && src.wire == w.wire && src.hist == w.hist
  {
    shadow, src := RunShadowed(init, key, run, w, View(init, None));
  }

  /** And the protocol allows no more: every run of it is one of processes behind their locks. */
  lemma ProtocolRunsAreRuns(init: World, key: string, shadow: seq<P.Action>, src: P.Source)
    returns (run: seq<Action>, w: World)
    requires Init(init) && P.Reaches(View(init, None), shadow, src)
    ensures Reaches(init, key, run, w) && SessionsLive(run)
    ensures src.rows == w.rows && src.doc == w.doc && src.wire == w.wire && src.hist == w.hist
    ensures w.bodies == if src.inside.Some? then map[0 := src.inside.value] else map[]
  {
    var first := WorldOf(key, View(init, None), None);
    assert SessionStep(init, L.Connect(0)) == Some(first);
    SessionRun(init, key, L.Connect(0));
    run, w := RunShown(first, key, View(init, None), shadow, src);
    RunsJoin(init, key, [Session(L.Connect(0))], first, run, w);
    run := [Session(L.Connect(0))] + run;
  }

  /** So the results over protocol runs hold of the locked processes, for instance this one. */
  lemma PatchesAreSeparated(init: World, key: string, run: seq<Action>, w: World, a: Patch, i: nat, j: nat)
    requires Init(init) && Reaches(init, key, run, w) && SessionsLive(run)
    requires i < j < |w.hist| && ApplySafety.SentBy(w.hist[i], a) && ApplySafety.SentBy(w.hist[j], a)
    ensures exists k :: i < k < j && ApplySafety.Miss(w.hist[k], a)
  {
    var shadow, src := RunsAreProtocolRuns(init, key, run, w);
    ApplySafety.PatchesAreSeparated(View(init, None), shadow, src, a, i, j);
  }
}
