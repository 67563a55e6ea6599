/**
 * Cross-process ownership of an apply source: PostgreSQL session advisory locks
 * taken through a connection pool. A session is checked out, asks for the lock,
 * guards the apply body, unlocks and returns to the pool, or is closed on any
 * error or cancellation. Advisory locks are re-entrant per session, so a pooled
 * session that still held one would silently break exclusion.
 */
module ApplyLock {
  import opened Options

  /** What the client knows of a session it has not closed yet. */
  datatype Client =
    | Pooled
    | Asking(p: nat, key: string, answer: Option<bool>)     // pg_try_advisory_lock sent
    | Guarding(p: nat, key: string)                         // the guard is alive, `p` runs the body
    | Unlocking(p: nat, key: string, answer: Option<bool>)  // pg_advisory_unlock sent
    | Closing                                               // close_on_drop

  /** `locks` is the server's lock table; `lost` are sessions that died under a live client. */
  datatype Locks = Locks(clients: map<nat, Client>, locks: map<string, nat>, lost: set<nat>)

  datatype Action =
    | Connect(s: nat)
    | CheckOut(s: nat, p: nat, key: string)
    | ServeLock(s: nat)
    | Acquired(s: nat)
    | Refused(s: nat)
    | StartRelease(s: nat)
    | ServeUnlock(s: nat)
    | Released(s: nat)
    | Abandon(s: nat)      // error, cancellation, or the process dies: the guard closes the session
    | SessionEnds(s: nat)  // the server notices a closed session
    | SessionLost(s: nat)  // the server drops a session its client still uses

  function Set(st: Locks, s: nat, c: Client): Option<Locks> {
    Some(st.(clients := st.clients[s := c]))
  }

  function Without(locks: map<string, nat>, s: nat): map<string, nat> {
    map k | k in locks && locks[k] != s :: locks[k]
  }

  /** `pg_try_advisory_lock` succeeds on a free lock and on one the session already has. */
  predicate Grants(st: Locks, s: nat, key: string) {
    key !in st.locks || st.locks[key] == s
  }

  /** `pg_advisory_unlock` reports whether the session had the lock. */
  predicate Holds(st: Locks, s: nat, key: string) {
    key in st.locks && st.locks[key] == s
  }

  function Next(st: Locks, act: Action): Option<Locks> {
    var s := act.s;
    if act.Connect? then
      if s !in st.clients && s !in st.lost && s !in st.locks.Values then Set(st, s, Pooled) else None
    else if s !in st.clients then None
    else
      var c := st.clients[s];
      match act
      case CheckOut(_, p, key) => if c.Pooled? && s !in st.lost then Set(st, s, Asking(p, key, None)) else None
      case ServeLock(_) =>
        if c.Asking? && c.answer.None? && s !in st.lost then
          var yes := Grants(st, s, c.key);
          Set(if yes then st.(locks := st.locks[c.key := s]) else st, s, Asking(c.p, c.key, Some(yes)))
        else None
      case Acquired(_) => if c.Asking? && c.answer == Some(true) then Set(st, s, Guarding(c.p, c.key)) else None
      case Refused(_) => if c.Asking? && c.answer == Some(false) then Set(st, s, Pooled) else None
      case StartRelease(_) => if c.Guarding? then Set(st, s, Unlocking(c.p, c.key, None)) else None
      case ServeUnlock(_) =>
        if c.Unlocking? && c.answer.None? && s !in st.lost then
          var yes := Holds(st, s, c.key);
          Set(if yes then st.(locks := st.locks - {c.key}) else st, s, Unlocking(c.p, c.key, Some(yes)))
        else None
      case Released(_) => if c.Unlocking? && c.answer == Some(true) then Set(st, s, Pooled) else None
      case Abandon(_) => if c.Asking? || c.Guarding? || c.Unlocking? then Set(st, s, Closing) else None
      case SessionEnds(_) =>
        if c.Closing? then Some(st.(clients := st.clients - {s}, locks := Without(st.locks, s))) else None
      case SessionLost(_) => Some(st.(locks := Without(st.locks, s), lost := st.lost + {s}))
      case _ => None
  }

  predicate Init(st: Locks) {
    st == Locks(map[], map[], {})
  }

  predicate Reaches(init: Locks, run: seq<Action>, st: Locks)
    decreases |run|
  {
    if run == [] then init == st
    else
      var t := Next(init, run[0]);
      t.Some? && Reaches(t.value, run[1..], st)
  }

  // ---------------------------------------------------------------- invariant

  /** The client believes to own the lock of `key`. */
  predicate Owns(c: Client, key: string) {
    || (c.Asking? && c.key == key && c.answer == Some(true))
    || (c.Guarding? && c.key == key)
    || (c.Unlocking? && c.key == key && c.answer != Some(true))
  }

  /** Owners are sessions that will unlock or end; live clients that believe to own a lock do. */
  ghost predicate Inv(st: Locks) {
    && (forall k :: k in st.locks ==>
          && st.locks[k] in st.clients && st.locks[k] !in st.lost
          && (Owns(st.clients[st.locks[k]], k) || st.clients[st.locks[k]].Closing?))
    && (forall s, k :: s in st.clients && s !in st.lost && Owns(st.clients[s], k) ==> k in st.locks && st.locks[k] == s)
  }

  /** Session `s` alone changes what it believes, and only the lock of `key` changes hands. */
  lemma ChangeKeeps(st: Locks, t: Locks, s: nat, c: Client)
    requires Inv(st) && t.clients == st.clients[s := c] && t.lost == st.lost && s !in st.lost
    requires forall k :: k in t.locks && t.locks[k] != s ==> k in st.locks && st.locks[k] == t.locks[k]
    requires forall k :: k in st.locks && st.locks[k] != s ==> k in t.locks && st.locks[k] == t.locks[k]
    requires forall k :: k in t.locks && t.locks[k] == s ==> Owns(c, k) || c.Closing?
    requires forall k :: Owns(c, k) ==> k in t.locks && t.locks[k] == s
    ensures Inv(t)
  {
  }

  /** The sessions the server has dropped own nothing, so what they believe does not matter. */
  lemma LostKeeps(st: Locks, t: Locks, s: nat, c: Client)
    requires Inv(st) && t == st.(clients := st.clients[s := c]) && s in st.lost
    ensures Inv(t)
  {
  }

  lemma EndKeeps(st: Locks, act: Action)
    requires Inv(st) && Next(st, act).Some? && (act.SessionEnds? || act.SessionLost?)
    ensures Inv(Next(st, act).value)
  {
  }

  lemma ServeKeeps(st: Locks, act: Action)
    requires Inv(st) && Next(st, act).Some? && (act.ServeLock? || act.ServeUnlock?)
    ensures Inv(Next(st, act).value)
  {
    var t := Next(st, act).value;
    assert Owns(st.clients[act.s], st.clients[act.s].key) || act.ServeLock?;
    ChangeKeeps(st, t, act.s, t.clients[act.s]);
  }

  lemma BelieveKeeps(st: Locks, act: Action)
    requires Inv(st) && Next(st, act).Some?
    requires !(act.SessionEnds? || act.SessionLost? || act.ServeLock? || act.ServeUnlock?)
    ensures Inv(Next(st, act).value)
  {
    var t := Next(st, act).value;
    if act.s in st.lost {
      LostKeeps(st, t, act.s, t.clients[act.s]);
    } else {
      ChangeKeeps(st, t, act.s, t.clients[act.s]);
    }
  }

  lemma NextKeeps(st: Locks, act: Action)
    requires Inv(st) && Next(st, act).Some?
    ensures Inv(Next(st, act).value)
  {
    match act {
      case SessionEnds(_) => EndKeeps(st, act);
      case SessionLost(_) => EndKeeps(st, act);
      case ServeLock(_) => ServeKeeps(st, act);
      case ServeUnlock(_) => ServeKeeps(st, act);
      case _ => BelieveKeeps(st, act);
    }
  }

  lemma {:induction false} ReachableInv(init: Locks, run: seq<Action>, st: Locks)
    requires Inv(init) && Reaches(init, run, st)
    ensures Inv(st)
    decreases |run|
  {
    if run != [] {
      NextKeeps(init, run[0]);
      ReachableInv(Next(init, run[0]).value, run[1..], st);
    }
  }

  // ------------------------------------------------------------ main results

  /** No session that waits in the pool holds a lock. */
  lemma PoolIsClean(init: Locks, run: seq<Action>, st: Locks, k: string)
    requires Init(init) && Reaches(init, run, st)
    requires k in st.locks
    ensures st.locks[k] in st.clients && !st.clients[st.locks[k]].Pooled?
  {
    ReachableInv(init, run, st);
  }

  /** A process may be inside the apply body of `k` through session `s`. */
  predicate InBody(st: Locks, s: nat, k: string) {
    s in st.clients && st.clients[s].Guarding? && st.clients[s].key == k
  }

  /** Two bodies run for one source key only if the server dropped the session of one of them. */
  lemma BodiesExcludeEachOther(init: Locks, run: seq<Action>, st: Locks, k: string, s1: nat, s2: nat)
    requires Init(init) && Reaches(init, run, st)
    requires InBody(st, s1, k) && InBody(st, s2, k) && s1 != s2
    ensures s1 in st.lost || s2 in st.lost
  {
    ReachableInv(init, run, st);
    assert Owns(st.clients[s1], k) && Owns(st.clients[s2], k);
    if s1 !in st.lost { assert st.locks[k] == s1; }
    if s2 !in st.lost { assert st.locks[k] == s2; }
  }

  lemma {:induction false} NothingLost(init: Locks, run: seq<Action>, st: Locks)
    requires Reaches(init, run, st) && init.lost == {}
    requires forall i :: 0 <= i < |run| ==> !run[i].SessionLost?
    ensures st.lost == {}
    decreases |run|
  {
    if run != [] { NothingLost(Next(init, run[0]).value, run[1..], st); }
  }

  /** While sessions die only with their clients, at most one process is inside the body of a source. */
  lemma OneBodyPerSource(init: Locks, run: seq<Action>, st: Locks, k: string, s1: nat, s2: nat)
    requires Init(init) && Reaches(init, run, st)
    requires forall i :: 0 <= i < |run| ==> !run[i].SessionLost?
    requires InBody(st, s1, k) && InBody(st, s2, k)
    ensures s1 == s2 && k in st.locks && st.locks[k] == s1
  {
    NothingLost(init, run, st);
    ReachableInv(init, run, st);
    assert Owns(st.clients[s1], k) && Owns(st.clients[s2], k);
    assert st.locks[k] == s1;
    assert st.locks[k] == s2;
  }

  lemma FirstThen(init: Locks, act: Action, rest: seq<Action>, st: Locks)
    requires Next(init, act).Some? && Reaches(Next(init, act).value, rest, st)
    ensures Reaches(init, [act] + rest, st)
  {
    assert ([act] + rest)[1..] == rest;
  }

  /** A fresh process enters the body of a free source. */
  lemma Enters(st: Locks, s: nat, p: nat, key: string) returns (run: seq<Action>, t: Locks)
    requires s !in st.clients && s !in st.lost && s !in st.locks.Values && key !in st.locks
    ensures Reaches(st, run, t) && InBody(t, s, key) && t.lost == st.lost
    ensures t.clients == st.clients[s := Guarding(p, key)] && t.locks == st.locks[key := s]
  {
    var t1 := Next(st, Connect(s)).value;
    var t2 := Next(t1, CheckOut(s, p, key)).value;
    var t3 := Next(t2, ServeLock(s)).value;
    t := Next(t3, Acquired(s)).value;
    run := [];
    FirstThen(t3, Acquired(s), run, t);
    run := [Acquired(s)] + run;
    FirstThen(t2, ServeLock(s), run, t);
    run := [ServeLock(s)] + run;
    FirstThen(t1, CheckOut(s, p, key), run, t);
    run := [CheckOut(s, p, key)] + run;
    FirstThen(st, Connect(s), run, t);
    run := [Connect(s)] + run;
  }

  lemma {:induction false} Joined(a: Locks, r1: seq<Action>, b: Locks, r2: seq<Action>, c: Locks)
    requires Reaches(a, r1, b) && Reaches(b, r2, c)
    ensures Reaches(a, r1 + r2, c)
    decreases |r1|
  {
    if r1 == [] {
      assert r1 + r2 == r2;
    } else {
      assert (r1 + r2)[1..] == r1[1..] + r2;
      Joined(Next(a, r1[0]).value, r1[1..], b, r2, c);
    }
  }

  /** The condition is needed: after a lost session a second process enters beside the first. */
  lemma LostSessionAdmitsTwo() returns (run: seq<Action>, st: Locks)
    ensures Reaches(Locks(map[], map[], {}), run, st) && InBody(st, 1, "job:1") && InBody(st, 2, "job:1")
  {
    var init := Locks(map[], map[], {});
    var first, a := Enters(init, 1, 1, "job:1");
    var b := Next(a, SessionLost(1)).value;
    FirstThen(a, SessionLost(1), [], b);
    ReachableInv(init, first, a);
    assert 2 !in a.clients;
    var second, c := Enters(b, 2, 2, "job:1");
    Joined(a, [SessionLost(1)] + [], b, second, c);
    Joined(init, first, a, [SessionLost(1)] + [] + second, c);
    run, st := first + ([SessionLost(1)] + [] + second), c;
  }

  // ------------------------------------- when a second body can be entered

  /** The process behind `s` runs the body of `k`, or will once it reads the answer it has been sent. */
  predicate Believes(st: Locks, s: nat, k: string) {
    s in st.clients && var c := st.clients[s];
    (c.Guarding? && c.key == k) || (c.Asking? && c.key == k && c.answer == Some(true))
  }

  /** Without further losses two processes get inside the body of `k`. */
  ghost predicate TwoMayEnter(st: Locks, k: string) {
    exists run, t: Locks, s1: nat, s2: nat ::
      NoLoss(run) && Reaches(st, run, t) && s1 != s2 && InBody(t, s1, k) && InBody(t, s2, k)
  }

  ghost predicate NoLoss(run: seq<Action>) {
    forall i :: 0 <= i < |run| ==> !run[i].SessionLost?
  }

  lemma TwoAlready(st: Locks, k: string, s1: nat, s2: nat)
    requires s1 != s2 && InBody(st, s1, k) && InBody(st, s2, k)
    ensures TwoMayEnter(st, k)
  {
    assert Reaches(st, [], st) && NoLoss([]);
  }

  lemma TwoAfter(st: Locks, act: Action, k: string)
    requires Next(st, act).Some? && !act.SessionLost? && TwoMayEnter(Next(st, act).value, k)
    ensures TwoMayEnter(st, k)
  {
    var run, t: Locks, s1: nat, s2: nat :| NoLoss(run) && Reaches(Next(st, act).value, run, t)
      && s1 != s2 && InBody(t, s1, k) && InBody(t, s2, k);
    FirstThen(st, act, run, t);
    assert NoLoss([act] + run);
  }

  /** The key is free: a new session takes it. */
  lemma TwoIfFree(st: Locks, k: string, s: nat)
    requires InBody(st, s, k) && k !in st.locks
    ensures TwoMayEnter(st, k)
  {
    var n := Above(st.clients.Keys + st.lost + st.locks.Values);
    var a := Next(st, Connect(n)).value;
    var b := Next(a, CheckOut(n, 0, k)).value;
    var c := Next(b, ServeLock(n)).value;
    TwoAlready(Next(c, Acquired(n)).value, k, s, n);
    TwoAfter(c, Acquired(n), k);
    TwoAfter(b, ServeLock(n), k);
    TwoAfter(a, CheckOut(n, 0, k), k);
    TwoAfter(st, Connect(n), k);
  }

  lemma {:induction false} Above(s: set<nat>) returns (n: nat)
    ensures forall m :: m in s ==> m < n
  {
    if s == {} {
      n := 0;
    } else {
      var m :| m in s;
      n := Above(s - {m});
      if n <= m { n := m + 1; }
      forall q | q in s ensures q < n { assert q == m || q in s - {m}; }
    }
  }

  /** Its owner gives the key up: whatever it was doing, its session can end. */
  lemma TwoIfClosing(st: Locks, k: string, s: nat, owner: nat)
    requires InBody(st, s, k) && owner != s && owner in st.clients && st.clients[owner].Closing?
    requires k in st.locks && st.locks[k] == owner
    ensures TwoMayEnter(st, k)
  {
    TwoIfFree(Next(st, SessionEnds(owner)).value, k, s);
    TwoAfter(st, SessionEnds(owner), k);
  }

  lemma TwoIfLost(st: Locks, k: string, s: nat)
    requires Inv(st) && InBody(st, s, k) && s in st.lost
    ensures TwoMayEnter(st, k)
  {
    if k !in st.locks {
      TwoIfFree(st, k, s);
    } else {
      var owner := st.locks[k];
      if InBody(st, owner, k) {
        TwoAlready(st, k, s, owner);
      } else if st.clients[owner].Closing? {
        TwoIfClosing(st, k, s, owner);
      } else {
        TwoIfClosing(Next(st, Abandon(owner)).value, k, s, owner);
        TwoAfter(st, Abandon(owner), k);
      }
    }
  }

  /** Nobody comes to believe in a lock through a session the server has dropped. */
  lemma BelievedBefore(st: Locks, act: Action, s: nat, k: string)
    requires Next(st, act).Some? && !act.SessionLost? && s in st.lost && Believes(Next(st, act).value, s, k)
    ensures Next(st, act).value.lost == st.lost && Believes(st, s, k)
  {
  }

  lemma {:induction false} BelievedAtFirst(st: Locks, run: seq<Action>, t: Locks, s: nat, k: string)
    requires Reaches(st, run, t) && NoLoss(run) && s in t.lost && Believes(t, s, k)
    ensures s in st.lost && Believes(st, s, k)
    decreases |run|
  {
    if run != [] {
      assert !run[0].SessionLost?;
      BelievedAtFirst(Next(st, run[0]).value, run[1..], t, s, k);
      BelievedBefore(st, run[0], s, k);
    }
  }

  /**
   * Two processes can get inside the body of a source exactly when the server has dropped
   * the session of one that is inside already or has been granted the lock.
   */
  lemma TwoMayEnterExactly(init: Locks, run: seq<Action>, st: Locks, k: string)
    requires Init(init) && Reaches(init, run, st)
    ensures TwoMayEnter(st, k) <==> exists s: nat :: s in st.lost && Believes(st, s, k)
  {
    ReachableInv(init, run, st);
    if TwoMayEnter(st, k) {
      var more, t: Locks, s1: nat, s2: nat :| NoLoss(more) && Reaches(st, more, t)
        && s1 != s2 && InBody(t, s1, k) && InBody(t, s2, k);
      Joined(init, run, st, more, t);
      BodiesExcludeEachOther(init, run + more, t, k, s1, s2);
      BelievedAtFirst(st, more, t, if s1 in t.lost then s1 else s2, k);
    }
    if s: nat :| s in st.lost && Believes(st, s, k) {
      if st.clients[s].Guarding? {
        TwoIfLost(st, k, s);
      } else {
        NextKeeps(st, Acquired(s));
        TwoIfLost(Next(st, Acquired(s)).value, k, s);
        TwoAfter(st, Acquired(s), k);
      }
    }
  }

  // ------------------------------------------------------------- the guard

  /** What becomes of a statement: it is answered, fails before it takes effect, or its answer is lost. */
  datatype Fate = Answered | NotServed | AnswerLost

  /** The connection pool together with the server behind it. */
  class Pool {
    var st: Locks

    ghost predicate Valid()
      reads this
    {
      Inv(st)
    }

    /** Session `s` waits in the pool, or can be opened. */
    predicate Available(s: nat)
      reads this
    {
      s !in st.lost && if s in st.clients then st.clients[s].Pooled? else s !in st.locks.Values
    }

    method Take(act: Action)
      requires Valid() && Next(st, act).Some?
      modifies this
      ensures Valid() && st == Next(old(st), act).value
    {
      NextKeeps(st, act);
      st := Next(st, act).value;
    }

    /** The session `s` the pool has to offer, opened if need be. */
    method Connection(s: nat) returns (available: bool)
      requires Valid()
      modifies this
      ensures Valid() && available == old(Available(s))
      ensures st == if available then old(st).(clients := old(st).clients[s := Pooled]) else old(st)
    {
      if s !in st.clients && s !in st.lost && s !in st.locks.Values {
        Take(Connect(s));
      }
      available := s in st.clients && s !in st.lost && st.clients[s].Pooled?;
    }

    /** `select pg_try_advisory_lock`. */
    method Ask(s: nat, p: nat, key: string, fate: Fate) returns (answer: Option<bool>)
      requires Valid() && s in st.clients && st.clients[s].Pooled? && s !in st.lost
      modifies this
      ensures Valid() && st.lost == old(st).lost && s in st.clients && st.clients[s].Asking?
      ensures answer == if fate.Answered? then Some(key !in old(st).locks) else None
      ensures st.clients == old(st).clients[s := st.clients[s]]
      ensures st.locks == if fate.NotServed? || key in old(st).locks then old(st).locks else old(st).locks[key := s]
      ensures answer.Some? ==> st.clients[s] == Asking(p, key, answer)
    {
      assert key in st.locks ==> st.locks[key] != s;
      Take(CheckOut(s, p, key));
      if fate.NotServed? {
        return None;
      }
      Take(ServeLock(s));
      answer := if fate.AnswerLost? then None else st.clients[s].answer;
    }
  }

  /** `ApplySourceLock`: it closes its session when dropped with the connection still inside. */
  class ApplySourceLock {
    var connection: Option<nat>
    const p: nat
    const sourceKey: string

    constructor (session: nat, p: nat, sourceKey: string)
      ensures connection == Some(session) && this.p == p && this.sourceKey == sourceKey
    {
      this.connection, this.p, this.sourceKey := Some(session), p, sourceKey;
    }

    /** The guard is alive and its session is live. */
    ghost predicate Guards(pool: Pool)
      reads this, pool
    {
      && pool.Valid() && connection.Some?
      && connection.value in pool.st.clients && connection.value !in pool.st.lost
      && pool.st.clients[connection.value] == Guarding(p, sourceKey)
    }

    /** `Drop`: a connection still held is closed, never pooled. */
    method Drop(pool: Pool)
      requires pool.Valid()
      requires connection.Some? ==> (connection.value in pool.st.clients &&
        var c := pool.st.clients[connection.value]; c.Asking? || c.Guarding? || c.Unlocking?)
      modifies pool
      ensures pool.Valid()
      ensures connection.None? ==> pool.st == old(pool.st)
      ensures connection.Some? ==>
        pool.st == old(pool.st).(clients := old(pool.st).clients[connection.value := Closing])
    {
      if connection.Some? {
        pool.Take(Abandon(connection.value));
      }
    }

    /** `release`: the session returns to the pool exactly if the server's unlock is answered; else it is closed. */
    method Release(pool: Pool, fate: Fate) returns (released: bool)
      requires Guards(pool)
      modifies this, pool
      ensures pool.Valid() && released == fate.Answered?
      ensures var s := old(connection).value; var was := old(pool.st);
        pool.st == was.(
          clients := was.clients[s := if released then Pooled else Closing],
          locks := if fate.NotServed? then was.locks else was.locks - {sourceKey})
      ensures released ==> connection.None?
    {
      var s := connection.value;
      assert Owns(pool.st.clients[s], sourceKey);
      pool.Take(StartRelease(s));
      if !fate.NotServed? {
        pool.Take(ServeUnlock(s));
      }
      released := fate.Answered?;
      if released {
        pool.Take(Released(s));
        connection := None;
      }
      Drop(pool);
    }
  }

  datatype TryLock = Locked(guard: ApplySourceLock) | Busy | NoConnection

  /** `try_lock_apply_source` on the session `s` of the pool: never waits; every failure closes the session. */
  method TryLockApplySource(pool: Pool, s: nat, p: nat, key: string, fate: Fate) returns (r: TryLock)
    requires pool.Valid()
    modifies pool
    ensures pool.Valid() && pool.st.lost == old(pool.st).lost
    // The guard comes exactly with the lock; a key that is taken is reported as such.
    ensures r.NoConnection? <==> !old(pool.Available(s)) || !fate.Answered?
    ensures !r.NoConnection? ==> (r.Locked? <==> key !in old(pool.st).locks)
    ensures r.Locked? ==>
      && fresh(r.guard) && r.guard.sourceKey == key && r.guard.connection == Some(s) && r.guard.Guards(pool)
      && pool.st.clients == old(pool.st).clients[s := Guarding(p, key)]
      && pool.st.locks == old(pool.st).locks[key := s]
    ensures r.Busy? ==> pool.st == old(pool.st).(clients := old(pool.st).clients[s := Pooled])
    // After a failed statement the session is closed, the lock it may have been granted with it.
    ensures r.NoConnection? && !old(pool.Available(s)) ==> pool.st == old(pool.st)
    ensures r.NoConnection? && old(pool.Available(s)) ==>
      && pool.st.clients == old(pool.st).clients[s := Closing]
      && pool.st.locks == if fate.NotServed? || key in old(pool.st).locks then old(pool.st).locks
                          else old(pool.st).locks[key := s]
  {
    var available := pool.Connection(s);
    if !available {
      return NoConnection;
    }
    var guard := new ApplySourceLock(s, p, key);
    var answer := pool.Ask(s, p, key, fate);
    if answer.None? {
      guard.Drop(pool);
      return NoConnection;
    }
    if !answer.value {
      pool.Take(Refused(s));
      guard.connection := None;
      guard.Drop(pool);
      return Busy;
    }
    pool.Take(Acquired(s));
    return Locked(guard);
  }
}
