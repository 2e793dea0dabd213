/** The three locks of the dashboard: who holds what in every reachable state, and deadlock freedom. */
module Locking {
  import opened Wrappers
  import opened Dashboard

  predicate Reads(th: Thread, l: LockName) {
    match th
    case StCast(_, _, _) => l == WsLock
    case LgCast(_, _) => l == WsLock
    case WsStatus(_) => l == StatusLock
    case WsLog(_) => l == LogLock
    case PageIn(page) => l == page
    case _ => false
  }

  /** Inside l as its writer. */
  predicate Owns(th: Thread, l: LockName) {
    match th
    case StIn(_, _, _) => l == StatusLock
    case StUpdated(_, _) => l == StatusLock
    case StCast(_, _, _) => l == StatusLock
    case StLeave => l == StatusLock
    case LgIn(_) => l == LogLock
    case LgAdded(_) => l == LogLock
    case LgCast(_, _) => l == LogLock
    case LgLeave => l == LogLock
    case WsIn => l == WsLock
    case WsOut => l == WsLock
    case WsByeIn => l == WsLock
    case WsByeOut => l == WsLock
    case _ => false
  }

  /** Announced to l as a writer, and not inside yet. */
  predicate Waits(th: Thread, l: LockName) {
    match th
    case StWait(_, _, _) => l == StatusLock
    case LgWait(_) => l == LogLock
    case WsWait => l == WsLock
    case WsByeWait => l == WsLock
    case _ => false
  }

  predicate Claims(th: Thread, l: LockName) {
    Owns(th, l) || Waits(th, l)
  }

  ghost predicate LockInvFor(threads: map<Tid, Thread>, rw: RW, l: LockName) {
    && (forall t :: t in rw.readers <==> t in threads && Reads(threads[t], l))
    && (forall t :: rw.writer == Some(t) <==> t in threads && Claims(threads[t], l))
    && (forall t :: t in threads && Owns(threads[t], l) ==> rw.readers == {})
  }

  /** Each lock's record agrees with what the threads are doing, at most one thread claims it as a writer, and
      no reader is inside together with a writer. */
  ghost predicate LockInv(s: State) {
    forall l :: LockInvFor(s.threads, s.locks.Get(l), l)
  }

  /** What a step changes of a thread's holdings is what its lock operation says. */
  lemma HoldingsFollowOp(s: State, th: Thread, ch: Choice, l: LockName)
    ensures var th', op := Advance(s, th, ch), NextOp(th);
            && Reads(th', l) == (op == ReadLock(l) || (Reads(th, l) && op != ReadUnlock(l)))
            && Claims(th', l) == (op == Announce(l) || (Claims(th, l) && op != Leave(l)))
            && Owns(th', l) == (op == Enter(l) || (Owns(th, l) && op != Leave(l)))
            && (op == Leave(l) ==> Claims(th, l)) && (op == ReadUnlock(l) ==> Reads(th, l))
  {
    ReadsFollowOp(s, th, ch, l);
    OwnsFollowOp(s, th, ch, l);
    ClaimsFollowOp(s, th, ch, l);
  }

  lemma ReadsFollowOp(s: State, th: Thread, ch: Choice, l: LockName)
    ensures var op := NextOp(th);
            && Reads(Advance(s, th, ch), l) == (op == ReadLock(l) || (Reads(th, l) && op != ReadUnlock(l)))
            && (op == ReadUnlock(l) ==> Reads(th, l))
  {
  }

  lemma OwnsFollowOp(s: State, th: Thread, ch: Choice, l: LockName)
    ensures var op := NextOp(th);
            && Owns(Advance(s, th, ch), l) == (op == Enter(l) || (Owns(th, l) && op != Leave(l)))
            && (op == Leave(l) ==> Owns(th, l))
  {
  }

  lemma ClaimsFollowOp(s: State, th: Thread, ch: Choice, l: LockName)
    ensures Claims(Advance(s, th, ch), l) == (NextOp(th) == Announce(l) || (Claims(th, l) && NextOp(th) != Leave(l)))
  {
    OwnsFollowOp(s, th, ch, l);
    WaitsFollowOp(s, th, ch, l);
  }

  lemma WaitsFollowOp(s: State, th: Thread, ch: Choice, l: LockName)
    ensures Waits(Advance(s, th, ch), l) == (NextOp(th) == Announce(l))
    ensures Waits(th, l) == (NextOp(th) == Enter(l))
  {
  }

  lemma OperateOther(locks: Locks, op: LockOp, t: Tid, l: LockName)
    requires op == NoLock || op.l != l
    ensures Operate(locks, op, t).Get(l) == locks.Get(l)
  {
  }

  lemma OperateThis(locks: Locks, op: LockOp, t: Tid)
    requires op != NoLock
    ensures var rw := locks.Get(op.l);
            Operate(locks, op, t).Get(op.l) == match op
              case Announce(_) => rw.(writer := Some(t))
              case Enter(_) => rw
              case Leave(_) => rw.(writer := None)
              case ReadLock(_) => rw.(readers := rw.readers + {t})
              case ReadUnlock(_) => rw.(readers := rw.readers - {t})
  {
  }

  lemma LockStepFor(s: State, size: int, t: Tid, ch: Choice, l: LockName)
    requires LockInv(s) && CanStep(s, t, ch)
    ensures LockInvFor(Next(s, size, t, ch).threads, Next(s, size, t, ch).locks.Get(l), l)
  {
    var th, op := s.threads[t], NextOp(s.threads[t]);
    var s' := Next(s, size, t, ch);
    assert LockInvFor(s.threads, s.locks.Get(l), l);
    HoldingsFollowOp(s, th, ch, l);
    if op == NoLock || op.l != l {
      OperateOther(s.locks, op, t, l);
    } else {
      OperateThis(s.locks, op, t);
    }
    assert s'.threads == s.threads[t := Advance(s, th, ch)] && s'.locks == Operate(s.locks, op, t);
  }

  lemma BeginsHoldingNothing(th: Thread, l: LockName)
    requires Begins(th)
    ensures !Reads(th, l) && !Claims(th, l)
  {
  }

  lemma LockInvStep(s: State, size: int, a: Action)
    requires LockInv(s) && Enabled(s, a)
    ensures LockInv(Do(s, size, a))
  {
    forall l ensures LockInvFor(Do(s, size, a).threads, Do(s, size, a).locks.Get(l), l) {
      match a
      case Spawn(t, th) =>
        assert LockInvFor(s.threads, s.locks.Get(l), l);
        BeginsHoldingNothing(th, l);
      case Move(t, ch) => LockStepFor(s, size, t, ch, l);
    }
  }

  lemma {:induction false} LockInvReachable(s0: State, size: int, acts: seq<Action>, s: State)
    requires Init(s0) && Reaches(s0, size, acts, s)
    ensures LockInv(s)
  {
    if acts == [] {
      forall l ensures LockInvFor(s.threads, s.locks.Get(l), l) {}
    } else {
      var last := |acts| - 1;
      var m :| Reaches(s0, size, acts[..last], m) && Enabled(m, acts[last]) && s == Do(m, size, acts[last]);
      LockInvReachable(s0, size, acts[..last], m);
      LockInvStep(m, size, acts[last]);
    }
  }

  // ---------- deadlock freedom ----------

  /** A thread with something to do: neither finished nor waiting for its client to go away. */
  predicate Busy(th: Thread) {
    th != Finished && th != WsIdle
  }

  ghost predicate Ready(s: State, t: Tid) {
    t in s.threads && Busy(s.threads[t]) && exists ch :: CanStep(s, t, ch)
  }

  /** A thread whose next step is not kept out by a lock can step. */
  lemma NotKeptOut(s: State, t: Tid)
    requires t in s.threads && Busy(s.threads[t])
    requires var op := NextOp(s.threads[t]); op == NoLock || Allowed(s.locks.Get(op.l), op)
    ensures Ready(s, t)
  {
    var c: Tid, d: Dev := 0, "";
    match s.threads[t] {
      case StCast(_, _, todo) => if todo != {} { c :| c in todo; }
      case LgCast(_, todo) => if todo != {} { c :| c in todo; }
      case WsStatus(devs) => if devs != {} { d :| d in devs; }
      case _ =>
    }
    assert CanStep(s, t, Choice(c, d, false));
  }

  /** The order of the locks: ws is taken last, and nothing more is taken while holding it. */
  lemma HoldersMoveOn(th: Thread, l: LockName)
    requires Reads(th, l) || Owns(th, l)
    ensures Busy(th)
    ensures var op := NextOp(th);
            op == NoLock || op.Leave? || op.ReadUnlock? || (op == ReadLock(WsLock) && l != WsLock)
  {
  }

  /** If a thread is kept out of l by the lock itself, some thread inside l, or the announced writer of an
      empty l, is what keeps it out. */
  lemma SomeoneInFront(s: State, t: Tid) returns (u: Tid)
    requires LockInv(s) && t in s.threads && NextOp(s.threads[t]) != NoLock
    requires !Allowed(s.locks.Get(NextOp(s.threads[t]).l), NextOp(s.threads[t]))
    ensures var l := NextOp(s.threads[t]).l;
            u in s.threads && (Reads(s.threads[u], l) || Owns(s.threads[u], l)
                               || (NextOp(s.threads[u]) == Enter(l) && s.locks.Get(l).readers == {}))
  {
    var l := NextOp(s.threads[t]).l;
    var rw := s.locks.Get(l);
    assert LockInvFor(s.threads, rw, l);
    if rw.readers != {} {
      u :| u in rw.readers;
    } else {
      u := rw.writer.value;
      if Waits(s.threads[u], l) { WaitsFollowOp(s, s.threads[u], Choice(0, "", false), l); }
    }
  }

  /** A thread kept out of the ws lock: some thread can step. */
  lemma WsResolves(s: State, t: Tid) returns (u: Tid)
    requires LockInv(s) && t in s.threads
    requires var op := NextOp(s.threads[t]); op != NoLock && op.l == WsLock && !Allowed(s.locks.Get(op.l), op)
    ensures Ready(s, u)
  {
    u := SomeoneInFront(s, t);
    if Reads(s.threads[u], WsLock) || Owns(s.threads[u], WsLock) {
      HoldersMoveOn(s.threads[u], WsLock);
    }
    NotKeptOut(s, u);
  }

  /** A thread kept out of the status or the log lock: some thread can step. */
  lemma OuterResolves(s: State, t: Tid) returns (v: Tid)
    requires LockInv(s) && t in s.threads
    requires var op := NextOp(s.threads[t]); op != NoLock && op.l != WsLock && !Allowed(s.locks.Get(op.l), op)
    ensures Ready(s, v)
  {
    v := SomeoneInFront(s, t);
    var l, th := NextOp(s.threads[t]).l, s.threads[v];
    if Reads(th, l) || Owns(th, l) {
      HoldersMoveOn(th, l);
    }
    if NextOp(th) == ReadLock(WsLock) && !Allowed(s.locks.Get(WsLock), NextOp(th)) {
      v := WsResolves(s, v);
    } else {
      NotKeptOut(s, v);
    }
  }

  lemma SomeoneIsReady(s: State)
    requires LockInv(s) && exists t :: t in s.threads && Busy(s.threads[t])
    ensures exists u :: Ready(s, u)
  {
    var t :| t in s.threads && Busy(s.threads[t]);
    var op := NextOp(s.threads[t]);
    if op == NoLock || Allowed(s.locks.Get(op.l), op) {
      NotKeptOut(s, t);
    } else if op.l == WsLock {
      var u := WsResolves(s, t);
    } else {
      var u := OuterResolves(s, t);
    }
  }

  /** No deadlock: in every reachable state, with any number of threads, if some thread has something to do
      then some thread with something to do can step, without any client having to disconnect. */
  lemma NoDeadlock(s0: State, size: int, acts: seq<Action>, s: State)
    requires Init(s0) && Reaches(s0, size, acts, s)
    requires exists t :: t in s.threads && Busy(s.threads[t])
    ensures exists u :: Ready(s, u)
  {
    LockInvReachable(s0, size, acts, s);
    SomeoneIsReady(s);
  }

  // ---------- what the locks are for ----------

  /** A thread is kept out for a reason only: a reader or a new writer by a writer, a writer that has announced
      itself by a reader. Readers do not keep readers out. */
  lemma KeptOutBy(s: State, t: Tid)
    requires LockInv(s) && t in s.threads && NextOp(s.threads[t]) != NoLock
    requires !Allowed(s.locks.Get(NextOp(s.threads[t]).l), NextOp(s.threads[t]))
    ensures var op := NextOp(s.threads[t]);
            exists u :: u in s.threads && if op.Enter? then Reads(s.threads[u], op.l) else Claims(s.threads[u], op.l)
  {
    var op := NextOp(s.threads[t]);
    var rw := s.locks.Get(op.l);
    assert LockInvFor(s.threads, rw, op.l);
    if op.Enter? {
      var u :| u in rw.readers;
      assert Reads(s.threads[u], op.l);
    } else {
      assert Claims(s.threads[rw.writer.value], op.l);
    }
  }

  /** Statuses and the log change only inside their lock as a writer. */
  lemma DataChangesUnderLocks(s: State, size: int, t: Tid, ch: Choice)
    requires CanStep(s, t, ch)
    ensures var s', th := Next(s, size, t, ch), s.threads[t];
            && (s'.devices != s.devices ==> Owns(th, StatusLock))
            && (s'.mqttLog != s.mqttLog || s'.history != s.history ==> Owns(th, LogLock))
  {
  }

  /** The set of clients grows only inside the ws lock as a writer, and shrinks only inside it as a reader or a
      writer; a connection is written to by its own thread, or inside the ws lock. */
  lemma ClientsChangeUnderLock(s: State, size: int, t: Tid, ch: Choice, c: Tid)
    requires CanStep(s, t, ch)
    ensures var s', th := Next(s, size, t, ch), s.threads[t];
            && (c in s'.clients && c !in s.clients ==> Owns(th, WsLock))
            && (c in s.clients && c !in s'.clients ==> Owns(th, WsLock) || Reads(th, WsLock))
            && (c != t && c in s.conns && c in s'.conns && s'.conns[c] != s.conns[c] ==> Reads(th, WsLock))
  {
    ActOnClient(s, size, t, s.threads[t], ch, c);
  }

  lemma ActOnClient(s: State, size: int, t: Tid, th: Thread, ch: Choice, c: Tid)
    ensures var s' := Act(s, size, t, th, ch);
            && (c in s'.clients && c !in s.clients ==> th.WsIn?)
            && (c in s.clients && c !in s'.clients ==> th.WsByeIn? || th.StCast? || th.LgCast?)
            && (c != t && c in s.conns && c in s'.conns && s'.conns[c] != s.conns[c] ==> th.StCast? || th.LgCast?)
  {
  }
}
