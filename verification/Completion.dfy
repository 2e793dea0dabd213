/** Every handler of the dashboard completes: once no new one begins, a bounded number of steps is left, in
    whatever order the threads take them. */
module Completion {
  import opened BoundedLog
  import opened Dashboard
  import opened Locking

  /** The most steps that a thread still has, among clients many clients, devs many devices and cap log entries. */
  function Work(th: Thread, clients: nat, devs: nat, cap: nat): nat {
    match th
    case StWant(_, _, _) => clients + 6
    case StWait(_, _, _) => clients + 5
    case StIn(_, _, _) => clients + 4
    case StUpdated(_, _) => clients + 3
    case StCast(_, _, todo) => |todo| + 2
    case StLeave => 1
    case LgWant(_) => clients + 6
    case LgWait(_) => clients + 5
    case LgIn(_) => clients + 4
    case LgAdded(_) => clients + 3
    case LgCast(_, todo) => |todo| + 2
    case LgLeave => 1
    case WsWant => devs + cap + 13
    case WsWait => devs + cap + 12
    case WsIn => devs + cap + 11
    case WsOut => devs + cap + 10
    case WsSync => devs + cap + 9
    case WsStatus(rest) => |rest| + cap + 8
    case WsNext => cap + 7
    case WsLog(rest) => |rest| + 6
    case WsIdle => 5
    case WsBye => 4
    case WsByeWait => 3
    case WsByeIn => 2
    case WsByeOut => 1
    case PageWant(_) => 2
    case PageIn(_) => 1
    case Finished => 0
  }

  /** The work of the threads in ts. */
  ghost function Sum(threads: map<Tid, Thread>, ts: set<Tid>, clients: nat, devs: nat, cap: nat): nat
    requires ts <= threads.Keys
  {
    if ts == {} then 0
    else
      var t :| t in ts;
      Work(threads[t], clients, devs, cap) + Sum(threads, ts - {t}, clients, devs, cap)
  }

  lemma {:induction false} SumTakes(threads: map<Tid, Thread>, ts: set<Tid>, t: Tid, clients: nat, devs: nat, cap: nat)
    requires ts <= threads.Keys && t in ts
    ensures Sum(threads, ts, clients, devs, cap)
         == Work(threads[t], clients, devs, cap) + Sum(threads, ts - {t}, clients, devs, cap)
  {
    var u :| u in ts && Sum(threads, ts, clients, devs, cap)
                        == Work(threads[u], clients, devs, cap) + Sum(threads, ts - {u}, clients, devs, cap);
    if u != t {
      SumTakes(threads, ts - {u}, t, clients, devs, cap);
      SumTakes(threads, ts - {t}, u, clients, devs, cap);
      assert ts - {u} - {t} == ts - {t} - {u};
    }
  }

  lemma {:induction false} SumIgnores(threads: map<Tid, Thread>, threads': map<Tid, Thread>, ts: set<Tid>, clients: nat, devs: nat, cap: nat)
    requires ts <= threads.Keys && ts <= threads'.Keys && forall t :: t in ts ==> threads[t] == threads'[t]
    ensures Sum(threads, ts, clients, devs, cap) == Sum(threads', ts, clients, devs, cap)
  {
    if ts != {} {
      var t :| t in ts;
      SumTakes(threads, ts, t, clients, devs, cap);
      SumTakes(threads', ts, t, clients, devs, cap);
      SumIgnores(threads, threads', ts - {t}, clients, devs, cap);
    }
  }

  /** All steps left in a state, when no new thread begins. */
  ghost function StepsLeft(s: State, size: int): nat {
    Sum(s.threads, s.threads.Keys, |s.threads|, |s.devices|, Capacity(size))
  }

  /** What bounds the loops: each client has its thread, and the log its capacity. */
  ghost predicate Bounded(s: State, size: int) {
    LockInv(s) && s.clients <= s.threads.Keys && |s.mqttLog| <= Capacity(size)
  }

  lemma ActKeepsBounds(s: State, size: int, t: Tid, th: Thread, ch: Choice)
    requires |s.mqttLog| <= Capacity(size)
    ensures var s' := Act(s, size, t, th, ch);
            s'.clients <= s.clients + {t} && s'.devices.Keys == s.devices.Keys && |s'.mqttLog| <= Capacity(size)
  {
  }

  lemma BoundedStep(s: State, size: int, a: Action)
    requires Bounded(s, size) && Enabled(s, a)
    ensures Bounded(Do(s, size, a), size) && Do(s, size, a).devices.Keys == s.devices.Keys
  {
    LockInvStep(s, size, a);
    if a.Move? { ActKeepsBounds(s, size, a.t, s.threads[a.t], a.ch); }
  }

  lemma {:induction false} BoundedReachable(s0: State, size: int, acts: seq<Action>, s: State)
    requires Init(s0) && Reaches(s0, size, acts, s)
    ensures Bounded(s, size)
  {
    if acts == [] {
      LockInvReachable(s0, size, acts, s);
    } else {
      var last := |acts| - 1;
      var m :| Reaches(s0, size, acts[..last], m) && Enabled(m, acts[last]) && s == Do(m, size, acts[last]);
      BoundedReachable(s0, size, acts[..last], m);
      BoundedStep(m, size, acts[last]);
    }
  }

  lemma SubsetSize<T>(a: set<T>, b: set<T>)
    requires a <= b
    ensures |a| <= |b|
  {
    assert b == a + (b - a);
  }

  lemma OneFewer<T>(a: set<T>, x: T)
    requires x in a
    ensures |a - {x}| == |a| - 1
  {
  }

  lemma StatusCastWorkFalls(s: State, dev: Dev, status: Status, todo: set<Tid>, ch: Choice, n: nat, d: nat, cap: nat)
    requires todo != {} ==> ch.client in todo
    ensures Work(Advance(s, StCast(dev, status, todo), ch), n, d, cap) < Work(StCast(dev, status, todo), n, d, cap)
  {
    if todo != {} { OneFewer(todo, ch.client); }
  }

  lemma LogCastWorkFalls(s: State, entry: Entry, todo: set<Tid>, ch: Choice, n: nat, d: nat, cap: nat)
    requires todo != {} ==> ch.client in todo
    ensures Work(Advance(s, LgCast(entry, todo), ch), n, d, cap) < Work(LgCast(entry, todo), n, d, cap)
  {
    if todo != {} { OneFewer(todo, ch.client); }
  }

  lemma DumpWorkFalls(s: State, devs: set<Dev>, ch: Choice, n: nat, d: nat, cap: nat)
    requires devs != {} ==> ch.dev in devs
    ensures Work(Advance(s, WsStatus(devs), ch), n, d, cap) < Work(WsStatus(devs), n, d, cap)
  {
    if devs != {} { OneFewer(devs, ch.dev); }
  }

  lemma MessageWorkFalls(s: State, th: Thread, ch: Choice, n: nat, d: nat, cap: nat)
    requires |s.clients| <= n
    requires th.StWant? || th.StWait? || th.StIn? || th.StUpdated? || th.StLeave?
             || th.LgWant? || th.LgWait? || th.LgIn? || th.LgAdded? || th.LgLeave?
    ensures Work(Advance(s, th, ch), n, d, cap) < Work(th, n, d, cap)
  {
  }

  lemma SocketWorkFalls(s: State, th: Thread, ch: Choice, n: nat, d: nat, cap: nat)
    requires |s.devices.Keys| == d && |s.mqttLog| <= cap
    requires th.WsSync? || th.WsNext? || th.WsLog?
    ensures Work(Advance(s, th, ch), n, d, cap) < Work(th, n, d, cap)
  {
  }

  lemma PlainWorkFalls(s: State, th: Thread, ch: Choice, n: nat, d: nat, cap: nat)
    requires th.WsWant? || th.WsWait? || th.WsIn? || th.WsOut? || th.WsIdle? || th.WsBye? || th.WsByeWait?
             || th.WsByeIn? || th.WsByeOut? || th.PageWant? || th.PageIn?
    ensures Work(Advance(s, th, ch), n, d, cap) < Work(th, n, d, cap)
  {
  }

  /** A step costs its thread at least one of the steps it had. */
  lemma WorkFalls(s: State, th: Thread, ch: Choice, n: nat, d: nat, cap: nat)
    requires |s.clients| <= n && |s.devices.Keys| == d && |s.mqttLog| <= cap && th != Finished
    requires th.StCast? || th.LgCast? ==> th.todo != {} ==> ch.client in th.todo
    requires th.WsStatus? ==> th.devs != {} ==> ch.dev in th.devs
    ensures Work(Advance(s, th, ch), n, d, cap) < Work(th, n, d, cap)
  {
    match th
    case StCast(dev, status, todo) => StatusCastWorkFalls(s, dev, status, todo, ch, n, d, cap);
    case LgCast(entry, todo) => LogCastWorkFalls(s, entry, todo, ch, n, d, cap);
    case WsStatus(devs) => DumpWorkFalls(s, devs, ch, n, d, cap);
    case WsSync => SocketWorkFalls(s, th, ch, n, d, cap);
    case WsNext => SocketWorkFalls(s, th, ch, n, d, cap);
    case WsLog(_) => SocketWorkFalls(s, th, ch, n, d, cap);
    case _ =>
      if th.StWant? || th.StWait? || th.StIn? || th.StUpdated? || th.StLeave?
         || th.LgWant? || th.LgWait? || th.LgIn? || th.LgAdded? || th.LgLeave? {
        MessageWorkFalls(s, th, ch, n, d, cap);
      } else {
        PlainWorkFalls(s, th, ch, n, d, cap);
      }
  }

  lemma MoveCosts(s: State, size: int, t: Tid, ch: Choice)
    requires Bounded(s, size) && CanStep(s, t, ch)
    ensures StepsLeft(Next(s, size, t, ch), size) < StepsLeft(s, size)
  {
    var s', n, d, cap := Next(s, size, t, ch), |s.threads|, |s.devices|, Capacity(size);
    ActKeepsBounds(s, size, t, s.threads[t], ch);
    var ts := s.threads.Keys;
    SubsetSize(s.clients, ts);
    assert |s.devices.Keys| == d;
    WorkFalls(s, s.threads[t], ch, n, d, cap);
    assert s'.threads == s.threads[t := Advance(s, s.threads[t], ch)] && s'.threads.Keys == ts;
    assert |s'.threads| == |s'.threads.Keys| == n && |s'.devices| == |s'.devices.Keys| == |s.devices.Keys| == d;
    SumTakes(s.threads, ts, t, n, d, cap);
    SumTakes(s'.threads, ts, t, n, d, cap);
    SumIgnores(s.threads, s'.threads, ts - {t}, n, d, cap);
  }

  /** A run in which no thread begins. */
  predicate OnlyMoves(acts: seq<Action>) {
    forall i :: 0 <= i < |acts| ==> acts[i].Move?
  }

  lemma {:induction false} MovesAreBounded(s: State, size: int, acts: seq<Action>, s': State)
    requires Bounded(s, size) && OnlyMoves(acts) && Reaches(s, size, acts, s')
    ensures Bounded(s', size) && |acts| + StepsLeft(s', size) <= StepsLeft(s, size)
  {
    if acts != [] {
      var last := |acts| - 1;
      var m :| Reaches(s, size, acts[..last], m) && Enabled(m, acts[last]) && s' == Do(m, size, acts[last]);
      MovesAreBounded(s, size, acts[..last], m);
      BoundedStep(m, size, acts[last]);
      MoveCosts(m, size, acts[last].t, acts[last].ch);
    }
  }

  predicate AllDone(s: State) {
    forall t :: t in s.threads ==> !Busy(s.threads[t])
  }

  /** A run that cannot go on with work has none left. */
  lemma StuckIsDone(s: State, size: int)
    requires Bounded(s, size) && forall t :: !Ready(s, t)
    ensures AllDone(s)
  {
    if t :| t in s.threads && Busy(s.threads[t]) {
      SomeoneIsReady(s);
    }
  }

  /** From every reachable state, once no new thread begins: every run, in whatever order the threads step, has
      at most StepsLeft steps; as long as some handler is not through, some thread at work can step; and so a
      run that goes on while it can ends with every handler finished or waiting for its client to leave. */
  lemma HandlersComplete(s0: State, size: int, before: seq<Action>, s: State, acts: seq<Action>, s': State)
    requires Init(s0) && Reaches(s0, size, before, s)
    requires OnlyMoves(acts) && Reaches(s, size, acts, s')
    ensures |acts| + StepsLeft(s', size) <= StepsLeft(s, size)
    ensures AllDone(s') <==> forall t :: !Ready(s', t)
  {
    BoundedReachable(s0, size, before, s);
    MovesAreBounded(s, size, acts, s');
    if forall t :: !Ready(s', t) {
      StuckIsDone(s', size);
    }
  }
}
