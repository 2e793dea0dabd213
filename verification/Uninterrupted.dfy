/** A message handler that runs without interruption: the steps of its thread add up to what the method of the
    server does. */
module Uninterrupted {
  import opened Wrappers
  import opened BoundedLog
  import opened Dashboard
  import opened Locking
  import opened Replicas
  import opened Completion
  import opened App

  function SharedOf(s: State): Shared {
    Shared(s.devices, s.mqttLog, s.clients, s.conns)
  }

  /** Only thread t moves, and its writes fail on the given connections. */
  predicate Alone(acts: seq<Action>, t: Tid, fails: set<Tid>) {
    forall i :: 0 <= i < |acts| ==> acts[i].Move? && acts[i].t == t && (acts[i].ch.fails <==> acts[i].ch.client in fails)
  }

  // ---------- the loop of a broadcast ----------

  /** A broadcast with todo still to come. */
  function Telling(sh: Shared, m: Msg, todo: set<Tid>, fails: set<Tid>): Shared {
    sh.(conns := AllTold(sh.conns, sh.clients - todo, m, fails),
        clients := todo + Sound(sh.conns, sh.clients - todo, fails))
  }

  lemma TellingBegins(sh: Shared, m: Msg, fails: set<Tid>)
    ensures Telling(sh, m, sh.clients, fails) == sh
  {
    TellNobody(sh.conns, m, fails);
    assert sh.clients - sh.clients == {} && sh.clients + {} == sh.clients;
  }

  lemma TellingEnds(sh: Shared, m: Msg, fails: set<Tid>)
    ensures Telling(sh, m, {}, fails) == Told(sh, m, fails)
  {
    assert sh.clients - {} == sh.clients;
  }

  lemma TellingGoesOn(s: State, sh: Shared, m: Msg, todo: set<Tid>, c: Tid, fails: set<Tid>)
    requires c in todo && todo <= sh.clients <= sh.conns.Keys && SharedOf(s) == Telling(sh, m, todo, fails)
    ensures SharedOf(Deliver(s, c, m, c in fails)) == Telling(sh, m, todo - {c}, fails)
  {
    TellOneMore(sh.conns, sh.clients, todo, c, m, fails);
    var after := Write(s.conns[c], m, c in fails);
    assert !after.broken ==> s.clients - {} == s.clients;
  }

  // ---------- a status update ----------

  /** How far thread th is with an update that found sh. */
  ghost predicate UpdateAt(sh: Shared, dev: Dev, update: Update, now: string, fails: set<Tid>, th: Thread, sh': Shared) {
    match th
    case StWant(_, _, _) => th == StWant(dev, update, now) && sh' == sh
    case StWait(_, _, _) => th == StWait(dev, update, now) && sh' == sh
    case StIn(_, _, _) => th == StIn(dev, update, now) && sh' == sh
    case StUpdated(_, status) => th.dev == dev && dev in sh.devices && status == Merge(sh.devices[dev], update, now)
                                 && sh' == sh.(devices := sh.devices[dev := status])
    case StCast(_, status, todo) => th.dev == dev && dev in sh.devices && status == Merge(sh.devices[dev], update, now)
                                    && todo <= sh.clients
                                    && sh' == Telling(sh.(devices := sh.devices[dev := status]), StatusMsg(dev, status), todo, fails)
    case StLeave => sh' == Updated(sh, dev, update, now, fails)
    case Finished => sh' == Updated(sh, dev, update, now, fails)
    case _ => false
  }

  lemma UpdateStep(sh: Shared, dev: Dev, update: Update, now: string, fails: set<Tid>, s: State, size: int, t: Tid, ch: Choice)
    requires CanStep(s, t, ch) && sh.clients <= sh.conns.Keys && (ch.fails <==> ch.client in fails)
    requires UpdateAt(sh, dev, update, now, fails, s.threads[t], SharedOf(s))
    ensures var s' := Next(s, size, t, ch); UpdateAt(sh, dev, update, now, fails, s'.threads[t], SharedOf(s'))
  {
    match s.threads[t]
    case StUpdated(_, status) => TellingBegins(sh.(devices := sh.devices[dev := status]), StatusMsg(dev, status), fails);
    case StCast(_, status, todo) =>
      var found, m := sh.(devices := sh.devices[dev := status]), StatusMsg(dev, status);
      if todo == {} {
        TellingEnds(found, m, fails);
      } else {
        TellingGoesOn(s, found, m, todo, ch.client, fails);
      }
    case _ =>
  }

  lemma {:induction false} UpdateRun(sh: Shared, dev: Dev, update: Update, now: string, fails: set<Tid>,
                                     s: State, size: int, t: Tid, acts: seq<Action>, s': State)
    requires t in s.threads && s.threads[t] == StWant(dev, update, now) && sh == SharedOf(s) && sh.clients <= sh.conns.Keys
    requires Alone(acts, t, fails) && Reaches(s, size, acts, s')
    ensures t in s'.threads && UpdateAt(sh, dev, update, now, fails, s'.threads[t], SharedOf(s'))
  {
    if acts != [] {
      var last := |acts| - 1;
      var m :| Reaches(s, size, acts[..last], m) && Enabled(m, acts[last]) && s' == Do(m, size, acts[last]);
      UpdateRun(sh, dev, update, now, fails, s, size, t, acts[..last], m);
      UpdateStep(sh, dev, update, now, fails, m, size, t, acts[last].ch);
    }
  }

  // ---------- a log entry ----------

  ghost predicate LoggingAt(sh: Shared, size: int, entry: Entry, fails: set<Tid>, th: Thread, sh': Shared) {
    var pushed := sh.(mqttLog := Push(sh.mqttLog, entry, size));
    match th
    case LgWant(_) => th.entry == entry && sh' == sh
    case LgWait(_) => th.entry == entry && sh' == sh
    case LgIn(_) => th.entry == entry && sh' == sh
    case LgAdded(_) => th.entry == entry && sh' == pushed
    case LgCast(_, todo) => th.entry == entry && todo <= sh.clients && sh' == Telling(pushed, LogMsg(entry, true), todo, fails)
    case LgLeave => sh' == Logged(sh, entry, size, fails)
    case Finished => sh' == Logged(sh, entry, size, fails)
    case _ => false
  }

  lemma LoggingStep(sh: Shared, size: int, entry: Entry, fails: set<Tid>, s: State, t: Tid, ch: Choice)
    requires CanStep(s, t, ch) && sh.clients <= sh.conns.Keys && (ch.fails <==> ch.client in fails)
    requires LoggingAt(sh, size, entry, fails, s.threads[t], SharedOf(s))
    ensures var s' := Next(s, size, t, ch); LoggingAt(sh, size, entry, fails, s'.threads[t], SharedOf(s'))
  {
    var pushed, m := sh.(mqttLog := Push(sh.mqttLog, entry, size)), LogMsg(entry, true);
    match s.threads[t]
    case LgAdded(_) => TellingBegins(pushed, m, fails);
    case LgCast(_, todo) =>
      if todo == {} {
        TellingEnds(pushed, m, fails);
      } else {
        TellingGoesOn(s, pushed, m, todo, ch.client, fails);
      }
    case _ =>
  }

  lemma {:induction false} LoggingRun(sh: Shared, size: int, entry: Entry, fails: set<Tid>,
                                      s: State, t: Tid, acts: seq<Action>, s': State)
    requires t in s.threads && s.threads[t] == LgWant(entry) && sh == SharedOf(s) && sh.clients <= sh.conns.Keys
    requires Alone(acts, t, fails) && Reaches(s, size, acts, s')
    ensures t in s'.threads && LoggingAt(sh, size, entry, fails, s'.threads[t], SharedOf(s'))
  {
    if acts != [] {
      var last := |acts| - 1;
      var m :| Reaches(s, size, acts[..last], m) && Enabled(m, acts[last]) && s' == Do(m, size, acts[last]);
      LoggingRun(sh, size, entry, fails, s, t, acts[..last], m);
      LoggingStep(sh, size, entry, fails, m, t, acts[last].ch);
    }
  }

  // ---------- the steps and the methods ----------

  lemma ClientsConnected(s0: State, size: int, before: seq<Action>, s: State)
    requires Init(s0) && Reaches(s0, size, before, s)
    ensures s.clients <= s.conns.Keys
  {
    ReplicaInvReachable(s0, size, before, s);
  }

  /** From every reachable state: when the thread of a status update has run alone to its end, visiting the clients
      in whatever order, the shared data is as App.Server.HandleStatusUpdate leaves it. */
  lemma UpdateAlone(s0: State, size: int, before: seq<Action>, s: State, t: Tid, acts: seq<Action>, s': State,
                    dev: Dev, update: Update, now: string, fails: set<Tid>)
    requires Init(s0) && Reaches(s0, size, before, s)
    requires t in s.threads && s.threads[t] == StWant(dev, update, now)
    requires Alone(acts, t, fails) && Reaches(s, size, acts, s') && t in s'.threads && s'.threads[t] == Finished
    ensures SharedOf(s') == Updated(SharedOf(s), dev, update, now, fails)
  {
    ClientsConnected(s0, size, before, s);
    UpdateRun(SharedOf(s), dev, update, now, fails, s, size, t, acts, s');
  }

  /** The same for the thread of a log entry and App.Server.AddMQTTLogEntry. */
  lemma LoggingAlone(s0: State, size: int, before: seq<Action>, s: State, t: Tid, acts: seq<Action>, s': State,
                     entry: Entry, fails: set<Tid>)
    requires Init(s0) && Reaches(s0, size, before, s)
    requires t in s.threads && s.threads[t] == LgWant(entry)
    requires Alone(acts, t, fails) && Reaches(s, size, acts, s') && t in s'.threads && s'.threads[t] == Finished
    ensures SharedOf(s') == Logged(SharedOf(s), entry, size, fails)
  {
    ClientsConnected(s0, size, before, s);
    LoggingRun(SharedOf(s), size, entry, fails, s, t, acts, s');
  }

  // ---------- such runs exist ----------

  ghost predicate OthersRest(s: State, t: Tid) {
    forall u :: u in s.threads && u != t ==> !Busy(s.threads[u])
  }

  lemma NextAlone(m: State, t: Tid, fails: set<Tid>) returns (ch: Choice)
    requires LockInv(m) && t in m.threads && OthersRest(m, t) && Busy(m.threads[t])
    ensures CanStep(m, t, ch) && (ch.fails <==> ch.client in fails)
  {
    SomeoneIsReady(m);
    var u :| Ready(m, u);
    assert u == t;
    ch :| CanStep(m, t, ch);
    ch := ch.(fails := ch.client in fails);
  }

  lemma RestStays(m: State, size: int, t: Tid, ch: Choice)
    requires OthersRest(m, t) && CanStep(m, t, ch)
    ensures OthersRest(Next(m, size, t, ch), t)
  {
  }

  lemma {:induction false} GoOnAlone(s: State, size: int, t: Tid, fails: set<Tid>, acts: seq<Action>, m: State)
    returns (acts': seq<Action>, s': State)
    requires Reaches(s, size, acts, m) && Alone(acts, t, fails) && Bounded(m, size) && t in m.threads && OthersRest(m, t)
    ensures Reaches(s, size, acts', s') && Alone(acts', t, fails) && t in s'.threads && !Busy(s'.threads[t])
    decreases StepsLeft(m, size)
  {
    if Busy(m.threads[t]) {
      var ch := NextAlone(m, t, fails);
      var a := Move(t, ch);
      BoundedStep(m, size, a);
      MoveCosts(m, size, t, ch);
      assert (acts + [a])[..|acts|] == acts;
      RestStays(m, size, t, ch);
      acts', s' := GoOnAlone(s, size, t, fails, acts + [a], Do(m, size, a));
    } else {
      acts', s' := acts, m;
    }
  }

  /** From every reachable state in which no other thread is at work, thread t can run alone until it is done,
      whichever writes fail. */
  lemma CanFinishAlone(s0: State, size: int, before: seq<Action>, s: State, t: Tid, fails: set<Tid>)
    returns (acts: seq<Action>, s': State)
    requires Init(s0) && Reaches(s0, size, before, s) && t in s.threads && OthersRest(s, t)
    ensures Alone(acts, t, fails) && Reaches(s, size, acts, s') && t in s'.threads && !Busy(s'.threads[t])
  {
    BoundedReachable(s0, size, before, s);
    acts, s' := GoOnAlone(s, size, t, fails, [], s);
  }
}
