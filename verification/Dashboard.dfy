/** The dashboard's shared state as a system of threads over three reader-writer locks. Any number of
    handlers run at once; each moves in single steps: announce, enter or leave a lock, or one action on the
    shared data or on one connection. A message handler that logs and then updates a status is two threads
    here, which allows more interleavings than it has. */
module Dashboard {
  import opened Wrappers
  import opened BoundedLog

  /** A thread; a websocket thread and its connection share the number. */
  type Tid = nat
  type Dev = string
  type Status = map<string, string>

  /** A status payload: not JSON, or a JSON object (its values are kept as text). */
  datatype Update = Raw(payload: string) | Object(fields: Status)

  function Merge(before: Status, update: Update, now: string): Status {
    (match update
     case Raw(payload) => before["value" := payload]
     case Object(fields) => fields)["lastUpdate" := now]
  }

  /** A JSON object replaces the status, other text becomes its value, and both are stamped with the time. */
  lemma MergeMeaning(before: Status, update: Update, now: string)
    ensures var after := Merge(before, update, now);
            && "lastUpdate" in after && after["lastUpdate"] == now
            && match update
               case Object(fields) =>
                 && after.Keys == fields.Keys + {"lastUpdate"}
                 && forall k :: k in fields && k != "lastUpdate" ==> after[k] == fields[k]
               case Raw(payload) =>
                 && after.Keys == before.Keys + {"value", "lastUpdate"} && after["value"] == payload
                 && forall k :: k in before && k != "value" && k != "lastUpdate" ==> after[k] == before[k]
  {
  }

  /** A message on a connection. Whether a log message is a live broadcast or part of the first dump is not
      on the wire; it is kept here to state what arrives when. */
  datatype Msg = StatusMsg(dev: Dev, status: Status) | LogMsg(entry: Entry, live: bool)

  /** A connection: the messages delivered, whether a write has failed, and marks of its history: how many
      entries had been handed to broadcasts and how many existed when it was registered, and how many existed
      when its log dump began. */
  datatype Conn = Conn(msgs: seq<Msg>, broken: bool, from: nat, joined: nat, dumped: nat)

  /** A write after a failed write fails too. */
  function Write(c: Conn, m: Msg, fails: bool): Conn {
    if c.broken || fails then c.(broken := true) else c.(msgs := c.msgs + [m])
  }

  /** A connection that works takes every message, and stops working only when a write fails. */
  lemma WriteMeaning(c: Conn, m: Msg, fails: bool)
    ensures !c.broken && !fails ==> Write(c, m, fails) == c.(msgs := c.msgs + [m])
    ensures c.broken || fails ==> Write(c, m, fails) == c.(broken := true)
  {
  }

  // ---------- threads ----------

  datatype Thread =
    // handleStatusUpdate and broadcastUpdate
    | StWant(dev: Dev, update: Update, now: string)
    | StWait(dev: Dev, update: Update, now: string)
    | StIn(dev: Dev, update: Update, now: string)
    | StUpdated(dev: Dev, status: Status)
    | StCast(dev: Dev, status: Status, todo: set<Tid>)
    | StLeave
    // addMQTTLogEntry and broadcastMQTTLog
    | LgWant(entry: Entry)
    | LgWait(entry: Entry)
    | LgIn(entry: Entry)
    | LgAdded(entry: Entry)
    | LgCast(entry: Entry, todo: set<Tid>)
    | LgLeave
    // handleWebSocket: register, dump, wait, unregister
    | WsWant | WsWait | WsIn | WsOut
    | WsSync
    | WsStatus(devs: set<Dev>)
    | WsNext
    | WsLog(rest: seq<Entry>)
    | WsIdle
    | WsBye | WsByeWait | WsByeIn | WsByeOut
    // handleStatus and handleMQTTLog
    | PageWant(page: LockName)
    | PageIn(page: LockName)
    | Finished

  datatype LockName = StatusLock | LogLock | WsLock

  /** A lock: the writer that announced itself or is inside, and the readers inside. A writer that has
      announced itself keeps new readers out. */
  datatype RW = RW(writer: Option<Tid>, readers: set<Tid>)

  datatype Locks = Locks(status: RW, log: RW, ws: RW) {
    function Get(l: LockName): RW {
      match l
      case StatusLock => status
      case LogLock => log
      case WsLock => ws
    }

    function With(l: LockName, rw: RW): Locks {
      match l
      case StatusLock => this.(status := rw)
      case LogLock => this.(log := rw)
      case WsLock => this.(ws := rw)
    }
  }

  datatype LockOp = NoLock | Announce(l: LockName) | Enter(l: LockName) | Leave(l: LockName)
                  | ReadLock(l: LockName) | ReadUnlock(l: LockName)

  /** The lock operation of a thread's next step. */
  function NextOp(th: Thread): LockOp {
    match th
    case StWant(_, _, _) => Announce(StatusLock)
    case StWait(_, _, _) => Enter(StatusLock)
    case StUpdated(_, _) => ReadLock(WsLock)
    case StCast(_, _, todo) => if todo == {} then ReadUnlock(WsLock) else NoLock
    case StLeave => Leave(StatusLock)
    case LgWant(_) => Announce(LogLock)
    case LgWait(_) => Enter(LogLock)
    case LgAdded(_) => ReadLock(WsLock)
    case LgCast(_, todo) => if todo == {} then ReadUnlock(WsLock) else NoLock
    case LgLeave => Leave(LogLock)
    case WsWant => Announce(WsLock)
    case WsWait => Enter(WsLock)
    case WsOut => Leave(WsLock)
    case WsSync => ReadLock(StatusLock)
    case WsStatus(devs) => if devs == {} then ReadUnlock(StatusLock) else NoLock
    case WsNext => ReadLock(LogLock)
    case WsLog(rest) => if rest == [] then ReadUnlock(LogLock) else NoLock
    case WsBye => Announce(WsLock)
    case WsByeWait => Enter(WsLock)
    case WsByeOut => Leave(WsLock)
    case PageWant(page) => ReadLock(page)
    case PageIn(page) => ReadUnlock(page)
    case _ => NoLock
  }

  predicate Allowed(rw: RW, op: LockOp) {
    match op
    case Announce(_) => rw.writer.None?
    case Enter(_) => rw.readers == {}
    case ReadLock(_) => rw.writer.None?
    case _ => true
  }

  function Operate(locks: Locks, op: LockOp, t: Tid): Locks {
    match op
    case NoLock => locks
    case Announce(l) => locks.With(l, locks.Get(l).(writer := Some(t)))
    case Enter(l) => locks
    case Leave(l) => locks.With(l, locks.Get(l).(writer := None))
    case ReadLock(l) => locks.With(l, locks.Get(l).(readers := locks.Get(l).readers + {t}))
    case ReadUnlock(l) => locks.With(l, locks.Get(l).(readers := locks.Get(l).readers - {t}))
  }

  // ---------- the shared state and its steps ----------

  /** history and casts are never read by the code: all entries ever added, the oldest first, and how many of
      them a broadcast has taken up. */
  datatype State = State(
    threads: map<Tid, Thread>, locks: Locks,
    devices: map<Dev, Status>, mqttLog: seq<Entry>, clients: set<Tid>, conns: map<Tid, Conn>,
    history: seq<Entry>, casts: nat)

  /** What a step leaves open: which client or device a loop takes next, and whether the write fails. */
  datatype Choice = Choice(client: Tid, dev: Dev, fails: bool)

  predicate CanStep(s: State, t: Tid, ch: Choice) {
    t in s.threads && s.threads[t] != Finished
    && (NextOp(s.threads[t]) != NoLock ==> Allowed(s.locks.Get(NextOp(s.threads[t]).l), NextOp(s.threads[t])))
    && match s.threads[t]
       case StCast(_, _, todo) => todo != {} ==> ch.client in todo
       case LgCast(_, todo) => todo != {} ==> ch.client in todo
       case WsStatus(devs) => devs != {} ==> ch.dev in devs
       case _ => true
  }

  function Advance(s: State, th: Thread, ch: Choice): Thread {
    match th
    case StWant(dev, update, now) => StWait(dev, update, now)
    case StWait(dev, update, now) => StIn(dev, update, now)
    case StIn(dev, update, now) =>
      if dev in s.devices then StUpdated(dev, Merge(s.devices[dev], update, now)) else StLeave
    case StUpdated(dev, status) => StCast(dev, status, s.clients)
    case StCast(dev, status, todo) => if todo == {} then StLeave else StCast(dev, status, todo - {ch.client})
    case StLeave => Finished
    case LgWant(entry) => LgWait(entry)
    case LgWait(entry) => LgIn(entry)
    case LgIn(entry) => LgAdded(entry)
    case LgAdded(entry) => LgCast(entry, s.clients)
    case LgCast(entry, todo) => if todo == {} then LgLeave else LgCast(entry, todo - {ch.client})
    case LgLeave => Finished
    case WsWant => WsWait
    case WsWait => WsIn
    case WsIn => WsOut
    case WsOut => WsSync
    case WsSync => WsStatus(s.devices.Keys)
    case WsStatus(devs) => if devs == {} then WsNext else WsStatus(devs - {ch.dev})
    case WsNext => WsLog(s.mqttLog)
    case WsLog(rest) => if rest == [] then WsIdle else WsLog(rest[1..])
    case WsIdle => WsBye
    case WsBye => WsByeWait
    case WsByeWait => WsByeIn
    case WsByeIn => WsByeOut
    case WsByeOut => Finished
    case PageWant(page) => PageIn(page)
    case PageIn(_) => Finished
    case Finished => Finished
  }

  /** One iteration of a broadcast: a client removed meanwhile is not visited, and one whose write fails is
      closed and removed. */
  function Deliver(s: State, c: Tid, m: Msg, fails: bool): State {
    if c !in s.clients || c !in s.conns then s
    else
      var after := Write(s.conns[c], m, fails);
      s.(conns := s.conns[c := after], clients := if after.broken then s.clients - {c} else s.clients)
  }

  /** One write of the first dump: its error is ignored. */
  function Dump(s: State, t: Tid, m: Msg, fails: bool): State {
    if t in s.conns then s.(conns := s.conns[t := Write(s.conns[t], m, fails)]) else s
  }

  /** The effect of thread t's step on the shared data. */
  function Act(s: State, size: int, t: Tid, th: Thread, ch: Choice): State {
    match th
    case StIn(dev, update, now) =>
      if dev in s.devices then s.(devices := s.devices[dev := Merge(s.devices[dev], update, now)]) else s
    case StCast(dev, status, todo) => if todo == {} then s else Deliver(s, ch.client, StatusMsg(dev, status), ch.fails)
    case LgIn(entry) => s.(mqttLog := Push(s.mqttLog, entry, size), history := s.history + [entry])
    case LgAdded(entry) => s.(casts := s.casts + 1)
    case LgCast(entry, todo) => if todo == {} then s else Deliver(s, ch.client, LogMsg(entry, true), ch.fails)
    case WsIn => s.(clients := s.clients + {t}, conns := s.conns[t := Conn([], false, s.casts, |s.history|, 0)])
    case WsStatus(devs) =>
      if devs == {} || ch.dev !in s.devices then s else Dump(s, t, StatusMsg(ch.dev, s.devices[ch.dev]), ch.fails)
    case WsNext => if t in s.conns then s.(conns := s.conns[t := s.conns[t].(dumped := |s.history|)]) else s
    case WsLog(rest) => if rest == [] then s else Dump(s, t, LogMsg(rest[0], false), ch.fails)
    case WsByeIn => s.(clients := s.clients - {t})
    case _ => s
  }

  function Next(s: State, size: int, t: Tid, ch: Choice): State
    requires t in s.threads
  {
    var th := s.threads[t];
    Act(s, size, t, th, ch).(threads := s.threads[t := Advance(s, th, ch)], locks := Operate(s.locks, NextOp(th), t))
  }

  /** A client is removed only by its own thread, when it leaves, or by a broadcast that reaches it and cannot
      write to it; and a connection breaks only by a failed write. */
  lemma ClientsLeave(s: State, size: int, t: Tid, ch: Choice, c: Tid)
    requires CanStep(s, t, ch) && c in s.conns
    ensures var s', th := Next(s, size, t, ch), s.threads[t];
            var visited := (th.StCast? || th.LgCast?) && th.todo != {} && ch.client == c;
            && c in s'.conns
            && (c in s.clients && c !in s'.clients ==>
                  (t == c && th.WsByeIn?) || (visited && (ch.fails || s.conns[c].broken)))
            && (s'.conns[c].broken && !s.conns[c].broken ==> ch.fails)
  {
  }

  /** Where a handler begins. */
  predicate Begins(th: Thread) {
    th.StWant? || th.LgWant? || th.WsWant? || (th.PageWant? && th.page != WsLock)
  }

  datatype Action = Spawn(t: Tid, th: Thread) | Move(t: Tid, ch: Choice)

  predicate Enabled(s: State, a: Action) {
    match a
    case Spawn(t, th) => t !in s.threads && Begins(th)
    case Move(t, ch) => CanStep(s, t, ch)
  }

  function Do(s: State, size: int, a: Action): State
    requires Enabled(s, a)
  {
    match a
    case Spawn(t, th) => s.(threads := s.threads[t := th])
    case Move(t, ch) => Next(s, size, t, ch)
  }

  const FREE := RW(None, {})

  /** When the server starts to serve: devices initialised, nothing logged, no client. */
  predicate Init(s: State) {
    s.threads == map[] && s.locks == Locks(FREE, FREE, FREE)
    && s.mqttLog == [] && s.clients == {} && s.conns == map[] && s.history == [] && s.casts == 0
  }

  ghost predicate Reaches(s0: State, size: int, acts: seq<Action>, s: State) {
    if acts == [] then s == s0
    else
      var last := |acts| - 1;
      exists m :: Reaches(s0, size, acts[..last], m) && Enabled(m, acts[last]) && s == Do(m, size, acts[last])
  }
}
