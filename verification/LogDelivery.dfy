/** The MQTT log reaches every connected client without a gap, because a client is registered before its log
    snapshot is taken. */
module LogDelivery {
  import opened Wrappers
  import opened BoundedLog
  import opened Dashboard
  import opened Locking
  import opened Replicas

  /** The log broadcasts among the messages, and the entries of the first dump, in order of arrival. */
  function Feed(msgs: seq<Msg>): seq<Entry> {
    if msgs == [] then []
    else
      var m := msgs[|msgs| - 1];
      Feed(msgs[..|msgs| - 1]) + if m.LogMsg? && m.live then [m.entry] else []
  }

  function Dumped(msgs: seq<Msg>): seq<Entry> {
    if msgs == [] then []
    else
      var m := msgs[|msgs| - 1];
      Dumped(msgs[..|msgs| - 1]) + if m.LogMsg? && !m.live then [m.entry] else []
  }

  lemma FeedSnoc(msgs: seq<Msg>, m: Msg)
    ensures Feed(msgs + [m]) == Feed(msgs) + if m.LogMsg? && m.live then [m.entry] else []
    ensures Dumped(msgs + [m]) == Dumped(msgs) + if m.LogMsg? && !m.live then [m.entry] else []
  {
    assert (msgs + [m])[..|msgs|] == msgs;
  }

  /** An entry is in the log but no broadcast has taken it up. */
  ghost predicate Adding(s: State) {
    exists u :: u in s.threads && s.threads[u].LgAdded?
  }

  /** The broadcast in progress has still to reach client c. */
  ghost predicate Pending(s: State, c: Tid) {
    exists u :: u in s.threads && s.threads[u].LgCast? && c in s.threads[u].todo
  }

  /** How many entries have been broadcast as far as client c is concerned. */
  ghost function Sent(s: State, c: Tid): int {
    if Pending(s, c) then s.casts - 1 else s.casts
  }

  ghost predicate LogInv(s: State, size: int) {
    && s.mqttLog == Newest(s.history, Capacity(size))
    && s.casts == (if Adding(s) then |s.history| - 1 else |s.history|)
    && forall u :: u in s.threads && (s.threads[u].LgAdded? || s.threads[u].LgCast?) ==>
         s.history != [] && s.threads[u].entry == s.history[|s.history| - 1]
  }

  /** A client has received exactly the broadcasts since its registration, which began with the first entry
      added after it, or the one just before. */
  ghost predicate Fed(k: Conn, history: seq<Entry>, sent: int) {
    && k.from <= k.joined <= k.from + 1 && k.joined <= |history|
    && k.from <= sent <= |history|
    && Feed(k.msgs) == history[k.from..sent]
  }

  predicate AfterLogDump(th: Thread) {
    th.WsIdle? || th.WsBye? || th.WsByeWait? || th.WsByeIn?
  }

  predicate BeforeLogDump(th: Thread) {
    th.WsOut? || th.WsSync? || th.WsStatus? || th.WsNext?
  }

  /** The first dump is the log as it stood when the dump began; part of it may still be to come. */
  ghost predicate DumpInv(th: Thread, k: Conn, history: seq<Entry>, cap: nat) {
    && (BeforeLogDump(th) ==> Dumped(k.msgs) == [])
    && (th.WsLog? || AfterLogDump(th) ==>
          && k.joined <= k.dumped <= |history|
          && Dumped(k.msgs) + (if th.WsLog? then th.rest else []) == Newest(history[..k.dumped], cap))
  }

  ghost predicate ClientInv(s: State, size: int, c: Tid)
    requires c in s.conns && c in s.threads
  {
    Fed(s.conns[c], s.history, Sent(s, c)) && DumpInv(s.threads[c], s.conns[c], s.history, Capacity(size))
  }

  ghost predicate DeliveryInv(s: State, size: int) {
    && LockInv(s) && ClientsJoined(s) && LogInv(s, size)
    && forall c :: c in s.clients && !s.conns[c].broken ==> ClientInv(s, size, c)
  }

  // ---------- what a step does to the log, and to one connection ----------

  /** The effect of thread t's step on the log and the threads. */
  predicate LogEffect(s: State, size: int, t: Tid, ch: Choice, s': State) {
    t in s.threads && var th := s.threads[t];
    && s'.threads == s.threads[t := Advance(s, th, ch)]
    && s'.history == (if th.LgIn? then s.history + [th.entry] else s.history)
    && s'.mqttLog == (if th.LgIn? then Push(s.mqttLog, th.entry, size) else s.mqttLog)
    && s'.casts == (if th.LgAdded? then s.casts + 1 else s.casts)
  }

  lemma StepOnLog(s: State, size: int, t: Tid, ch: Choice)
    requires CanStep(s, t, ch)
    ensures LogEffect(s, size, t, ch, Next(s, size, t, ch))
  {
  }

  /** A broadcast of a log entry visits client c. */
  predicate Visits(th: Thread, ch: Choice, c: Tid) {
    th.LgCast? && th.todo != {} && ch.client == c
  }

  /** The effect of thread t's step on the connection of client c, as far as the log goes. */
  predicate ConnEffect(s: State, t: Tid, ch: Choice, c: Tid, k: Conn, k': Conn) {
    t in s.threads && var th := s.threads[t];
    && k'.from == k.from && k'.joined == k.joined
    && Feed(k'.msgs) == Feed(k.msgs) + (if Visits(th, ch, c) then [th.entry] else [])
    && Dumped(k'.msgs) == Dumped(k.msgs) + (if th.WsLog? && th.rest != [] && t == c then [th.rest[0]] else [])
    && k'.dumped == if th.WsNext? && t == c then |s.history| else k.dumped
  }

  /** A successful write adds one message. */
  lemma WriteAdds(k: Conn, m: Msg, fails: bool)
    requires !Write(k, m, fails).broken
    ensures !k.broken && Write(k, m, fails) == k.(msgs := k.msgs + [m])
    ensures Feed(Write(k, m, fails).msgs) == Feed(k.msgs) + if m.LogMsg? && m.live then [m.entry] else []
    ensures Dumped(Write(k, m, fails).msgs) == Dumped(k.msgs) + if m.LogMsg? && !m.live then [m.entry] else []
  {
    FeedSnoc(k.msgs, m);
  }

  /** A broadcast's iteration for client c0, seen by a client c that stays registered and sound. */
  lemma DeliverOnConn(s: State, c0: Tid, m: Msg, fails: bool, c: Tid)
    requires c in s.conns
    requires var s' := Deliver(s, c0, m, fails); c in s'.clients && !s'.conns[c].broken
    ensures var k, k', told := s.conns[c], Deliver(s, c0, m, fails).conns[c], c == c0;
            && c in s.clients && !k.broken && k'.from == k.from && k'.joined == k.joined && k'.dumped == k.dumped
            && Feed(k'.msgs) == Feed(k.msgs) + (if told && m.LogMsg? && m.live then [m.entry] else [])
            && Dumped(k'.msgs) == Dumped(k.msgs) + (if told && m.LogMsg? && !m.live then [m.entry] else [])
  {
    if c == c0 { WriteAdds(s.conns[c], m, fails); }
  }

  lemma DumpOnConn(s: State, t: Tid, m: Msg, fails: bool, c: Tid)
    requires c in s.conns && t in s.conns
    requires !Dump(s, t, m, fails).conns[c].broken
    ensures var k, k', told := s.conns[c], Dump(s, t, m, fails).conns[c], c == t;
            && !k.broken && k'.from == k.from && k'.joined == k.joined && k'.dumped == k.dumped
            && Feed(k'.msgs) == Feed(k.msgs) + (if told && m.LogMsg? && m.live then [m.entry] else [])
            && Dumped(k'.msgs) == Dumped(k.msgs) + (if told && m.LogMsg? && !m.live then [m.entry] else [])
  {
    if c == t { WriteAdds(s.conns[c], m, fails); }
  }

  lemma CastOnConn(s: State, size: int, t: Tid, th: Thread, ch: Choice, c: Tid)
    requires t in s.threads && s.threads[t] == th && c in s.conns && (th.StCast? || th.LgCast?)
    requires var s' := Act(s, size, t, th, ch); c in s'.clients && c in s'.conns && !s'.conns[c].broken
    ensures c in s.clients && !s.conns[c].broken && ConnEffect(s, t, ch, c, s.conns[c], Act(s, size, t, th, ch).conns[c])
  {
    if th.todo != {} {
      var m := if th.StCast? then StatusMsg(th.dev, th.status) else LogMsg(th.entry, true);
      DeliverOnConn(s, ch.client, m, ch.fails, c);
    }
  }

  lemma StatusDumpOnConn(s: State, size: int, t: Tid, th: Thread, ch: Choice, c: Tid)
    requires t in s.threads && s.threads[t] == th && c in s.conns && t in s.conns && th.WsStatus?
    requires var s' := Act(s, size, t, th, ch); c in s'.clients && c in s'.conns && !s'.conns[c].broken
    ensures c in s.clients && !s.conns[c].broken && ConnEffect(s, t, ch, c, s.conns[c], Act(s, size, t, th, ch).conns[c])
  {
    if th.devs != {} && ch.dev in s.devices {
      var m := StatusMsg(ch.dev, s.devices[ch.dev]);
      assert Act(s, size, t, th, ch) == Dump(s, t, m, ch.fails);
      DumpOnConn(s, t, m, ch.fails, c);
    } else {
      assert Act(s, size, t, th, ch) == s;
    }
  }

  lemma LogDumpOnConn(s: State, size: int, t: Tid, th: Thread, ch: Choice, c: Tid)
    requires t in s.threads && s.threads[t] == th && c in s.conns && t in s.conns && th.WsLog?
    requires var s' := Act(s, size, t, th, ch); c in s'.clients && c in s'.conns && !s'.conns[c].broken
    ensures c in s.clients && !s.conns[c].broken && ConnEffect(s, t, ch, c, s.conns[c], Act(s, size, t, th, ch).conns[c])
  {
    if th.rest != [] {
      assert Act(s, size, t, th, ch) == Dump(s, t, LogMsg(th.rest[0], false), ch.fails);
      DumpOnConn(s, t, LogMsg(th.rest[0], false), ch.fails, c);
    } else {
      assert Act(s, size, t, th, ch) == s;
    }
  }

  lemma ActOnConn(s: State, size: int, t: Tid, th: Thread, ch: Choice, c: Tid)
    requires t in s.threads && s.threads[t] == th && c in s.conns && !(c == t && th.WsIn?)
    requires th.WsStatus? || th.WsLog? ==> t in s.conns
    requires var s' := Act(s, size, t, th, ch); c in s'.clients && c in s'.conns && !s'.conns[c].broken
    ensures c in s.clients && !s.conns[c].broken && ConnEffect(s, t, ch, c, s.conns[c], Act(s, size, t, th, ch).conns[c])
  {
    if th.StCast? || th.LgCast? {
      CastOnConn(s, size, t, th, ch, c);
    } else if th.WsStatus? {
      StatusDumpOnConn(s, size, t, th, ch, c);
    } else if th.WsLog? {
      LogDumpOnConn(s, size, t, th, ch, c);
    } else {
      var k, k' := s.conns[c], Act(s, size, t, th, ch).conns[c];
      assert k'.msgs == k.msgs;
    }
  }

  /** A client that stays registered and sound was so before. */
  lemma StepOnConn(s: State, size: int, t: Tid, ch: Choice, c: Tid)
    requires ClientsJoined(s) && CanStep(s, t, ch) && !(c == t && s.threads[t].WsIn?)
    requires var s' := Next(s, size, t, ch); c in s'.clients && c in s'.conns && !s'.conns[c].broken
    ensures c in s.clients && c in s.conns && !s.conns[c].broken
    ensures ConnEffect(s, t, ch, c, s.conns[c], Next(s, size, t, ch).conns[c])
  {
    ClientBefore(s, size, t, s.threads[t], ch, c);
    ActOnConn(s, size, t, s.threads[t], ch, c);
  }

  /** Clients join only through their own thread. */
  lemma ClientBefore(s: State, size: int, t: Tid, th: Thread, ch: Choice, c: Tid)
    requires c in Act(s, size, t, th, ch).clients && !(c == t && th.WsIn?)
    ensures c in s.clients
  {
  }

  // ---------- the log and the broadcasts ----------

  /** Two threads never write the log at once. */
  lemma OneLogWriter(s: State, t: Tid, u: Tid)
    requires LockInv(s) && t in s.threads && u in s.threads
    requires Owns(s.threads[t], LogLock) && Owns(s.threads[u], LogLock)
    ensures t == u
  {
    assert LockInvFor(s.threads, s.locks.Get(LogLock), LogLock);
  }

  /** While a log writer is at work nobody else adds or broadcasts an entry. */
  lemma LogWriterAlone(s: State, t: Tid)
    requires LockInv(s) && t in s.threads && Owns(s.threads[t], LogLock)
    ensures forall u :: u in s.threads && u != t ==> !s.threads[u].LgAdded? && !s.threads[u].LgCast?
    ensures Adding(s) <==> s.threads[t].LgAdded?
    ensures forall c :: Pending(s, c) <==> s.threads[t].LgCast? && c in s.threads[t].todo
  {
    forall u | u in s.threads && u != t ensures !s.threads[u].LgAdded? && !s.threads[u].LgCast? {
      if Owns(s.threads[u], LogLock) { OneLogWriter(s, t, u); }
    }
  }

  /** The same after its step, which may have ended its work. */
  lemma LogWriterAloneAfter(s: State, size: int, t: Tid, ch: Choice, s': State)
    requires LockInv(s) && LogEffect(s, size, t, ch, s') && Owns(s.threads[t], LogLock)
    ensures forall u :: u in s'.threads && u != t ==> !s'.threads[u].LgAdded? && !s'.threads[u].LgCast?
    ensures Adding(s') <==> s'.threads[t].LgAdded?
    ensures forall c :: Pending(s', c) <==> s'.threads[t].LgCast? && c in s'.threads[t].todo
  {
    LogWriterAlone(s, t);
    assert forall u :: u in s'.threads && u != t ==> u in s.threads && s'.threads[u] == s.threads[u];
  }

  /** A step of a thread that is not writing the log leaves the log's state alone. */
  lemma OthersLeaveLog(s: State, size: int, t: Tid, ch: Choice, s': State)
    requires LogEffect(s, size, t, ch, s') && !Owns(s.threads[t], LogLock)
    ensures s'.history == s.history && s'.mqttLog == s.mqttLog && s'.casts == s.casts
    ensures forall u :: u in s'.threads && (s'.threads[u].LgAdded? || s'.threads[u].LgCast?) ==>
              u in s.threads && s'.threads[u] == s.threads[u]
    ensures Adding(s') <==> Adding(s)
    ensures forall c :: Pending(s', c) <==> Pending(s, c)
  {
    assert !s'.threads[t].LgAdded? && !s'.threads[t].LgCast?;
    assert forall u :: u != t && u in s.threads ==> u in s'.threads && s'.threads[u] == s.threads[u];
    forall c ensures Pending(s', c) <==> Pending(s, c) {
      if Pending(s, c) {
        var u :| u in s.threads && s.threads[u].LgCast? && c in s.threads[u].todo;
        assert s'.threads[u].LgCast?;
      }
    }
    if Adding(s) {
      var u :| u in s.threads && s.threads[u].LgAdded?;
      assert s'.threads[u].LgAdded?;
    }
  }

  lemma LogInvStep(s: State, size: int, t: Tid, ch: Choice, s': State)
    requires LockInv(s) && LogInv(s, size) && LogEffect(s, size, t, ch, s')
    ensures LogInv(s', size)
  {
    var th := s.threads[t];
    if Owns(th, LogLock) {
      LogWriterAlone(s, t);
      LogWriterAloneAfter(s, size, t, ch, s');
      PushRefines(s.history, if th.LgIn? then th.entry else Entry("", "", ""), size);
    } else {
      OthersLeaveLog(s, size, t, ch, s');
    }
  }

  /** A client's share of the broadcasts grows exactly when a broadcast visits it. */
  lemma SentStep(s: State, size: int, t: Tid, ch: Choice, c: Tid, s': State)
    requires LockInv(s) && CanStep(s, t, ch) && LogEffect(s, size, t, ch, s') && c in s.clients
    ensures Sent(s', c) == if Visits(s.threads[t], ch, c) then Sent(s, c) + 1 else Sent(s, c)
    ensures Visits(s.threads[t], ch, c) ==> Sent(s, c) == s.casts - 1 && !Adding(s)
  {
    if Owns(s.threads[t], LogLock) {
      LogWriterAlone(s, t);
      LogWriterAloneAfter(s, size, t, ch, s');
    } else {
      OthersLeaveLog(s, size, t, ch, s');
    }
  }

  // ---------- one client ----------

  /** A client's feed when a step visits it, or extends the history, or does neither. */
  lemma FedKept(k: Conn, k': Conn, history: seq<Entry>, history': seq<Entry>, sent: int)
    requires Fed(k, history, sent) && history <= history'
    requires k'.from == k.from && k'.joined == k.joined && Feed(k'.msgs) == Feed(k.msgs)
    ensures Fed(k', history', sent)
  {
    assert history'[k.from..sent] == history[k.from..sent];
  }

  lemma FedVisited(k: Conn, k': Conn, history: seq<Entry>, sent: int)
    requires Fed(k, history, sent) && sent == |history| - 1
    requires k'.from == k.from && k'.joined == k.joined && Feed(k'.msgs) == Feed(k.msgs) + [history[sent]]
    ensures Fed(k', history, sent + 1)
  {
    var before, after := history[k.from..sent], history[k.from..sent + 1];
    assert |after| == |before| + 1 && after[|before|] == history[sent];
    assert forall i :: 0 <= i < |before| ==> after[i] == before[i];
    assert after == before + [history[sent]];
  }

  lemma FedStep(s: State, size: int, t: Tid, ch: Choice, c: Tid, s': State)
    requires LockInv(s) && LogInv(s, size) && CanStep(s, t, ch) && LogEffect(s, size, t, ch, s')
    requires c in s.clients && c in s.conns && c in s'.conns && ConnEffect(s, t, ch, c, s.conns[c], s'.conns[c])
    requires Fed(s.conns[c], s.history, Sent(s, c))
    ensures Fed(s'.conns[c], s'.history, Sent(s', c))
  {
    SentStep(s, size, t, ch, c, s');
    if Visits(s.threads[t], ch, c) {
      FedVisited(s.conns[c], s'.conns[c], s.history, Sent(s, c));
    } else {
      assert Feed(s.conns[c].msgs) + [] == Feed(s.conns[c].msgs);
      FedKept(s.conns[c], s'.conns[c], s.history, s'.history, Sent(s, c));
    }
  }

  /** A step that leaves the client's dump alone. */
  lemma DumpKept(th: Thread, th': Thread, k: Conn, k': Conn, history: seq<Entry>, history': seq<Entry>, cap: nat)
    requires DumpInv(th, k, history, cap) && history <= history'
    requires k'.joined == k.joined && k'.dumped == k.dumped && Dumped(k'.msgs) == Dumped(k.msgs)
    requires th' == th || (!th'.WsLog? && (AfterLogDump(th') ==> AfterLogDump(th) || th == WsLog([]))
                           && (BeforeLogDump(th') ==> BeforeLogDump(th)))
    ensures DumpInv(th', k', history', cap)
  {
    if th'.WsLog? || AfterLogDump(th') {
      assert history'[..k.dumped] == history[..k.dumped];
    }
  }

  /** The client's own thread takes the snapshot. */
  lemma DumpBegins(k: Conn, k': Conn, history: seq<Entry>, cap: nat)
    requires Dumped(k.msgs) == [] && Dumped(k'.msgs) == [] && k'.joined == k.joined <= |history| && k'.dumped == |history|
    ensures DumpInv(WsLog(Newest(history, cap)), k', history, cap)
  {
    assert history[..|history|] == history;
    assert [] + Newest(history, cap) == Newest(history, cap);
  }

  /** It sends the next entry of the snapshot. */
  lemma DumpGoesOn(rest: seq<Entry>, k: Conn, k': Conn, history: seq<Entry>, cap: nat)
    requires rest != [] && DumpInv(WsLog(rest), k, history, cap)
    requires k'.joined == k.joined && k'.dumped == k.dumped && Dumped(k'.msgs) == Dumped(k.msgs) + [rest[0]]
    ensures DumpInv(WsLog(rest[1..]), k', history, cap)
  {
    assert Dumped(k.msgs) + [rest[0]] + rest[1..] == Dumped(k.msgs) + rest;
  }

  /** Any step of the client's own thread but those of the log dump itself, and its end. */
  lemma PhaseStep(s: State, th: Thread, ch: Choice)
    requires Joined(th) && !th.WsNext? && (th.WsLog? ==> th.rest == [])
    ensures var th' := Advance(s, th, ch);
            && !th'.WsLog? && (AfterLogDump(th') ==> AfterLogDump(th) || th == WsLog([]))
            && (BeforeLogDump(th') ==> BeforeLogDump(th))
  {
  }

  lemma DumpStep(s: State, size: int, t: Tid, ch: Choice, c: Tid, s': State)
    requires s.mqttLog == Newest(s.history, Capacity(size)) && LogEffect(s, size, t, ch, s')
    requires c in s.conns && c in s.threads && c in s'.conns && ConnEffect(s, t, ch, c, s.conns[c], s'.conns[c])
    requires s.conns[c].joined <= |s.history| && Joined(s.threads[c]) && s.threads[t] != Finished
    requires DumpInv(s.threads[c], s.conns[c], s.history, Capacity(size))
    ensures DumpInv(s'.threads[c], s'.conns[c], s'.history, Capacity(size))
  {
    var th, th', k, k' := s.threads[c], s'.threads[c], s.conns[c], s'.conns[c];
    var cap := Capacity(size);
    assert Dumped(k.msgs) + [] == Dumped(k.msgs);
    if t != c {
      DumpKept(th, th', k, k', s.history, s'.history, cap);
    } else if th.WsNext? {
      DumpBegins(k, k', s.history, cap);
    } else if th.WsLog? && th.rest != [] {
      DumpGoesOn(th.rest, k, k', s.history, cap);
    } else {
      PhaseStep(s, th, ch);
      DumpKept(th, th', k, k', s.history, s'.history, cap);
    }
  }

  /** A new client starts with nothing received and nothing missed. */
  lemma NewClient(s: State, size: int, t: Tid, ch: Choice, s': State)
    requires LockInv(s) && LogInv(s, size) && LogEffect(s, size, t, ch, s') && s.threads[t].WsIn?
    requires t in s'.conns && s'.conns[t] == Conn([], false, s.casts, |s.history|, 0)
    ensures ClientInv(s', size, t)
  {
    OthersLeaveLog(s, size, t, ch, s');
    assert LockInvFor(s.threads, s.locks.Get(WsLock), WsLock);
    if Pending(s, t) {
      var u :| u in s.threads && s.threads[u].LgCast? && t in s.threads[u].todo;
      assert Reads(s.threads[u], WsLock);
    }
    assert s'.history[s.casts..s.casts] == [];
  }

  // ---------- all reachable states ----------

  lemma DeliveryInvStep(s: State, size: int, a: Action)
    requires DeliveryInv(s, size) && Enabled(s, a)
    ensures DeliveryInv(Do(s, size, a), size)
  {
    LockInvStep(s, size, a);
    match a
    case Spawn(t, th) => SpawnKeeps(s, size, t, th);
    case Move(t, ch) =>
      var s' := Next(s, size, t, ch);
      ClientsJoinedStep(s, size, t, ch);
      StepOnLog(s, size, t, ch);
      LogInvStep(s, size, t, ch, s');
      forall c | c in s'.clients && !s'.conns[c].broken ensures ClientInv(s', size, c) {
        ClientInvStep(s, size, t, ch, c);
      }
  }

  lemma ClientInvStep(s: State, size: int, t: Tid, ch: Choice, c: Tid)
    requires DeliveryInv(s, size) && CanStep(s, t, ch)
    requires var s' := Next(s, size, t, ch);
             c in s'.clients && c in s'.conns && c in s'.threads && !s'.conns[c].broken
    ensures ClientInv(Next(s, size, t, ch), size, c)
  {
    var s' := Next(s, size, t, ch);
    StepOnLog(s, size, t, ch);
    if c == t && s.threads[t].WsIn? {
      NewClient(s, size, t, ch, s');
    } else {
      StepOnConn(s, size, t, ch, c);
      assert ClientInv(s, size, c);
      FedStep(s, size, t, ch, c, s');
      DumpStep(s, size, t, ch, c, s');
    }
  }

  lemma SpawnLeavesLog(s: State, s': State, t: Tid, th: Thread)
    requires t !in s.threads && Begins(th) && s'.threads == s.threads[t := th]
    ensures Adding(s') <==> Adding(s)
    ensures forall c :: Pending(s', c) <==> Pending(s, c)
  {
    assert forall u :: u in s.threads ==> s'.threads[u] == s.threads[u];
    if Adding(s) {
      var u :| u in s.threads && s.threads[u].LgAdded?;
      assert s'.threads[u].LgAdded?;
    }
    forall c ensures Pending(s', c) <==> Pending(s, c) {
      if Pending(s, c) {
        var u :| u in s.threads && s.threads[u].LgCast? && c in s.threads[u].todo;
        assert s'.threads[u].LgCast?;
      }
    }
  }

  lemma SpawnKeepsLogInv(s: State, size: int, t: Tid, th: Thread)
    requires LogInv(s, size) && Enabled(s, Spawn(t, th))
    ensures LogInv(Do(s, size, Spawn(t, th)), size)
  {
    SpawnLeavesLog(s, Do(s, size, Spawn(t, th)), t, th);
  }

  lemma SpawnKeeps(s: State, size: int, t: Tid, th: Thread)
    requires DeliveryInv(s, size) && Enabled(s, Spawn(t, th))
    ensures var s' := Do(s, size, Spawn(t, th));
            && ClientsJoined(s') && LogInv(s', size)
            && forall c :: c in s'.clients && !s'.conns[c].broken ==> ClientInv(s', size, c)
  {
    var s' := Do(s, size, Spawn(t, th));
    SpawnLeavesLog(s, s', t, th);
    SpawnKeepsLogInv(s, size, t, th);
    forall c | c in s'.clients && !s'.conns[c].broken ensures ClientInv(s', size, c) {
      assert ClientInv(s, size, c) && s'.threads[c] == s.threads[c] && Sent(s', c) == Sent(s, c);
    }
  }

  lemma {:induction false} DeliveryInvReachable(s0: State, size: int, acts: seq<Action>, s: State)
    requires Init(s0) && Reaches(s0, size, acts, s)
    ensures DeliveryInv(s, size)
  {
    if acts == [] {
      LockInvReachable(s0, size, acts, s);
    } else {
      var last := |acts| - 1;
      var m :| Reaches(s0, size, acts[..last], m) && Enabled(m, acts[last]) && s == Do(m, size, acts[last]);
      DeliveryInvReachable(s0, size, acts[..last], m);
      DeliveryInvStep(m, size, acts[last]);
    }
  }

  predicate Received(msgs: seq<Msg>, entry: Entry) {
    entry in Feed(msgs) || entry in Dumped(msgs)
  }

  /** In every reachable state without a writer at the log lock, a client that has finished its log dump, is
      still registered, and had no failing write has received: in its dump exactly the entries the log held
      when the dump began; as broadcasts, in the order in which they were added and without omission, every
      entry added after its registration and at most one from just before; and so, without a gap, every
      entry from the oldest in its dump to the newest of all. */
  lemma NoGapAtConnect(s0: State, size: int, acts: seq<Action>, s: State, c: Tid)
    requires Init(s0) && Reaches(s0, size, acts, s)
    requires s.locks.log.writer == None
    requires c in s.clients && c in s.conns && !s.conns[c].broken && c in s.threads && AfterLogDump(s.threads[c])
    ensures var k := s.conns[c];
            && k.from <= k.joined <= k.from + 1 && k.joined <= k.dumped <= |s.history|
            && Dumped(k.msgs) == Newest(s.history[..k.dumped], Capacity(size))
            && Feed(k.msgs) == s.history[k.from..]
            && forall i :: 0 <= i < |s.history| && k.dumped - Capacity(size) <= i ==> Received(k.msgs, s.history[i])
  {
    DeliveryInvReachable(s0, size, acts, s);
    Settled(s, size, c);
    NothingMissing(s.conns[c].msgs, s.history, s.conns[c].from, s.conns[c].dumped, Capacity(size));
  }

  /** Without a log writer no entry is on its way. */
  lemma NothingOnItsWay(s: State, c: Tid)
    requires LockInv(s) && s.locks.log.writer == None
    ensures !Adding(s) && !Pending(s, c)
  {
    assert LockInvFor(s.threads, s.locks.Get(LogLock), LogLock);
    forall u | u in s.threads ensures !s.threads[u].LgAdded? && !s.threads[u].LgCast? {
      assert !Claims(s.threads[u], LogLock);
    }
  }

  lemma Settled(s: State, size: int, c: Tid)
    requires DeliveryInv(s, size) && s.locks.log.writer == None
    requires c in s.clients && c in s.conns && !s.conns[c].broken && c in s.threads && AfterLogDump(s.threads[c])
    ensures var k := s.conns[c];
            && k.from <= k.joined <= k.from + 1 && k.joined <= k.dumped <= |s.history|
            && Dumped(k.msgs) == Newest(s.history[..k.dumped], Capacity(size))
            && Feed(k.msgs) == s.history[k.from..]
  {
    NothingOnItsWay(s, c);
    var k := s.conns[c];
    assert ClientInv(s, size, c);
    assert Dumped(k.msgs) + [] == Dumped(k.msgs);
  }

  /** A dump taken at time n and a feed that began no later cover everything from the oldest dumped entry. */
  lemma NothingMissing(msgs: seq<Msg>, history: seq<Entry>, from: nat, n: nat, cap: nat)
    requires from <= n <= |history| && Dumped(msgs) == Newest(history[..n], cap) && Feed(msgs) == history[from..]
    ensures forall i :: 0 <= i < |history| && n - cap <= i ==> Received(msgs, history[i])
  {
    NewestShape(history[..n], cap);
    forall i | 0 <= i < |history| && n - cap <= i ensures Received(msgs, history[i]) {
      if i >= from {
        assert history[i] == Feed(msgs)[i - from];
      } else {
        assert history[i] == Dumped(msgs)[n - 1 - i];
      }
    }
  }
}
