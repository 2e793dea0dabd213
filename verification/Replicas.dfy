/** Replica convergence: a client that has its first dump knows every device as the server does. */
module Replicas {
  import opened Wrappers
  import opened Dashboard
  import opened Locking

  /** The last status a client was sent for a device. */
  function LastStatus(msgs: seq<Msg>, d: Dev): Option<Status> {
    if msgs == [] then None
    else
      var m := msgs[|msgs| - 1];
      if m.StatusMsg? && m.dev == d then Some(m.status) else LastStatus(msgs[..|msgs| - 1], d)
  }

  lemma LastStatusSnoc(msgs: seq<Msg>, m: Msg, d: Dev)
    ensures LastStatus(msgs + [m], d) == if m.StatusMsg? && m.dev == d then Some(m.status) else LastStatus(msgs, d)
  {
    assert (msgs + [m])[..|msgs|] == msgs;
  }

  /** The websocket thread is between registering and unregistering. */
  predicate Joined(th: Thread) {
    th.WsOut? || th.WsSync? || th.WsStatus? || th.WsNext? || th.WsLog? || th.WsIdle? || th.WsBye? || th.WsByeWait? || th.WsByeIn?
  }

  /** The websocket thread has dumped device d to its client. */
  predicate Synced(th: Thread, d: Dev) {
    (th.WsStatus? && d !in th.devs) || th.WsNext? || th.WsLog? || th.WsIdle? || th.WsBye? || th.WsByeWait? || th.WsByeIn?
  }

  /** Thread th has changed device d and still has to tell client c. */
  predicate Owes(th: Thread, c: Tid, d: Dev) {
    (th.StUpdated? && th.dev == d) || (th.StCast? && th.dev == d && c in th.todo)
  }

  ghost predicate Owed(s: State, c: Tid, d: Dev) {
    exists u :: u in s.threads && Owes(s.threads[u], c, d)
  }

  /** Registered clients have a connection and a websocket thread that is still there. */
  ghost predicate ClientsJoined(s: State) {
    && (forall c :: c in s.clients ==> c in s.threads && Joined(s.threads[c]))
    && (forall t :: t in s.threads && Joined(s.threads[t]) ==> t in s.conns)
  }

  /** A broadcast in progress carries the status that the server holds. */
  ghost predicate CastsCurrent(s: State) {
    forall u :: u in s.threads && (s.threads[u].StUpdated? || s.threads[u].StCast?) ==>
      s.threads[u].dev in s.devices && s.devices[s.threads[u].dev] == s.threads[u].status
  }

  ghost predicate KnowsOrOwed(s: State, c: Tid, d: Dev)
    requires c in s.conns && d in s.devices
  {
    LastStatus(s.conns[c].msgs, d) == Some(s.devices[d]) || Owed(s, c, d)
  }

  ghost predicate Current(s: State)
    requires ClientsJoined(s)
  {
    forall c, d :: c in s.clients && !s.conns[c].broken && d in s.devices && Synced(s.threads[c], d) ==> KnowsOrOwed(s, c, d)
  }

  ghost predicate ReplicaInv(s: State) {
    LockInv(s) && ClientsJoined(s) && CastsCurrent(s) && Current(s)
  }

  lemma ClientsJoinedStep(s: State, size: int, t: Tid, ch: Choice)
    requires ClientsJoined(s) && CanStep(s, t, ch)
    ensures ClientsJoined(Next(s, size, t, ch))
  {
    var s' := Next(s, size, t, ch);
    ActOnClients(s, size, t, s.threads[t], ch);
    JoinedStep(s, s.threads[t], ch);
    assert forall c :: c != t && c in s.threads ==> c in s'.threads && s'.threads[c] == s.threads[c];
  }

  lemma ActOnClients(s: State, size: int, t: Tid, th: Thread, ch: Choice)
    ensures var s' := Act(s, size, t, th, ch);
            && s.conns.Keys <= s'.conns.Keys
            && (th.WsIn? ==> s'.clients == s.clients + {t} && t in s'.conns)
            && (!th.WsIn? ==> s'.clients <= s.clients)
            && (th.WsByeIn? ==> t !in s'.clients)
  {
  }

  lemma JoinedStep(s: State, th: Thread, ch: Choice)
    ensures Joined(Advance(s, th, ch)) <==> th.WsIn? || (Joined(th) && !th.WsByeIn?)
  {
  }

  /** Two threads never update statuses at once. */
  lemma OneStatusWriter(s: State, t: Tid, u: Tid)
    requires LockInv(s) && t in s.threads && u in s.threads
    requires Owns(s.threads[t], StatusLock) && Owns(s.threads[u], StatusLock)
    ensures t == u
  {
    assert LockInvFor(s.threads, s.locks.Get(StatusLock), StatusLock);
  }

  lemma CastsCurrentStep(s: State, size: int, t: Tid, ch: Choice)
    requires ReplicaInv(s) && CanStep(s, t, ch)
    ensures CastsCurrent(Next(s, size, t, ch))
  {
    var s' := Next(s, size, t, ch);
    forall u | u in s'.threads && (s'.threads[u].StUpdated? || s'.threads[u].StCast?)
      ensures s'.threads[u].dev in s'.devices && s'.devices[s'.threads[u].dev] == s'.threads[u].status
    {
      if u != t && s.threads[t].StIn? {
        OneStatusWriter(s, t, u);
      }
    }
  }

  /** What a debt becomes: it stays, unless its thread has just told the client. */
  lemma OwedStep(s: State, size: int, t: Tid, ch: Choice, c: Tid, d: Dev)
    requires CanStep(s, t, ch) && Owed(s, c, d) && c in s.clients
    ensures Owed(Next(s, size, t, ch), c, d)
            || (s.threads[t].StCast? && s.threads[t].dev == d && c in s.threads[t].todo && ch.client == c)
  {
    var u :| u in s.threads && Owes(s.threads[u], c, d);
    var s' := Next(s, size, t, ch);
    if u != t {
      assert s'.threads[u] == s.threads[u];
    } else {
      assert s'.threads[t] == Advance(s, s.threads[t], ch);
      if s.threads[t].StUpdated? {
        assert Owes(s'.threads[t], c, d);
      } else if ch.client != c {
        assert s.threads[t].todo != {};
        assert Owes(s'.threads[t], c, d);
      }
    }
  }

  /** What a step tells client c about device d. */
  predicate Tells(th: Thread, t: Tid, ch: Choice, c: Tid, d: Dev) {
    (th.StCast? && th.dev == d && c in th.todo && ch.client == c)
    || (th.WsStatus? && t == c && th.devs != {} && ch.dev == d)
  }

  /** The last status of device d in the messages of a client that stays registered and sound. */
  lemma ActOnStatus(s: State, size: int, t: Tid, ch: Choice, c: Tid, d: Dev)
    requires CanStep(s, t, ch) && c in s.clients && c in s.conns && d in s.devices && !(c == t && s.threads[t].WsIn?)
    requires var s' := Act(s, size, t, s.threads[t], ch); c in s'.clients && c in s'.conns && !s'.conns[c].broken
    ensures var th, k := s.threads[t], s.conns[c];
            var k' := Act(s, size, t, th, ch).conns[c];
            && !k.broken
            && LastStatus(k'.msgs, d) == if Tells(th, t, ch, c, d) then Some(if th.StCast? then th.status else s.devices[d])
                                         else LastStatus(k.msgs, d)
  {
    var k := s.conns[c];
    match s.threads[t] {
      case StCast(dev, status, todo) => LastStatusSnoc(k.msgs, StatusMsg(dev, status), d);
      case LgCast(entry, todo) => LastStatusSnoc(k.msgs, LogMsg(entry, true), d);
      case WsStatus(devs) => if ch.dev in s.devices { LastStatusSnoc(k.msgs, StatusMsg(ch.dev, s.devices[ch.dev]), d); }
      case WsLog(rest) => if rest != [] { LastStatusSnoc(k.msgs, LogMsg(rest[0], false), d); }
      case _ =>
    }
  }

  lemma ClientBefore(s: State, size: int, t: Tid, ch: Choice, c: Tid, d: Dev)
    requires ClientsJoined(s) && CanStep(s, t, ch)
    requires var s' := Next(s, size, t, ch); c in s'.clients && c in s'.threads && Synced(s'.threads[c], d)
    ensures c in s.clients && c in s.conns && !(c == t && s.threads[t].WsIn?)
  {
  }

  /** Only an update changes a status, and then its thread owes it to everybody. */
  lemma DeviceStep(s: State, size: int, t: Tid, ch: Choice, d: Dev)
    requires CanStep(s, t, ch)
    ensures var s', th := Next(s, size, t, ch), s.threads[t];
            && s'.devices.Keys == s.devices.Keys
            && (d in s.devices && s'.devices[d] != s.devices[d] ==> th.StIn? && th.dev == d)
            && (th.StIn? && th.dev == d && d in s.devices ==> s'.threads[t].StUpdated? && s'.threads[t].dev == d)
  {
  }

  /** A device becomes synced for a client only by being dumped to it. */
  lemma SyncedStep(s: State, size: int, t: Tid, ch: Choice, c: Tid, d: Dev)
    requires CanStep(s, t, ch) && c in s.threads && d in s.devices && Synced(Next(s, size, t, ch).threads[c], d)
    ensures Synced(s.threads[c], d) || (s.threads[t].WsStatus? && Tells(s.threads[t], t, ch, c, d))
  {
  }

  lemma CurrentFor(s: State, size: int, t: Tid, ch: Choice, c: Tid, d: Dev)
    requires ReplicaInv(s) && CanStep(s, t, ch)
    requires var s' := Next(s, size, t, ch);
             c in s'.clients && c in s'.conns && c in s'.threads && !s'.conns[c].broken && d in s'.devices && Synced(s'.threads[c], d)
    ensures KnowsOrOwed(Next(s, size, t, ch), c, d)
  {
    var s', th := Next(s, size, t, ch), s.threads[t];
    ClientBefore(s, size, t, ch, c, d);
    DeviceStep(s, size, t, ch, d);
    ActOnStatus(s, size, t, ch, c, d);
    SyncedStep(s, size, t, ch, c, d);
    if th.StIn? && th.dev == d {
      assert Owes(s'.threads[t], c, d);
    } else if !Tells(th, t, ch, c, d) {
      assert KnowsOrOwed(s, c, d);
      if Owed(s, c, d) {
        OwedStep(s, size, t, ch, c, d);
      }
    }
  }

  lemma ReplicaInvStep(s: State, size: int, a: Action)
    requires ReplicaInv(s) && Enabled(s, a)
    ensures ReplicaInv(Do(s, size, a))
  {
    LockInvStep(s, size, a);
    var s' := Do(s, size, a);
    match a
    case Spawn(t, th) =>
      forall c, d | c in s'.clients && !s'.conns[c].broken && d in s'.devices && Synced(s'.threads[c], d)
        ensures KnowsOrOwed(s', c, d)
      {
        assert KnowsOrOwed(s, c, d);
        if Owed(s, c, d) {
          var u :| u in s.threads && Owes(s.threads[u], c, d);
          assert s'.threads[u] == s.threads[u];
        }
      }
    case Move(t, ch) =>
      ClientsJoinedStep(s, size, t, ch);
      CastsCurrentStep(s, size, t, ch);
      forall c, d | c in s'.clients && !s'.conns[c].broken && d in s'.devices && Synced(s'.threads[c], d)
        ensures KnowsOrOwed(s', c, d)
      {
        CurrentFor(s, size, t, ch, c, d);
      }
  }

  lemma {:induction false} ReplicaInvReachable(s0: State, size: int, acts: seq<Action>, s: State)
    requires Init(s0) && Reaches(s0, size, acts, s)
    ensures ReplicaInv(s)
  {
    if acts == [] {
      LockInvReachable(s0, size, acts, s);
    } else {
      var last := |acts| - 1;
      var m :| Reaches(s0, size, acts[..last], m) && Enabled(m, acts[last]) && s == Do(m, size, acts[last]);
      ReplicaInvReachable(s0, size, acts[..last], m);
      ReplicaInvStep(m, size, acts[last]);
    }
  }

  /** In every reachable state without a writer at the status lock, each client that has finished its status
      dump, is still registered, and had no failing write has as its last status of each device exactly the
      server's. */
  lemma ReplicasConverge(s0: State, size: int, acts: seq<Action>, s: State, c: Tid, d: Dev)
    requires Init(s0) && Reaches(s0, size, acts, s)
    requires s.locks.status.writer == None
    requires c in s.clients && c in s.conns && !s.conns[c].broken && d in s.devices
    requires c in s.threads && Synced(s.threads[c], d)
    ensures LastStatus(s.conns[c].msgs, d) == Some(s.devices[d])
  {
    ReplicaInvReachable(s0, size, acts, s);
    assert KnowsOrOwed(s, c, d);
    assert LockInvFor(s.threads, s.locks.Get(StatusLock), StatusLock);
    if Owed(s, c, d) {
      var u :| u in s.threads && Owes(s.threads[u], c, d);
      assert Claims(s.threads[u], StatusLock);
    }
  }
}
