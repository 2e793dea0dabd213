/** The dashboard's handlers as written, each run without interruption: the methods that update the App's
    fields. Module Dashboard gives the same handlers as interleaved steps. */
module App {
  import opened Wrappers
  import opened BoundedLog
  import opened Dashboard
  import opened Replicas

  /** Every client is written to; fails are the connections on which a write fails from now on. */
  function AllTold(conns: map<Tid, Conn>, clients: set<Tid>, m: Msg, fails: set<Tid>): (r: map<Tid, Conn>)
    ensures r.Keys == conns.Keys
  {
    map c | c in conns :: if c in clients then Write(conns[c], m, c in fails) else conns[c]
  }

  /** The clients that a broadcast leaves registered. */
  function Sound(conns: map<Tid, Conn>, clients: set<Tid>, fails: set<Tid>): set<Tid> {
    set c | c in clients && c in conns && !conns[c].broken && c !in fails
  }

  /** What the handlers share, the descriptions of devices left out. */
  datatype Shared = Shared(devices: map<Dev, Status>, mqttLog: seq<Entry>, clients: set<Tid>, conns: map<Tid, Conn>)

  function Told(sh: Shared, m: Msg, fails: set<Tid>): Shared {
    sh.(conns := AllTold(sh.conns, sh.clients, m, fails), clients := Sound(sh.conns, sh.clients, fails))
  }

  function Updated(sh: Shared, dev: Dev, update: Update, now: string, fails: set<Tid>): Shared {
    if dev in sh.devices then
      var status := Merge(sh.devices[dev], update, now);
      Told(sh.(devices := sh.devices[dev := status]), StatusMsg(dev, status), fails)
    else sh
  }

  function Logged(sh: Shared, entry: Entry, size: int, fails: set<Tid>): Shared {
    Told(sh.(mqttLog := Push(sh.mqttLog, entry, size)), LogMsg(entry, true), fails)
  }

  /** Each client either gets the message as the next one and stays, or cannot be written to and is dropped; no
      other connection is touched. */
  ghost predicate ToldOrDropped(conns: map<Tid, Conn>, clients: set<Tid>, m: Msg, fails: set<Tid>,
                                conns': map<Tid, Conn>, clients': set<Tid>)
  {
    && conns'.Keys == conns.Keys
    && (forall c :: c in clients' <==> c in clients && c in conns && !conns[c].broken && c !in fails)
    && (forall c :: c in clients' && c in conns ==> conns'[c] == conns[c].(msgs := conns[c].msgs + [m]))
    && (forall c :: c in conns && c in clients && c !in clients' ==> conns'[c] == conns[c].(broken := true))
    && (forall c :: c in conns && c !in clients ==> conns'[c] == conns[c])
  }

  lemma ToldMeaning(conns: map<Tid, Conn>, clients: set<Tid>, m: Msg, fails: set<Tid>)
    ensures ToldOrDropped(conns, clients, m, fails, AllTold(conns, clients, m, fails), Sound(conns, clients, fails))
  {
  }

  lemma TellNobody(conns: map<Tid, Conn>, m: Msg, fails: set<Tid>)
    ensures AllTold(conns, {}, m, fails) == conns && Sound(conns, {}, fails) == {}
  {
  }

  /** What one iteration of a broadcast over ws does when todo is still to come. */
  lemma TellOneMore(conns: map<Tid, Conn>, ws: set<Tid>, todo: set<Tid>, c: Tid, m: Msg, fails: set<Tid>)
    requires c in todo && todo <= ws <= conns.Keys
    ensures var told, told' := ws - todo, ws - (todo - {c});
            var before, after := AllTold(conns, told, m, fails), AllTold(conns, told', m, fails);
            var next := Write(before[c], m, c in fails);
            && after == before[c := next]
            && (todo - {c}) + Sound(conns, told', fails)
               == (todo + Sound(conns, told, fails)) - if next.broken then {c} else {}
  {
    var told, told' := ws - todo, ws - (todo - {c});
    assert told' == told + {c} && c !in told;
    forall x ensures x in Sound(conns, told', fails)
                     <==> x in Sound(conns, told, fails) || (x == c && !conns[c].broken && c !in fails)
    {
    }
  }

  /** A client that stays registered has been told last. */
  lemma ToldLast(conns: map<Tid, Conn>, clients: set<Tid>, dev: Dev, status: Status, fails: set<Tid>)
    ensures forall c :: c in Sound(conns, clients, fails) ==>
              LastStatus(AllTold(conns, clients, StatusMsg(dev, status), fails)[c].msgs, dev) == Some(status)
  {
    forall c | c in Sound(conns, clients, fails)
      ensures LastStatus(AllTold(conns, clients, StatusMsg(dev, status), fails)[c].msgs, dev) == Some(status)
    {
      LastStatusSnoc(conns[c].msgs, StatusMsg(dev, status), dev);
    }
  }

  datatype Control = Control(kind: string, caption: string, topic: string, payload: string, localCommand: string, min: int, max: int)

  /** A configured device, and what the server keeps of it together with its status. */
  datatype Device = Device(id: Dev, name: string, category: string, statusTopic: string, controls: seq<Control>)

  datatype DeviceStatus = DeviceStatus(id: Dev, name: string, category: string, status: Status, controls: seq<Control>)

  function Unreported(device: Device): DeviceStatus {
    DeviceStatus(device.id, device.name, device.category, map[], device.controls)
  }

  /** Device i is the last one of its identifier. */
  ghost predicate LastOfId(devices: seq<Device>, i: int) {
    0 <= i < |devices| && forall j :: i < j < |devices| ==> devices[j].id != devices[i].id
  }

  ghost predicate Configured(devices: seq<Device>, d: Dev) {
    exists i :: 0 <= i < |devices| && devices[i].id == d
  }

  lemma ConfiguredSnoc(devices: seq<Device>, n: nat)
    requires n < |devices|
    ensures forall d :: Configured(devices[..n + 1], d) <==> Configured(devices[..n], d) || d == devices[n].id
    ensures forall i :: LastOfId(devices[..n + 1], i) <==> i == n || (LastOfId(devices[..n], i) && devices[i].id != devices[n].id)
  {
    var longer := devices[..n + 1];
    assert longer[n] == devices[n] && forall i :: 0 <= i < n ==> longer[i] == devices[..n][i];
    forall d ensures Configured(longer, d) <==> Configured(devices[..n], d) || d == devices[n].id {
      if Configured(devices[..n], d) {
        var i :| 0 <= i < n && devices[..n][i].id == d;
        assert longer[i].id == d;
      }
    }
  }

  class Server {
    const logSize: int
    var deviceStatus: map<Dev, DeviceStatus>
    var mqttLog: seq<Entry>
    var wsClients: set<Tid>
    var conns: map<Tid, Conn>

    ghost predicate Valid()
      reads this
    {
      wsClients <= conns.Keys
    }

    ghost function View(): Shared
      reads this
    {
      Shared(map d | d in deviceStatus :: deviceStatus[d].status, mqttLog, wsClients, conns)
    }

    constructor (logSize: int)
      ensures Valid() && this.logSize == logSize
      ensures deviceStatus == map[] && mqttLog == [] && wsClients == {} && conns == map[]
    {
      this.logSize := logSize;
      deviceStatus, mqttLog, wsClients, conns := map[], [], {}, map[];
    }

    /** Every configured identifier gets the description of its last device and an empty status. */
    method InitializeDeviceStatus(devices: seq<Device>)
      modifies this`deviceStatus
      ensures forall d :: d in deviceStatus <==> d in old(deviceStatus) || Configured(devices, d)
      ensures forall i :: LastOfId(devices, i) ==>
                devices[i].id in deviceStatus && deviceStatus[devices[i].id] == Unreported(devices[i])
      ensures forall d :: d in old(deviceStatus) && !Configured(devices, d) ==> deviceStatus[d] == old(deviceStatus)[d]
    {
      for n := 0 to |devices|
        invariant forall d :: d in deviceStatus <==> d in old(deviceStatus) || Configured(devices[..n], d)
        invariant forall i :: LastOfId(devices[..n], i) ==>
                    devices[i].id in deviceStatus && deviceStatus[devices[i].id] == Unreported(devices[i])
        invariant forall d :: d in old(deviceStatus) && !Configured(devices[..n], d) ==> deviceStatus[d] == old(deviceStatus)[d]
      {
        ConfiguredSnoc(devices, n);
        deviceStatus := deviceStatus[devices[n].id := Unreported(devices[n])];
      }
      assert devices[..|devices|] == devices;
    }

    /** The loop of broadcastUpdate and broadcastMQTTLog: clients in any order, a failed one closed and dropped. */
    method Broadcast(m: Msg, fails: set<Tid>)
      requires Valid()
      modifies this`wsClients, this`conns
      ensures Valid()
      ensures conns == AllTold(old(conns), old(wsClients), m, fails)
      ensures wsClients == Sound(old(conns), old(wsClients), fails)
    {
      var todo := wsClients;
      ghost var cs, ws := conns, wsClients;
      TellNobody(cs, m, fails);
      assert ws - todo == {} && todo + {} == wsClients;
      while todo != {}
        invariant todo <= ws <= cs.Keys
        invariant conns == AllTold(cs, ws - todo, m, fails)
        invariant wsClients == todo + Sound(cs, ws - todo, fails)
        decreases |todo|
      {
        var client :| client in todo;
        TellOneMore(cs, ws, todo, client, m, fails);
        var after := Write(conns[client], m, client in fails);
        conns := conns[client := after];
        if after.broken {
          wsClients := wsClients - {client};
        }
        todo := todo - {client};
      }
      assert ws - {} == ws;
    }

    /** An update of a known device changes that status only, and leaves every client that stays registered
        with exactly the new status as its last word on the device. */
    method HandleStatusUpdate(dev: Dev, update: Update, now: string, fails: set<Tid>)
      requires Valid()
      modifies this`deviceStatus, this`wsClients, this`conns
      ensures Valid()
      ensures View() == Updated(old(View()), dev, update, now, fails)
      ensures dev !in old(deviceStatus) ==> unchanged(this)
      ensures dev in old(deviceStatus) ==>
                && dev in deviceStatus
                && var was, next := old(deviceStatus)[dev].status, deviceStatus[dev].status;
                && "lastUpdate" in next && next["lastUpdate"] == now
                && match update
                   case Object(fields) =>
                     && next.Keys == fields.Keys + {"lastUpdate"}
                     && forall k :: k in fields && k != "lastUpdate" ==> next[k] == fields[k]
                   case Raw(payload) =>
                     && next.Keys == was.Keys + {"value", "lastUpdate"} && next["value"] == payload
                     && forall k :: k in was && k != "value" && k != "lastUpdate" ==> next[k] == was[k]
      ensures dev in old(deviceStatus) ==>
                && var before := old(deviceStatus)[dev];
                && deviceStatus == old(deviceStatus)[dev := before.(status := Merge(before.status, update, now))]
                && conns == AllTold(old(conns), old(wsClients), StatusMsg(dev, deviceStatus[dev].status), fails)
                && wsClients == Sound(old(conns), old(wsClients), fails)
                && forall c :: c in wsClients ==> LastStatus(conns[c].msgs, dev) == Some(deviceStatus[dev].status)
    {
      if dev in deviceStatus {
        var status := deviceStatus[dev].status;
        match update {
          case Raw(payload) => status := status["value" := payload];
          case Object(fields) => status := fields;
        }
        status := status["lastUpdate" := now];
        MergeMeaning(deviceStatus[dev].status, update, now);
        deviceStatus := deviceStatus[dev := deviceStatus[dev].(status := status)];
        Broadcast(StatusMsg(dev, status), fails);
        ToldLast(old(conns), old(wsClients), dev, status, fails);
      }
    }

    /** The log of all entries so far becomes the log of all entries and this one. */
    method AddMQTTLogEntry(entry: Entry, fails: set<Tid>, ghost history: seq<Entry>)
      requires Valid() && mqttLog == Newest(history, Capacity(logSize))
      modifies this`mqttLog, this`wsClients, this`conns
      ensures Valid() && View() == Logged(old(View()), entry, logSize, fails)
      ensures mqttLog == Newest(history + [entry], Capacity(logSize)) && NewestFirst(mqttLog, history + [entry], logSize)
      ensures conns == AllTold(old(conns), old(wsClients), LogMsg(entry, true), fails)
      ensures wsClients == Sound(old(conns), old(wsClients), fails)
    {
      PushRefines(history, entry, logSize);
      NewestShape(history + [entry], Capacity(logSize));
      mqttLog := [entry] + mqttLog;
      var maxSize := logSize;
      if maxSize <= 0 {
        maxSize := DEFAULT_SIZE;
      }
      if |mqttLog| > maxSize {
        mqttLog := mqttLog[..maxSize];
      }
      Broadcast(LogMsg(entry, true), fails);
    }
  }
}
