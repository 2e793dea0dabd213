/** The MQTT listener and its broker as one system. In XML mode the listener's own replies come back to it
    through its wildcard subscription; a potential shows that such cascades end, and counts them exactly. */
module Listener {
  import opened Wrappers
  import opened Text
  import opened Topics

  /** xml says whether a config file was given; otherwise the single command is run (legacy mode). */
  datatype Config = Config(xml: bool, topic: string, command: string, commands: map<string, string>)

  /** A reply: the status of the listener, what running a command line gave, or an error. */
  datatype Body = Listening(available: set<string>) | Ran(command: string) | NotFound(name: string, available: set<string>)

  datatype Reply = Reply(topic: string, body: Body)

  const STATUS := "/status"

  function Handle(config: Config, topic: string): Option<Reply> {
    var base := config.topic;
    if config.xml then
      if topic == base then Some(Reply(base + STATUS, Listening(config.commands.Keys)))
      else if base + "/" <= topic then
        var name := topic[|base| + 1..];
        Some(Reply(topic + STATUS,
                   if name in config.commands then Ran(config.commands[name]) else NotFound(name, config.commands.Keys)))
      else None
    else Some(Reply(base + STATUS, Ran(config.command)))
  }

  /** In XML mode the base topic and everything below it is answered on the topic's own /status: the base with
      the commands there are, base/name by running the command of that name, or saying that there is none. In
      legacy mode every message runs the one command, and the reply goes below the base. */
  method HandleMessage(config: Config, topic: string) returns (published: Option<Reply>)
    ensures published == Handle(config, topic)
    ensures published.Some? <==> !config.xml || topic == config.topic || config.topic + "/" <= topic
    ensures published.Some? ==> published.value.topic == (if config.xml then topic else config.topic) + "/status"
    ensures published.Some? && published.value.body.Listening? <==> config.xml && topic == config.topic
    ensures config.xml && topic == config.topic ==>
              forall name :: name in published.value.body.available <==> name in config.commands
    ensures config.xml ==>
              forall name :: topic == config.topic + "/" + name ==>
                published.value.body == if name in config.commands then Ran(config.commands[name])
                                        else NotFound(name, config.commands.Keys)
    ensures !config.xml ==> published.value.body == Ran(config.command)
  {
    forall name | topic == config.topic + "/" + name ensures topic[|config.topic| + 1..] == name {
    }
    var baseTopic := config.topic;
    var response: Body;
    var statusTopic: string;
    if config.xml {
      if topic == baseTopic {
        response := Listening(config.commands.Keys);
        statusTopic := baseTopic + STATUS;
      } else if baseTopic + "/" <= topic {
        var cmdName := topic[|baseTopic + "/"|..];
        if cmdName in config.commands {
          response := Ran(config.commands[cmdName]);
        } else {
          response := NotFound(cmdName, config.commands.Keys);
        }
        statusTopic := topic + STATUS;
      } else {
        return None;
      }
    } else {
      response := Ran(config.command);
      statusTopic := config.topic + STATUS;
    }
    return Some(Reply(statusTopic, response));
  }

  ghost predicate Named(entries: seq<(string, string)>, name: string) {
    exists i :: 0 <= i < |entries| && entries[i].0 == name
  }

  /** Entry i is the last one of its name. */
  ghost predicate LastNamed(entries: seq<(string, string)>, i: int) {
    0 <= i < |entries| && forall j :: i < j < |entries| ==> entries[j].0 != entries[i].0
  }

  /** The map after the entries were put in, in order. */
  function CommandsOf(entries: seq<(string, string)>): map<string, string> {
    if entries == [] then map[]
    else
      var before, last := CommandsOf(entries[..|entries| - 1]), entries[|entries| - 1];
      if last.0 == "" then before else before[last.0 := TrimSpace(last.1)]
  }

  lemma {:induction false} CommandNames(entries: seq<(string, string)>, name: string)
    ensures name in CommandsOf(entries) <==> name != "" && Named(entries, name)
  {
    if entries != [] {
      var init, last := entries[..|entries| - 1], entries[|entries| - 1];
      CommandNames(init, name);
      if Named(init, name) {
        var i :| 0 <= i < |init| && init[i].0 == name;
        assert entries[i].0 == name;
      }
    }
  }

  lemma {:induction false} LastCommandCounts(entries: seq<(string, string)>, i: nat)
    requires LastNamed(entries, i) && entries[i].0 != ""
    ensures entries[i].0 in CommandsOf(entries) && CommandsOf(entries)[entries[i].0] == TrimSpace(entries[i].1)
  {
    var init := entries[..|entries| - 1];
    if i < |init| {
      LastCommandCounts(init, i);
    }
  }

  /** The commands of an XML file, in order: unnamed ones are skipped, later ones replace earlier ones, and a
      file without any is refused. */
  method LoadXMLCommands(entries: seq<(string, string)>) returns (r: Option<map<string, string>>)
    ensures r.None? <==> forall i :: 0 <= i < |entries| ==> entries[i].0 == ""
    ensures r.Some? ==> forall name :: name in r.value <==> name != "" && Named(entries, name)
    ensures r.Some? ==>
              forall i :: LastNamed(entries, i) && entries[i].0 != "" ==>
                entries[i].0 in r.value && r.value[entries[i].0] == TrimSpace(entries[i].1)
  {
    var cmdMap: map<string, string> := map[];
    for k := 0 to |entries|
      invariant cmdMap == CommandsOf(entries[..k])
    {
      assert entries[..k + 1][..k] == entries[..k];
      if entries[k].0 == "" {
        continue;
      }
      cmdMap := cmdMap[entries[k].0 := TrimSpace(entries[k].1)];
    }
    assert entries[..|entries|] == entries;
    forall name ensures name in cmdMap <==> name != "" && Named(entries, name) {
      CommandNames(entries, name);
    }
    if cmdMap == map[] {
      forall i | 0 <= i < |entries| ensures entries[i].0 == "" { assert Named(entries, entries[i].0); }
      return None;
    }
    ghost var name :| name in cmdMap;
    forall i | LastNamed(entries, i) && entries[i].0 != ""
      ensures entries[i].0 in cmdMap && cmdMap[entries[i].0] == TrimSpace(entries[i].1)
    {
      LastCommandCounts(entries, i);
    }
    return Some(cmdMap);
  }

  function Subscriptions(config: Config): seq<string> {
    if config.xml then [config.topic, config.topic + "/+"] else [config.topic]
  }

  /** How many of the subscriptions match. */
  function Deliveries(filters: seq<string>, topic: string): nat {
    if filters == [] then 0 else (if Matches(filters[0], topic) then 1 else 0) + Deliveries(filters[1..], topic)
  }

  // ---------- the system ----------

  /** Messages on their way to the broker, and how many the listener has handled. */
  datatype World = World(queue: seq<string>, handled: nat)

  datatype Action = Inject(topic: string) | Route(i: nat)

  /** The replies to n deliveries of one message. */
  function Replies(config: Config, topic: string, n: nat): seq<string> {
    if n == 0 then []
    else match Handle(config, topic)
         case None => Replies(config, topic, n - 1)
         case Some(reply) => [reply.topic] + Replies(config, topic, n - 1)
  }

  predicate Enabled(w: World, a: Action) {
    a.Route? ==> a.i < |w.queue|
  }

  /** Someone else publishes, or the broker takes any waiting message and delivers it to the listener once
      for each matching subscription; each delivery is handled and its reply published. */
  function Do(config: Config, w: World, a: Action): World
    requires Enabled(w, a)
  {
    match a
    case Inject(topic) => w.(queue := w.queue + [topic])
    case Route(i) =>
      var n := Deliveries(Subscriptions(config), w.queue[i]);
      World(w.queue[..i] + w.queue[i + 1..] + Replies(config, w.queue[i], n), w.handled + n)
  }

  const IDLE := World([], 0)

  ghost predicate Reaches(config: Config, acts: seq<Action>, w: World) {
    if acts == [] then w == IDLE
    else
      var last := |acts| - 1;
      exists m :: Reaches(config, acts[..last], m) && Enabled(m, acts[last]) && w == Do(config, m, acts[last])
  }

  /** The messages from outside, in order, and the number of routing steps. */
  function Injected(acts: seq<Action>): seq<string> {
    if acts == [] then []
    else
      var a := acts[|acts| - 1];
      Injected(acts[..|acts| - 1]) + if a.Inject? then [a.topic] else []
  }

  function Routed(acts: seq<Action>): nat {
    if acts == [] then 0 else Routed(acts[..|acts| - 1]) + if acts[|acts| - 1].Route? then 1 else 0
  }

  /** How many messages the listener will handle because of one message on this topic. */
  function Potential(config: Config, topic: string): nat {
    if config.xml then if topic == config.topic then 2 else if OneBelow(config.topic, topic) then 1 else 0
    else if topic == config.topic then 1 else 0
  }

  function Total(config: Config, topics: seq<string>): nat {
    if topics == [] then 0 else Potential(config, topics[0]) + Total(config, topics[1..])
  }

  predicate Usable(config: Config) {
    WildcardFree(config.topic) && config.topic != ""
  }

  /** No topic matches two subscriptions, and those that match one are the ones with potential. */
  lemma DeliveredAtMostOnce(config: Config, topic: string)
    requires Usable(config)
    ensures Deliveries(Subscriptions(config), topic) == if Potential(config, topic) > 0 then 1 else 0
  {
    var base := config.topic;
    PlainMatches(base, topic);
    if config.xml {
      PlusMatches(base, topic);
      DeliveriesOfTwo(base, base + "/+", topic);
      if OneBelow(base, topic) {
        assert |topic| > |base|;
        assert topic != base;
      }
    } else {
      DeliveriesOfOne(base, topic);
    }
  }

  lemma DeliveriesOfOne(filter: string, topic: string)
    ensures Deliveries([filter], topic) == if Matches(filter, topic) then 1 else 0
  {
    assert [filter][1..] == [];
  }

  lemma DeliveriesOfTwo(first: string, second: string, topic: string)
    ensures Deliveries([first, second], topic)
         == (if Matches(first, topic) then 1 else 0) + (if Matches(second, topic) then 1 else 0)
  {
    DeliveriesOfOne(second, topic);
    assert [first, second][1..] == [second];
  }

  /** Handling a delivered message is paid for by its potential: one for itself, the rest for its reply. */
  lemma ReplyPotential(config: Config, topic: string)
    requires Usable(config) && Potential(config, topic) > 0
    ensures Handle(config, topic).Some?
    ensures Potential(config, topic) == 1 + Potential(config, Handle(config, topic).value.topic)
  {
    var base := config.topic;
    assert base + "/" == base + [SEPARATOR];
    var reply := topic + STATUS;
    assert |reply| > |topic|;
    if config.xml {
      if topic == base {
        assert reply[|base| + 1..] == "status";
        assert base + [SEPARATOR] <= reply by { assert reply[..|base| + 1] == base + [SEPARATOR]; }
      } else {
        assert reply[|base| + 1..] == topic[|base| + 1..] + STATUS;
        assert STATUS[0] == SEPARATOR;
        assert (topic[|base| + 1..] + STATUS)[|topic| - |base| - 1] == SEPARATOR;
      }
    }
  }

  lemma {:induction false} TotalConcat(config: Config, a: seq<string>, b: seq<string>)
    ensures Total(config, a + b) == Total(config, a) + Total(config, b)
  {
    if a == [] {
      assert a + b == b;
    } else {
      assert (a + b)[1..] == a[1..] + b;
      TotalConcat(config, a[1..], b);
    }
  }

  /** A routing step moves potential into the count, and never loses any. */
  lemma RouteConserves(config: Config, w: World, i: nat)
    requires Usable(config) && i < |w.queue|
    ensures var w' := Do(config, w, Route(i));
            && w'.handled + Total(config, w'.queue) == w.handled + Total(config, w.queue)
            && w'.handled - w.handled == |w'.queue| - (|w.queue| - 1)
  {
    var topic := w.queue[i];
    var n := Deliveries(Subscriptions(config), topic);
    DeliveredAtMostOnce(config, topic);
    assert w.queue == w.queue[..i] + [topic] + w.queue[i + 1..];
    TotalConcat(config, w.queue[..i] + [topic], w.queue[i + 1..]);
    TotalConcat(config, w.queue[..i], [topic]);
    TotalConcat(config, w.queue[..i] + w.queue[i + 1..], Replies(config, topic, n));
    TotalConcat(config, w.queue[..i], w.queue[i + 1..]);
    if n == 1 {
      ReplyPotential(config, topic);
      assert Replies(config, topic, 1) == [Handle(config, topic).value.topic] + Replies(config, topic, 0);
    }
  }

  lemma {:induction false} RunConserves(config: Config, acts: seq<Action>, w: World)
    requires Usable(config) && Reaches(config, acts, w)
    ensures w.handled + Total(config, w.queue) == Total(config, Injected(acts))
    ensures Routed(acts) + |w.queue| == |Injected(acts)| + w.handled
  {
    if acts != [] {
      var last := |acts| - 1;
      var m :| Reaches(config, acts[..last], m) && Enabled(m, acts[last]) && w == Do(config, m, acts[last]);
      RunConserves(config, acts[..last], m);
      match acts[last]
      case Inject(topic) =>
        TotalConcat(config, m.queue, [topic]);
        TotalConcat(config, Injected(acts[..last]), [topic]);
      case Route(i) =>
        RouteConserves(config, m, i);
        assert Injected(acts) == Injected(acts[..last]);
    }
  }

  lemma {:induction false} TotalBound(config: Config, topics: seq<string>)
    ensures Total(config, topics) <= if config.xml then 2 * |topics| else |topics|
  {
    if topics != [] {
      TotalBound(config, topics[1..]);
    }
  }

  lemma {:induction false} ActionCount(acts: seq<Action>)
    ensures |acts| == |Injected(acts)| + Routed(acts)
  {
    if acts != [] {
      ActionCount(acts[..|acts| - 1]);
    }
  }

  /** In every run the listener handles at most two messages for each one from outside in XML mode, at most
      one in legacy mode, and the whole run is finite: at most four steps, or three, for each of them. Once
      no message is on its way the count is exact. */
  lemma CascadesTerminate(config: Config, acts: seq<Action>, w: World)
    requires Usable(config) && Reaches(config, acts, w)
    ensures var n := |Injected(acts)|;
            && w.handled <= (if config.xml then 2 * n else n)
            && |acts| <= (if config.xml then 4 * n else 3 * n)
            && (w.queue == [] ==> w.handled == Total(config, Injected(acts)))
  {
    RunConserves(config, acts, w);
    TotalBound(config, Injected(acts));
    ActionCount(acts);
  }

  /** The bound is reached: a status request makes the listener handle two messages, its own reply being
      taken for a request of the command named status. */
  lemma StatusRequestComesBack(config: Config)
    requires Usable(config) && config.xml
    ensures var echo := Handle(config, config.topic).value.topic;
            && Deliveries(Subscriptions(config), echo) == 1
            && Handle(config, echo) == Some(Reply(echo + STATUS,
                 if "status" in config.commands then Ran(config.commands["status"])
                 else NotFound("status", config.commands.Keys)))
    ensures Potential(config, config.topic) == 2
  {
    ReplyPotential(config, config.topic);
    var base, echo := config.topic, config.topic + STATUS;
    DeliveredAtMostOnce(config, echo);
    assert echo[|base| + 1..] == "status";
    assert base + "/" <= echo by { assert echo[..|base| + 1] == base + "/"; }
  }
}
