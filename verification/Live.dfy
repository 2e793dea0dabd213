/** What the live interpreter does to the port: the specification of each handler as a function.
    The port is a trace of events still to come, the outcomes of the writes still to come, and what was
    transmitted and logged so far. */
module Live {
  import opened Wrappers
  import opened Text
  import opened Script
  import opened Patterns
  import SendValue

  /** A character from the read channel, or the firing of the timer that is armed at that moment. */
  datatype Event = Char(c: char) | Timer

  datatype TryBlock = TryBlock(name: string, script: string, except: string, retry: bool)

  datatype NamedScript = NamedScript(name: string, content: string)

  datatype Command = Do(b: Basic) | Try(block: TryBlock, scripts: map<string, NamedScript>)

  datatype Error =
    | BadPattern(value: string, reason: PatternError)
    | TimedOut(value: string)
    | WriteFailed(text: string)
    | BadMonitor(value: string)
    | NoScript(block: string, script: string)
    | BadScript(script: string, parseError: ParseError)
    | NoExcept(block: string, script: string)
    | BadExcept(script: string, parseError: ParseError)
    | TryFailed(block: string, cause: Error)

  /** Blocked: the trace ended while the handler was still waiting, so it has not returned. */
  datatype Outcome = Done | Failed(error: Error) | Blocked

  /** faults[i] says whether the write after i further writes fails; later writes succeed. A failed
      write transmits nothing. log holds the lines that monitors printed. */
  datatype Port = Port(input: seq<Event>, faults: seq<bool>, tx: seq<string>, log: seq<string>)

  datatype Ran = Ran(port: Port, outcome: Outcome)

  // ---------- the three handlers ----------

  function Transmit(value: string, s: Port): Ran {
    var text := SendValue.Format(value);
    var faults := if s.faults == [] then [] else s.faults[1..];
    if s.faults != [] && s.faults[0] then Ran(s.(faults := faults), Failed(WriteFailed(text)))
    else Ran(s.(faults := faults, tx := s.tx + [text]), Done)
  }

  /** Waiting for p when the text seen so far did not show it. */
  function Await(lib: Libs, p: Pattern, value: string, seen: string, s: Port): Ran
    decreases |s.input|
  {
    if s.input == [] then Ran(s, Blocked)
    else
      var rest := s.(input := s.input[1..]);
      match s.input[0]
      case Timer => Ran(rest, Failed(TimedOut(value)))
      case Char(c) =>
        if LiveMatch(lib, p, seen + [c], LastLine(seen + [c])) then Ran(rest, Done)
        else Await(lib, p, value, seen + [c], rest)
  }

  function Expecting(lib: Libs, value: string, s: Port): Ran {
    match ParsePattern(lib, value)
    case Err(e) => Ran(s, Failed(BadPattern(value, e)))
    case Ok(p) => Await(lib, p, value, "", s)
  }

  /** The monitor loop with line limit n: a timer is armed only for n = 0, and only a positive n stops
      at a line count. */
  function Watch(n: int, buffer: string, count: nat, s: Port): Ran
    decreases |s.input|
  {
    if s.input == [] then Ran(s, Blocked)
    else
      var rest := s.(input := s.input[1..]);
      match s.input[0]
      case Timer => if n == 0 then Ran(rest, Done) else Watch(n, buffer, count, rest)
      case Char(c) =>
        if c == LF then
          var logged := rest.(log := s.log + [TrimLineEnd(buffer + [c])]);
          if n > 0 && count + 1 >= n then Ran(logged, Done) else Watch(n, "", count + 1, logged)
        else Watch(n, buffer + [c], count, rest)
  }

  function Monitoring(lib: Libs, value: string, s: Port): Ran {
    if value == "" then Watch(0, "", 0, s)
    else
      match lib.classify(value)
      case Duration => Watch(0, "", 0, s)
      case Count(n) => Watch(n, "", 0, s)
      case Invalid => Ran(s, Failed(BadMonitor(value)))
  }

  function Exec(lib: Libs, b: Basic, s: Port): Ran {
    match b
    case Send(v) => Transmit(v, s)
    case Expect(v) => Expecting(lib, v, s)
    case Monitor(v) => Monitoring(lib, v, s)
  }

  // ---------- try blocks and whole scripts ----------

  /** One attempt as written: every command runs, and the last error is remembered. */
  function Attempt(lib: Libs, bs: seq<Basic>, sofar: Outcome, s: Port): Ran {
    if bs == [] then Ran(s, sofar)
    else
      var r := Exec(lib, bs[0], s);
      if r.outcome.Blocked? then r
      else Attempt(lib, bs[1..], if r.outcome.Failed? then r.outcome else sofar, r.port)
  }

  /** Attempts until one succeeds, at most left of them. */
  function Attempts(lib: Libs, bs: seq<Basic>, left: nat, s: Port): Ran
    requires left > 0
  {
    var r := Attempt(lib, bs, Done, s);
    if r.outcome.Failed? && left > 1 then Attempts(lib, bs, left - 1, r.port) else r
  }

  /** The except script: errors are logged and ignored. */
  function Recover(lib: Libs, es: seq<Basic>, s: Port): Ran {
    if es == [] then Ran(s, Done)
    else
      var r := Exec(lib, es[0], s);
      if r.outcome.Blocked? then r else Recover(lib, es[1..], r.port)
  }

  function MaxAttempts(block: TryBlock): nat {
    if block.retry then 2 else 1
  }

  /** After all attempts failed with the given cause. */
  function GiveUp(lib: Libs, block: TryBlock, scripts: map<string, NamedScript>, cause: Error, s: Port): Ran {
    if block.except == "" then Ran(s, Failed(TryFailed(block.name, cause)))
    else if block.except !in scripts then Ran(s, Failed(NoExcept(block.name, block.except)))
    else
      match ParseSpec(scripts[block.except].content)
      case Err(e) => Ran(s, Failed(BadExcept(block.except, e)))
      case Ok(es) =>
        var x := Recover(lib, es, s);
        if x.outcome.Blocked? then x else Ran(x.port, Failed(TryFailed(block.name, cause)))
  }

  function Trying(lib: Libs, block: TryBlock, scripts: map<string, NamedScript>, s: Port): Ran {
    if block.script !in scripts then Ran(s, Failed(NoScript(block.name, block.script)))
    else
      match ParseSpec(scripts[block.script].content)
      case Err(e) => Ran(s, Failed(BadScript(block.script, e)))
      case Ok(bs) =>
        var r := Attempts(lib, bs, MaxAttempts(block), s);
        if r.outcome.Failed? then GiveUp(lib, block, scripts, r.outcome.error, r.port) else r
  }

  function Step(lib: Libs, cmd: Command, s: Port): Ran {
    match cmd
    case Do(b) => Exec(lib, b, s)
    case Try(block, scripts) => Trying(lib, block, scripts, s)
  }

  /** The top-level script stops at the first command that does not succeed. */
  function Run(lib: Libs, cmds: seq<Command>, s: Port): Ran {
    if cmds == [] then Ran(s, Done)
    else
      var r := Step(lib, cmds[0], s);
      if r.outcome.Done? then Run(lib, cmds[1..], r.port) else r
  }
}
