/** The live interpreter as written: handlers that update the port in loops, each proved to have the
    effect that module Live specifies. */
module Interpreter {
  import opened Wrappers
  import opened Text
  import opened Script
  import opened Patterns
  import opened Live
  import opened MonitorMeaning
  import SendValue

  class SerialExpect {
    const lib: Libs
    var input: seq<Event>
    var faults: seq<bool>
    var tx: seq<string>
    var log: seq<string>

    constructor (lib: Libs, input: seq<Event>, faults: seq<bool>)
      ensures this.lib == lib && State() == Port(input, faults, [], [])
    {
      this.lib, this.input, this.faults, this.tx, this.log := lib, input, faults, [], [];
    }

    ghost function State(): Port
      reads this
    {
      Port(input, faults, tx, log)
    }

    method HandleSend(value: string) returns (o: Outcome)
      modifies this
      ensures Ran(State(), o) == Transmit(value, old(State()))
      ensures input == old(input) && log == old(log) && faults == if old(faults) == [] then [] else old(faults)[1..]
      ensures o.Failed? <==> old(faults) != [] && old(faults)[0]
      ensures o.Failed? ==> o.error.WriteFailed? && tx == old(tx)
      ensures !o.Failed? ==> o.Done? && |tx| == |old(tx)| + 1 && tx[..|old(tx)|] == old(tx)
      ensures o.Done? ==>
                && (forall t :: value == "'" + t + "'" ==> tx[|old(tx)|] == t + "\r")
                && (forall t :: value == "\"" + t + "\"" ==> tx[|old(tx)|] == SendValue.Decode(t))
                && (SendValue.Unquoted(value) ==> tx[|old(tx)|] == value)
    {
      SendValue.FormatMeaning("", value);
      forall t | value == "'" + t + "'" || value == "\"" + t + "\""
        ensures value == "'" + t + "'" ==> SendValue.Format(value) == t + "\r"
        ensures value == "\"" + t + "\"" ==> SendValue.Format(value) == SendValue.Decode(t)
      {
        SendValue.FormatMeaning(t, value);
      }
      var toSend: string;
      if |value| >= 2 {
        var first, last, content := value[0], value[|value| - 1], value[1..|value| - 1];
        if first == '\'' && last == '\'' {
          toSend := content + [CR];
        } else if first == '"' && last == '"' {
          toSend := ReplaceAll(content, [SendValue.ESC, 'r'], [CR]);
          toSend := ReplaceAll(toSend, [SendValue.ESC, 'n'], [LF]);
        } else {
          toSend := value;
        }
      } else {
        toSend := value;
      }
      var fails := false;
      if faults != [] {
        fails := faults[0];
        faults := faults[1..];
      }
      if fails {
        return Failed(WriteFailed(toSend));
      }
      tx := tx + [toSend];
      return Done;
    }

    method HandleExpect(value: string) returns (o: Outcome)
      modifies this
      ensures Ran(State(), o) == Expecting(lib, value, old(State()))
      ensures ParsePattern(lib, value).Err? ==>
                o == Failed(BadPattern(value, ParsePattern(lib, value).error)) && State() == old(State())
    {
      var parsed := ParsePattern(lib, value);
      if parsed.Err? {
        return Failed(BadPattern(value, parsed.error));
      }
      var p := parsed.value;
      var buffer, currentLine := "", "";
      while input != []
        invariant currentLine == LastLine(buffer)
        invariant Expecting(lib, value, old(State())) == Await(lib, p, value, buffer, State())
        decreases |input|
      {
        var event := input[0];
        input := input[1..];
        if event.Timer? {
          return Failed(TimedOut(value));
        }
        LastLineStep(buffer, event.c);
        buffer := buffer + [event.c];
        currentLine := currentLine + [event.c];
        if event.c == LF {
          currentLine := "";
        }
        if LiveMatch(lib, p, buffer, currentLine) {
          return Done;
        }
      }
      return Blocked;
    }

    method HandleMonitor(value: string) returns (o: Outcome)
      modifies this
      ensures Ran(State(), o) == Monitoring(lib, value, old(State()))
      ensures value != "" && lib.classify(value).Invalid? ==> o == Failed(BadMonitor(value)) && State() == old(State())
      ensures value == "" || lib.classify(value).Duration? ==>
                (o.Done? <==> exists i :: 0 <= i < |old(input)| && old(input)[i].Timer?)
      ensures value != "" && lib.classify(value).Count? ==>
                var n := lib.classify(value).n;
                && (n > 0 ==> (o.Done? <==> Newlines(Received(old(input))) >= n))
                && (n > 0 && o.Done? ==> |log| == |old(log)| + n)
                && (n < 0 ==> o.Blocked?)
    {
      MonitorVerdict(lib, value, State());
      var maxLines := 0;
      if value != "" {
        var span := lib.classify(value);
        if span.Invalid? {
          return Failed(BadMonitor(value));
        }
        if span.Count? {
          maxLines := span.n;
        }
      }
      var buffer := "";
      var lineCount: nat := 0;
      while input != []
        invariant Monitoring(lib, value, old(State())) == Watch(maxLines, buffer, lineCount, State())
        decreases |input|
      {
        var event := input[0];
        input := input[1..];
        if event.Timer? {
          if maxLines == 0 {
            return Done;
          }
        } else {
          buffer := buffer + [event.c];
          if event.c == LF {
            log := log + [TrimLineEnd(buffer)];
            buffer := "";
            lineCount := lineCount + 1;
            if maxLines > 0 && lineCount >= maxLines {
              return Done;
            }
          }
        }
      }
      return Blocked;
    }

    method Handle(b: Basic) returns (o: Outcome)
      modifies this
      ensures Ran(State(), o) == Exec(lib, b, old(State()))
    {
      match b
      case Send(v) => o := HandleSend(v);
      case Expect(v) => o := HandleExpect(v);
      case Monitor(v) => o := HandleMonitor(v);
    }

    /** One attempt: an error is remembered, and the loop goes on. */
    method RunAttempt(commands: seq<Basic>) returns (lastError: Outcome)
      modifies this
      ensures Ran(State(), lastError) == Attempt(lib, commands, Done, old(State()))
    {
      lastError := Done;
      var i := 0;
      assert commands[0..] == commands;
      while i < |commands|
        invariant i <= |commands|
        invariant !lastError.Blocked?
        invariant Attempt(lib, commands, Done, old(State())) == Attempt(lib, commands[i..], lastError, State())
      {
        assert commands[i..][1..] == commands[i + 1..];
        var r := Handle(commands[i]);
        if r.Blocked? {
          return Blocked;
        }
        if r.Failed? {
          lastError := r;
        }
        i := i + 1;
      }
    }

    /** The except script: errors are logged only. */
    method RunExcept(exceptCommands: seq<Basic>) returns (o: Outcome)
      modifies this
      ensures Ran(State(), o) == Recover(lib, exceptCommands, old(State()))
    {
      var i := 0;
      assert exceptCommands[0..] == exceptCommands;
      while i < |exceptCommands|
        invariant i <= |exceptCommands|
        invariant Recover(lib, exceptCommands, old(State())) == Recover(lib, exceptCommands[i..], State())
      {
        assert exceptCommands[i..][1..] == exceptCommands[i + 1..];
        var r := Handle(exceptCommands[i]);
        if r.Blocked? {
          return Blocked;
        }
        i := i + 1;
      }
      return Done;
    }

    method HandleTry(block: TryBlock, scripts: map<string, NamedScript>) returns (o: Outcome)
      modifies this
      ensures Ran(State(), o) == Trying(lib, block, scripts, old(State()))
    {
      if block.script !in scripts {
        return Failed(NoScript(block.name, block.script));
      }
      var parsed := ParseScript(scripts[block.script].content);
      if parsed.Err? {
        return Failed(BadScript(block.script, parsed.error));
      }
      var commands := parsed.value;
      var maxRetries := 1;
      if block.retry {
        maxRetries := 2;
      }
      var lastError := Done;
      var attempt := 1;
      while attempt <= maxRetries
        invariant 1 <= attempt <= maxRetries + 1
        invariant attempt <= maxRetries ==>
            Attempts(lib, commands, MaxAttempts(block), old(State()))
            == Attempts(lib, commands, maxRetries + 1 - attempt, State())
        invariant attempt > maxRetries ==>
            lastError.Failed?
            && Ran(State(), lastError) == Attempts(lib, commands, MaxAttempts(block), old(State()))
      {
        lastError := RunAttempt(commands);
        if !lastError.Failed? {
          return lastError;
        }
        attempt := attempt + 1;
      }
      if block.except != "" {
        if block.except !in scripts {
          return Failed(NoExcept(block.name, block.except));
        }
        var recovery := ParseScript(scripts[block.except].content);
        if recovery.Err? {
          return Failed(BadExcept(block.except, recovery.error));
        }
        var r := RunExcept(recovery.value);
        if r.Blocked? {
          return Blocked;
        }
      }
      return Failed(TryFailed(block.name, lastError.error));
    }

    method ExecuteScript(commands: seq<Command>) returns (o: Outcome)
      modifies this
      ensures Ran(State(), o) == Run(lib, commands, old(State()))
    {
      var i := 0;
      assert commands[0..] == commands;
      while i < |commands|
        invariant i <= |commands|
        invariant Run(lib, commands, old(State())) == Run(lib, commands[i..], State())
      {
        assert commands[i..][1..] == commands[i + 1..];
        match commands[i] {
          case Do(b) => o := Handle(b);
          case Try(block, scripts) => o := HandleTry(block, scripts);
        }
        if !o.Done? {
          return o;
        }
        i := i + 1;
      }
      return Done;
    }
  }
}
