/** Whole runs: what every handler keeps of the port, where a script stops, and what a try block decides. */
module Control {
  import opened Wrappers
  import opened Script
  import opened Patterns
  import opened Live

  // ---------- what every handler keeps ----------

  predicate IsSuffix<T(==)>(small: seq<T>, big: seq<T>) {
    |small| <= |big| && small == big[|big| - |small|..]
  }

  /** Input and write outcomes are only taken from the front; transmissions and log lines only added at the end. */
  predicate Extends(s: Port, s': Port) {
    IsSuffix(s'.input, s.input) && IsSuffix(s'.faults, s.faults) && s.tx <= s'.tx && s.log <= s'.log
  }

  lemma SuffixTransitive<T>(a: seq<T>, b: seq<T>, c: seq<T>)
    requires IsSuffix(a, b) && IsSuffix(b, c)
    ensures IsSuffix(a, c)
  {
    assert a == c[|c| - |a|..] by {
      assert b[|b| - |a|..] == c[|c| - |b|..][|b| - |a|..] == c[|c| - |a|..];
    }
  }

  lemma ExtendsTransitive(a: Port, b: Port, c: Port)
    requires Extends(a, b) && Extends(b, c)
    ensures Extends(a, c)
  {
    SuffixTransitive(c.input, b.input, a.input);
    SuffixTransitive(c.faults, b.faults, a.faults);
  }

  /** A handler that has not returned has taken the whole trace. */
  predicate Sound(s: Port, r: Ran) {
    Extends(s, r.port) && (r.outcome.Blocked? ==> r.port.input == [])
  }

  lemma {:induction false} AwaitSound(lib: Libs, p: Pattern, value: string, seen: string, s: Port)
    ensures Sound(s, Await(lib, p, value, seen, s))
    decreases |s.input|
  {
    if s.input != [] {
      var rest := s.(input := s.input[1..]);
      if s.input[0].Char? && !LiveMatch(lib, p, seen + [s.input[0].c], Text.LastLine(seen + [s.input[0].c])) {
        AwaitSound(lib, p, value, seen + [s.input[0].c], rest);
        ExtendsTransitive(s, rest, Await(lib, p, value, seen, s).port);
      }
    }
  }

  lemma {:induction false} WatchSound(n: int, buffer: string, count: nat, s: Port)
    ensures Sound(s, Watch(n, buffer, count, s))
    decreases |s.input|
  {
    if s.input != [] {
      var rest := s.(input := s.input[1..]);
      match s.input[0]
      case Timer =>
        if n != 0 {
          WatchSound(n, buffer, count, rest);
          ExtendsTransitive(s, rest, Watch(n, buffer, count, rest).port);
        }
      case Char(c) =>
        if c == Text.LF {
          var logged := rest.(log := s.log + [Text.TrimLineEnd(buffer + [c])]);
          if !(n > 0 && count + 1 >= n) {
            WatchSound(n, "", count + 1, logged);
            ExtendsTransitive(s, logged, Watch(n, "", count + 1, logged).port);
          }
        } else {
          WatchSound(n, buffer + [c], count, rest);
          ExtendsTransitive(s, rest, Watch(n, buffer + [c], count, rest).port);
        }
    }
  }

  lemma ExecSound(lib: Libs, b: Basic, s: Port)
    ensures Sound(s, Exec(lib, b, s))
  {
    match b
    case Send(v) =>
    case Expect(v) =>
      if ParsePattern(lib, v).Ok? { AwaitSound(lib, ParsePattern(lib, v).value, v, "", s); }
    case Monitor(v) =>
      WatchSound(0, "", 0, s);
      if lib.classify(v).Count? { WatchSound(lib.classify(v).n, "", 0, s); }
  }

  lemma {:induction false} AttemptSound(lib: Libs, bs: seq<Basic>, sofar: Outcome, s: Port)
    requires !sofar.Blocked?
    ensures Sound(s, Attempt(lib, bs, sofar, s))
  {
    if bs != [] {
      var r := Exec(lib, bs[0], s);
      ExecSound(lib, bs[0], s);
      if !r.outcome.Blocked? {
        var next := if r.outcome.Failed? then r.outcome else sofar;
        AttemptSound(lib, bs[1..], next, r.port);
        ExtendsTransitive(s, r.port, Attempt(lib, bs[1..], next, r.port).port);
      }
    }
  }

  lemma {:induction false} AttemptsSound(lib: Libs, bs: seq<Basic>, left: nat, s: Port)
    requires left > 0
    ensures Sound(s, Attempts(lib, bs, left, s))
  {
    var r := Attempt(lib, bs, Done, s);
    AttemptSound(lib, bs, Done, s);
    if r.outcome.Failed? && left > 1 {
      AttemptsSound(lib, bs, left - 1, r.port);
      ExtendsTransitive(s, r.port, Attempts(lib, bs, left - 1, r.port).port);
    }
  }

  lemma {:induction false} RecoverSound(lib: Libs, es: seq<Basic>, s: Port)
    ensures Sound(s, Recover(lib, es, s)) && !Recover(lib, es, s).outcome.Failed?
  {
    if es != [] {
      var r := Exec(lib, es[0], s);
      ExecSound(lib, es[0], s);
      if !r.outcome.Blocked? {
        RecoverSound(lib, es[1..], r.port);
        ExtendsTransitive(s, r.port, Recover(lib, es[1..], r.port).port);
      }
    }
  }

  lemma StepSound(lib: Libs, cmd: Command, s: Port)
    ensures Sound(s, Step(lib, cmd, s))
  {
    match cmd
    case Do(b) => ExecSound(lib, b, s);
    case Try(block, scripts) =>
      if block.script in scripts && ParseSpec(scripts[block.script].content).Ok? {
        var bs := ParseSpec(scripts[block.script].content).value;
        var r := Attempts(lib, bs, MaxAttempts(block), s);
        AttemptsSound(lib, bs, MaxAttempts(block), s);
        if r.outcome.Failed? && block.except in scripts && ParseSpec(scripts[block.except].content).Ok? {
          var es := ParseSpec(scripts[block.except].content).value;
          RecoverSound(lib, es, r.port);
          ExtendsTransitive(s, r.port, Recover(lib, es, r.port).port);
        }
      }
  }

  lemma {:induction false} RunSound(lib: Libs, cmds: seq<Command>, s: Port)
    ensures Sound(s, Run(lib, cmds, s))
  {
    if cmds != [] {
      var r := Step(lib, cmds[0], s);
      StepSound(lib, cmds[0], s);
      if r.outcome.Done? {
        RunSound(lib, cmds[1..], r.port);
        ExtendsTransitive(s, r.port, Run(lib, cmds[1..], r.port).port);
      }
    }
  }

  // ---------- where a script stops, and what its commands consume ----------

  lemma {:induction false} RunSnoc(lib: Libs, cmds: seq<Command>, cmd: Command, s: Port)
    ensures var r := Run(lib, cmds, s);
            Run(lib, cmds + [cmd], s) == if r.outcome.Done? then Step(lib, cmd, r.port) else r
  {
    var all := cmds + [cmd];
    if cmds == [] {
      assert all[1..] == [];
      assert all[0] == cmd;
    } else {
      assert all[0] == cmds[0] && all[1..] == cmds[1..] + [cmd];
      var r := Step(lib, cmds[0], s);
      if r.outcome.Done? {
        RunSnoc(lib, cmds[1..], cmd, r.port);
      }
    }
  }

  lemma RunPrefixStep(lib: Libs, cmds: seq<Command>, i: nat, s: Port)
    requires i < |cmds|
    ensures var r := Run(lib, cmds[..i], s);
            Run(lib, cmds[..i + 1], s) == if r.outcome.Done? then Step(lib, cmds[i], r.port) else r
  {
    assert cmds[..i + 1] == cmds[..i] + [cmds[i]];
    RunSnoc(lib, cmds[..i], cmds[i], s);
  }

  /** The parts of the input taken by the commands that were started, in order. */
  function Segments(lib: Libs, cmds: seq<Command>, s: Port): seq<seq<Event>> {
    if cmds == [] then []
    else
      var r := Step(lib, cmds[0], s);
      var taken := if |r.port.input| <= |s.input| then s.input[..|s.input| - |r.port.input|] else [];
      [taken] + if r.outcome.Done? then Segments(lib, cmds[1..], r.port) else []
  }

  function Concat<T>(parts: seq<seq<T>>): seq<T> {
    if parts == [] then [] else parts[0] + Concat(parts[1..])
  }

  /** Nothing received is lost or read twice: the segments of the started commands, followed by what is
      left, are the input. */
  lemma {:induction false} RunConserves(lib: Libs, cmds: seq<Command>, s: Port)
    ensures Concat(Segments(lib, cmds, s)) + Run(lib, cmds, s).port.input == s.input
  {
    if cmds != [] {
      var r := Step(lib, cmds[0], s);
      StepSound(lib, cmds[0], s);
      var k := |s.input| - |r.port.input|;
      assert s.input == s.input[..k] + r.port.input;
      if r.outcome.Done? {
        RunConserves(lib, cmds[1..], r.port);
        var later := Segments(lib, cmds[1..], r.port);
        assert Segments(lib, cmds, s) == [s.input[..k]] + later;
        assert ([s.input[..k]] + later)[1..] == later;
      } else {
        assert Segments(lib, cmds, s) == [s.input[..k]];
        assert Concat([s.input[..k]]) == s.input[..k] + [];
      }
    }
  }

  /** The started commands are a prefix of the script. All of them but the last succeeded, and the whole
      script ran if and only if the last one succeeded too. */
  lemma {:induction false} RunStopsAtFirstFailure(lib: Libs, cmds: seq<Command>, s: Port)
    ensures var n := |Segments(lib, cmds, s)|;
            var r := Run(lib, cmds, s);
            && n <= |cmds| && r == Run(lib, cmds[..n], s)
            && (forall i :: 0 <= i < n ==> Run(lib, cmds[..i], s).outcome.Done?)
            && (r.outcome.Done? ==> n == |cmds|)
            && (!r.outcome.Done? ==> n > 0 && r == Step(lib, cmds[n - 1], Run(lib, cmds[..n - 1], s).port))
  {
    if cmds != [] {
      var r := Step(lib, cmds[0], s);
      var n := |Segments(lib, cmds, s)|;
      assert forall i :: 0 < i <= |cmds| ==> cmds[..i][0] == cmds[0] && cmds[..i][1..] == cmds[1..][..i - 1];
      if r.outcome.Done? {
        RunStopsAtFirstFailure(lib, cmds[1..], r.port);
        forall i | 0 <= i < n ensures Run(lib, cmds[..i], s).outcome.Done? {
          if i > 0 { assert Run(lib, cmds[..i], s) == Run(lib, cmds[1..][..i - 1], r.port); }
        }
        assert Run(lib, cmds[..n], s) == Run(lib, cmds[1..][..n - 1], r.port);
        if !Run(lib, cmds, s).outcome.Done? {
          assert Run(lib, cmds[..n - 1], s) == Run(lib, cmds[1..][..n - 2], r.port);
          assert cmds[1..][n - 2] == cmds[n - 1];
        }
      } else {
        assert cmds[..0] == [];
        assert cmds[..1] == [cmds[0]];
      }
    }
  }
}
