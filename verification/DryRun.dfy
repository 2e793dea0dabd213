/** The dry run: the same scripts against the lines of a captured input. */
module DryRun {
  import opened Wrappers
  import opened Text
  import opened Script
  import opened Patterns
  import opened Live
  import SendValue

  datatype DryError =
    | DryBadPattern(value: string, reason: PatternError)
    | NotFound(value: string)
    | DryNoScript(script: string)
    | DryBadScript(parse: ParseError)

  /** The next line to look at, and what would have been sent. */
  datatype Dry = Dry(index: nat, tx: seq<string>)

  datatype DryRan = DryRan(at: Dry, error: Option<DryError>)

  const MAX_SHOWN := 10

  /** The first line from i on that matches, or the number of lines. */
  function FindFrom(lib: Libs, p: Pattern, lines: seq<string>, i: nat): (k: nat)
    requires i <= |lines|
    ensures i <= k <= |lines|
    ensures k < |lines| ==> DryMatch(lib, p, lines[k])
    ensures forall m :: i <= m < k ==> !DryMatch(lib, p, lines[m])
    decreases |lines| - i
  {
    if i == |lines| || DryMatch(lib, p, lines[i]) then i else FindFrom(lib, p, lines, i + 1)
  }

  function Skip(lines: seq<string>, i: nat): (j: nat)
    requires i <= |lines|
    ensures i <= j <= |lines|
  {
    if i + MAX_SHOWN > |lines| then |lines| else i + MAX_SHOWN
  }

  /** One command. At top level (strict) a pattern that is not found ends the run; inside a try block it is
      only reported, with all lines used up. */
  function DryBasic(lib: Libs, b: Basic, strict: bool, lines: seq<string>, d: Dry): (r: DryRan)
    requires d.index <= |lines|
    ensures d.index <= r.at.index <= |lines|
  {
    match b
    case Send(v) => DryRan(d.(tx := d.tx + [SendValue.Format(v)]), None)
    case Monitor(_) => DryRan(d.(index := Skip(lines, d.index)), None)
    case Expect(v) =>
      match ParsePattern(lib, v)
      case Err(e) => DryRan(d, Some(DryBadPattern(v, e)))
      case Ok(p) =>
        var k := FindFrom(lib, p, lines, d.index);
        if k < |lines| then DryRan(d.(index := k + 1), None)
        else DryRan(d.(index := |lines|), if strict then Some(NotFound(v)) else None)
  }

  function DryBasics(lib: Libs, bs: seq<Basic>, lines: seq<string>, d: Dry): (r: DryRan)
    requires d.index <= |lines|
    ensures d.index <= r.at.index <= |lines|
  {
    if bs == [] then DryRan(d, None)
    else
      var r := DryBasic(lib, bs[0], false, lines, d);
      if r.error.Some? then r else DryBasics(lib, bs[1..], lines, r.at)
  }

  /** Of a try block only the main script is run, once. */
  function DryStep(lib: Libs, cmd: Command, lines: seq<string>, d: Dry): (r: DryRan)
    requires d.index <= |lines|
    ensures d.index <= r.at.index <= |lines|
  {
    match cmd
    case Do(b) => DryBasic(lib, b, true, lines, d)
    case Try(block, scripts) =>
      if block.script !in scripts then DryRan(d, Some(DryNoScript(block.script)))
      else match ParseSpec(scripts[block.script].content)
           case Err(e) => DryRan(d, Some(DryBadScript(e)))
           case Ok(bs) => DryBasics(lib, bs, lines, d)
  }

  function DrySpec(lib: Libs, cmds: seq<Command>, lines: seq<string>, d: Dry): (r: DryRan)
    requires d.index <= |lines|
    ensures d.index <= r.at.index <= |lines|
  {
    if cmds == [] then DryRan(d, None)
    else
      var r := DryStep(lib, cmds[0], lines, d);
      if r.error.Some? then r else DrySpec(lib, cmds[1..], lines, r.at)
  }

  const START := Dry(0, [])

  // ---------- the loops as written ----------

  method SearchLines(lib: Libs, p: Pattern, lines: seq<string>, start: nat) returns (found: bool, lineIndex: nat)
    requires start <= |lines|
    ensures var k := FindFrom(lib, p, lines, start);
            found == (k < |lines|) && lineIndex == if found then k + 1 else k
  {
    lineIndex := start;
    while lineIndex < |lines|
      invariant start <= lineIndex <= |lines|
      invariant FindFrom(lib, p, lines, start) == FindFrom(lib, p, lines, lineIndex)
    {
      if DryMatch(lib, p, lines[lineIndex]) {
        return true, lineIndex + 1;
      }
      lineIndex := lineIndex + 1;
    }
    return false, lineIndex;
  }

  method ShowLines(lines: seq<string>, start: nat) returns (lineIndex: nat)
    requires start <= |lines|
    ensures lineIndex == Skip(lines, start)
    ensures lineIndex == if start + 10 <= |lines| then start + 10 else |lines|
  {
    lineIndex := start;
    var maxShow := MAX_SHOWN;
    if lineIndex + maxShow > |lines| {
      maxShow := |lines| - lineIndex;
    }
    var i := 0;
    while i < maxShow && lineIndex < |lines|
      invariant 0 <= i <= maxShow && lineIndex == start + i && start + maxShow <= |lines|
    {
      lineIndex := lineIndex + 1;
      i := i + 1;
    }
  }

  /** The commands of a try block from number j on. */
  lemma DryBasicsFrom(lib: Libs, bs: seq<Basic>, j: nat, lines: seq<string>, d: Dry)
    requires j < |bs| && d.index <= |lines|
    ensures var r := DryBasic(lib, bs[j], false, lines, d);
            DryBasics(lib, bs[j..], lines, d)
            == if r.error.Some? then r else DryBasics(lib, bs[j + 1..], lines, r.at)
  {
    assert bs[j..][1..] == bs[j + 1..];
  }

  /** The main script of a try block: an expect that finds nothing is only reported. */
  method DryTry(lib: Libs, bs: seq<Basic>, lines: seq<string>, d: Dry) returns (r: DryRan)
    requires d.index <= |lines|
    ensures r == DryBasics(lib, bs, lines, d)
  {
    var lineIndex: nat, tx := d.index, d.tx;
    var j := 0;
    assert bs[0..] == bs;
    while j < |bs|
      invariant j <= |bs| && lineIndex <= |lines|
      invariant DryBasics(lib, bs, lines, d) == DryBasics(lib, bs[j..], lines, Dry(lineIndex, tx))
    {
      DryBasicsFrom(lib, bs, j, lines, Dry(lineIndex, tx));
      ghost var step := DryBasic(lib, bs[j], false, lines, Dry(lineIndex, tx));
      match bs[j] {
        case Send(v) => tx := tx + [SendValue.Format(v)];
        case Expect(v) =>
          var parsed := ParsePattern(lib, v);
          if parsed.Err? {
            return DryRan(Dry(lineIndex, tx), Some(DryBadPattern(v, parsed.error)));
          }
          var _, next := SearchLines(lib, parsed.value, lines, lineIndex);
          lineIndex := next;
        case Monitor(_) => lineIndex := ShowLines(lines, lineIndex);
      }
      assert step == DryRan(Dry(lineIndex, tx), None);
      j := j + 1;
    }
    return DryRan(Dry(lineIndex, tx), None);
  }

  /** The commands of a script from number i on. */
  lemma DrySpecFrom(lib: Libs, cmds: seq<Command>, i: nat, lines: seq<string>, d: Dry)
    requires i < |cmds| && d.index <= |lines|
    ensures var r := DryStep(lib, cmds[i], lines, d);
            DrySpec(lib, cmds[i..], lines, d)
            == if r.error.Some? then r else DrySpec(lib, cmds[i + 1..], lines, r.at)
  {
    assert cmds[i..][1..] == cmds[i + 1..];
  }

  /** The texts that commands show as sent, in their order. */
  function ShownByOne(b: Basic): seq<string> {
    if b.Send? then [SendValue.Format(b.value)] else []
  }

  function Shown(bs: seq<Basic>): seq<string> {
    if bs == [] then [] else ShownByOne(bs[0]) + Shown(bs[1..])
  }

  function ShownByCommand(cmd: Command): seq<string> {
    match cmd
    case Do(b) => ShownByOne(b)
    case Try(block, scripts) =>
      if block.script in scripts && ParseSpec(scripts[block.script].content).Ok?
      then Shown(ParseSpec(scripts[block.script].content).value) else []
  }

  function ShownBy(cmds: seq<Command>): seq<string> {
    if cmds == [] then [] else ShownByCommand(cmds[0]) + ShownBy(cmds[1..])
  }

  lemma DryBasicShows(lib: Libs, b: Basic, strict: bool, lines: seq<string>, d: Dry)
    requires d.index <= |lines| && DryBasic(lib, b, strict, lines, d).error.None?
    ensures DryBasic(lib, b, strict, lines, d).at.tx == d.tx + ShownByOne(b)
  {
  }

  lemma Associate(a: seq<string>, b: seq<string>, c: seq<string>)
    ensures a + b + c == a + (b + c)
  {
  }

  lemma {:induction false} DryBasicsShow(lib: Libs, bs: seq<Basic>, lines: seq<string>, d: Dry)
    requires d.index <= |lines| && DryBasics(lib, bs, lines, d).error.None?
    ensures DryBasics(lib, bs, lines, d).at.tx == d.tx + Shown(bs)
  {
    if bs != [] {
      DryBasicShows(lib, bs[0], false, lines, d);
      DryBasicsShow(lib, bs[1..], lines, DryBasic(lib, bs[0], false, lines, d).at);
      Associate(d.tx, ShownByOne(bs[0]), Shown(bs[1..]));
    }
  }

  lemma DryStepShows(lib: Libs, cmd: Command, lines: seq<string>, d: Dry)
    requires d.index <= |lines| && DryStep(lib, cmd, lines, d).error.None?
    ensures DryStep(lib, cmd, lines, d).at.tx == d.tx + ShownByCommand(cmd)
  {
    match cmd
    case Do(b) => DryBasicShows(lib, b, true, lines, d);
    case Try(block, scripts) => DryBasicsShow(lib, ParseSpec(scripts[block.script].content).value, lines, d);
  }

  /** A dry run that passes has shown every send of the script, those of try blocks included, once and in order. */
  lemma {:induction false} DryRunShowsSends(lib: Libs, cmds: seq<Command>, lines: seq<string>, d: Dry)
    requires d.index <= |lines| && DrySpec(lib, cmds, lines, d).error.None?
    ensures DrySpec(lib, cmds, lines, d).at.tx == d.tx + ShownBy(cmds)
  {
    if cmds != [] {
      var at := DryStep(lib, cmds[0], lines, d).at;
      DryStepShows(lib, cmds[0], lines, d);
      DryRunShowsSends(lib, cmds[1..], lines, at);
      Associate(d.tx, ShownByCommand(cmds[0]), ShownBy(cmds[1..]));
    }
  }

  /** What ends the dry run at a command. */
  lemma DryStepFails(lib: Libs, cmd: Command, lines: seq<string>, d: Dry)
    requires d.index <= |lines| && DryStep(lib, cmd, lines, d).error.Some?
    ensures match DryStep(lib, cmd, lines, d).error.value
            case NotFound(v) =>
              && cmd == Do(Expect(v)) && ParsePattern(lib, v).Ok?
              && forall k :: d.index <= k < |lines| ==> !DryMatch(lib, ParsePattern(lib, v).value, lines[k])
            case DryBadPattern(v, e) => ParsePattern(lib, v) == Err(e) && (cmd.Do? ==> cmd == Do(Expect(v)))
            case DryNoScript(name) => cmd.Try? && cmd.block.script == name && name !in cmd.scripts
            case DryBadScript(e) => cmd.Try? && cmd.block.script in cmd.scripts && ParseSpec(cmd.scripts[cmd.block.script].content) == Err(e)
  {
    if cmd.Try? && cmd.block.script in cmd.scripts && ParseSpec(cmd.scripts[cmd.block.script].content).Ok? {
      DryBasicsFail(lib, ParseSpec(cmd.scripts[cmd.block.script].content).value, lines, d);
    }
  }

  lemma {:induction false} DryBasicsFail(lib: Libs, bs: seq<Basic>, lines: seq<string>, d: Dry)
    requires d.index <= |lines| && DryBasics(lib, bs, lines, d).error.Some?
    ensures var e := DryBasics(lib, bs, lines, d).error.value;
            e.DryBadPattern? && ParsePattern(lib, e.value) == Err(e.reason)
  {
    if DryBasic(lib, bs[0], false, lines, d).error.None? {
      DryBasicsFail(lib, bs[1..], lines, DryBasic(lib, bs[0], false, lines, d).at);
    }
  }

  /** One turn of the loop over the script. */
  method DryCommand(lib: Libs, command: Command, lines: seq<string>, d: Dry) returns (r: DryRan)
    requires d.index <= |lines|
    ensures r == DryStep(lib, command, lines, d)
  {
    match command {
      case Do(Send(v)) => return DryRan(d.(tx := d.tx + [SendValue.Format(v)]), None);
      case Do(Expect(v)) =>
        var parsed := ParsePattern(lib, v);
        if parsed.Err? {
          return DryRan(d, Some(DryBadPattern(v, parsed.error)));
        }
        var found, lineIndex := SearchLines(lib, parsed.value, lines, d.index);
        return DryRan(d.(index := lineIndex), if found then None else Some(NotFound(v)));
      case Do(Monitor(_)) =>
        var lineIndex := ShowLines(lines, d.index);
        return DryRan(d.(index := lineIndex), None);
      case Try(block, scripts) =>
        if block.script !in scripts {
          return DryRan(d, Some(DryNoScript(block.script)));
        }
        var script := ParseScript(scripts[block.script].content);
        if script.Err? {
          return DryRan(d, Some(DryBadScript(script.error)));
        }
        r := DryTry(lib, script.value, lines, d);
    }
  }

  method ExecuteDryRun(lib: Libs, commands: seq<Command>, input: string) returns (r: DryRan)
    ensures r == DrySpec(lib, commands, Lines(input), START)
    ensures r.error.None? ==> r.at.tx == ShownBy(commands)
  {
    var lines := Lines(input);
    var at := START;
    var i := 0;
    assert commands[0..] == commands;
    while i < |commands|
      invariant i <= |commands| && at.index <= |lines|
      invariant DrySpec(lib, commands, lines, START) == DrySpec(lib, commands[i..], lines, at)
    {
      DrySpecFrom(lib, commands, i, lines, at);
      r := DryCommand(lib, commands[i], lines, at);
      if r.error.Some? {
        return r;
      }
      at := r.at;
      i := i + 1;
    }
    DryRunShowsSends(lib, commands, lines, START);
    return DryRan(at, None);
  }
}
