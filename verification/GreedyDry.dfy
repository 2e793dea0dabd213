/** The dry run takes the first matching line each time. For no kind of pattern does this lose anything: the
    run succeeds whenever some choice of matching lines would. */
module GreedyDry {
  import opened Text
  import opened Script
  import opened Patterns
  import opened Live
  import opened DryRun
  import opened Pointwise

  /** A choice of lines lets command b go from line i to line j: an expect to just after any later matching
      line, a monitor past the lines it shows. */
  ghost predicate Moves(lib: Libs, b: Basic, strict: bool, lines: seq<string>, i: nat, j: nat) {
    match b
    case Send(_) => i == j <= |lines|
    case Monitor(_) => i <= |lines| && j == Skip(lines, i)
    case Expect(v) =>
      && ParsePattern(lib, v).Ok?
      && var p := ParsePattern(lib, v).value;
         || (i < j <= |lines| && DryMatch(lib, p, lines[j - 1]))
         || (!strict && i <= j == |lines| && forall m :: i <= m < |lines| ==> !DryMatch(lib, p, lines[m]))
  }

  ghost predicate MovesAll(lib: Libs, bs: seq<Basic>, lines: seq<string>, i: nat, j: nat) {
    if bs == [] then i == j <= |lines|
    else exists k: nat :: Moves(lib, bs[0], false, lines, i, k) && MovesAll(lib, bs[1..], lines, k, j)
  }

  ghost predicate CommandMoves(lib: Libs, cmd: Command, lines: seq<string>, i: nat, j: nat) {
    match cmd
    case Do(b) => Moves(lib, b, true, lines, i, j)
    case Try(block, scripts) =>
      && block.script in scripts && ParseSpec(scripts[block.script].content).Ok?
      && MovesAll(lib, ParseSpec(scripts[block.script].content).value, lines, i, j)
  }

  /** A schedule: the line before each command and at the end, each command moving to the next. */
  ghost predicate Schedule(lib: Libs, cmds: seq<Command>, lines: seq<string>, c: seq<nat>) {
    |c| == |cmds| + 1 && c[0] == 0 && forall i :: 0 <= i < |cmds| ==> CommandMoves(lib, cmds[i], lines, c[i], c[i + 1])
  }

  lemma BasicIsLeast(lib: Libs, b: Basic, strict: bool, lines: seq<string>, d: Dry, i: nat, j: nat)
    requires d.index <= i <= |lines| && Moves(lib, b, strict, lines, i, j)
    ensures DryBasic(lib, b, strict, lines, d).error.None? && DryBasic(lib, b, strict, lines, d).at.index <= j
  {
    if b.Expect? {
      var p := ParsePattern(lib, b.value).value;
      var k := FindFrom(lib, p, lines, d.index);
      if i < j <= |lines| && DryMatch(lib, p, lines[j - 1]) {
        assert !(d.index <= j - 1 < k);
      }
    }
  }

  lemma BasicMoves(lib: Libs, b: Basic, strict: bool, lines: seq<string>, d: Dry)
    requires d.index <= |lines| && DryBasic(lib, b, strict, lines, d).error.None?
    ensures Moves(lib, b, strict, lines, d.index, DryBasic(lib, b, strict, lines, d).at.index)
  {
  }

  lemma {:induction false} BasicsAreLeast(lib: Libs, bs: seq<Basic>, lines: seq<string>, d: Dry, i: nat, j: nat)
    requires d.index <= i <= |lines| && MovesAll(lib, bs, lines, i, j)
    ensures DryBasics(lib, bs, lines, d).error.None? && DryBasics(lib, bs, lines, d).at.index <= j
  {
    if bs != [] {
      var k: nat :| Moves(lib, bs[0], false, lines, i, k) && MovesAll(lib, bs[1..], lines, k, j);
      BasicIsLeast(lib, bs[0], false, lines, d, i, k);
      BasicsAreLeast(lib, bs[1..], lines, DryBasic(lib, bs[0], false, lines, d).at, k, j);
    }
  }

  lemma {:induction false} BasicsMove(lib: Libs, bs: seq<Basic>, lines: seq<string>, d: Dry)
    requires d.index <= |lines| && DryBasics(lib, bs, lines, d).error.None?
    ensures MovesAll(lib, bs, lines, d.index, DryBasics(lib, bs, lines, d).at.index)
  {
    if bs != [] {
      var r := DryBasic(lib, bs[0], false, lines, d);
      BasicMoves(lib, bs[0], false, lines, d);
      BasicsMove(lib, bs[1..], lines, r.at);
    }
  }

  lemma StepIsLeast(lib: Libs, cmd: Command, lines: seq<string>, d: Dry, i: nat, j: nat)
    requires d.index <= i <= |lines| && CommandMoves(lib, cmd, lines, i, j)
    ensures DryStep(lib, cmd, lines, d).error.None? && DryStep(lib, cmd, lines, d).at.index <= j <= |lines|
  {
    match cmd
    case Do(b) => BasicIsLeast(lib, b, true, lines, d, i, j);
    case Try(block, scripts) =>
      var bs := ParseSpec(scripts[block.script].content).value;
      BasicsAreLeast(lib, bs, lines, d, i, j);
      MovesWithin(lib, bs, lines, i, j);
  }

  lemma {:induction false} MovesWithin(lib: Libs, bs: seq<Basic>, lines: seq<string>, i: nat, j: nat)
    requires MovesAll(lib, bs, lines, i, j)
    ensures j <= |lines|
  {
    if bs != [] {
      var k: nat :| Moves(lib, bs[0], false, lines, i, k) && MovesAll(lib, bs[1..], lines, k, j);
      MovesWithin(lib, bs[1..], lines, k, j);
    }
  }

  lemma StepMoves(lib: Libs, cmd: Command, lines: seq<string>, d: Dry)
    requires d.index <= |lines| && DryStep(lib, cmd, lines, d).error.None?
    ensures CommandMoves(lib, cmd, lines, d.index, DryStep(lib, cmd, lines, d).at.index)
  {
    match cmd
    case Do(b) => BasicMoves(lib, b, true, lines, d);
    case Try(block, scripts) => BasicsMove(lib, ParseSpec(scripts[block.script].content).value, lines, d);
  }

  /** lineIndex before each command and at the end. */
  function LineIndexes(lib: Libs, cmds: seq<Command>, lines: seq<string>, d: Dry): (c: seq<nat>)
    requires d.index <= |lines|
    ensures |c| == |cmds| + 1 && c[0] == d.index && forall i :: 0 <= i < |c| ==> c[i] <= |lines|
  {
    if cmds == [] then [d.index] else [d.index] + LineIndexes(lib, cmds[1..], lines, DryStep(lib, cmds[0], lines, d).at)
  }

  ghost predicate MovesFrom(lib: Libs, cmds: seq<Command>, lines: seq<string>, c: seq<nat>) {
    |c| == |cmds| + 1 && c[0] <= |lines|
    && forall i :: 0 <= i < |cmds| ==> CommandMoves(lib, cmds[i], lines, c[i], c[i + 1])
  }

  lemma {:induction false} DryIsLeast(lib: Libs, cmds: seq<Command>, lines: seq<string>, d: Dry, c: seq<nat>)
    requires d.index <= |lines| && MovesFrom(lib, cmds, lines, c) && d.index <= c[0]
    ensures DrySpec(lib, cmds, lines, d).error.None? && NowhereLater(LineIndexes(lib, cmds, lines, d), c)
  {
    if cmds != [] {
      StepIsLeast(lib, cmds[0], lines, d, c[0], c[1]);
      var r := DryStep(lib, cmds[0], lines, d);
      assert MovesFrom(lib, cmds[1..], lines, c[1..]) by {
        forall i | 0 <= i < |cmds[1..]| ensures CommandMoves(lib, cmds[1..][i], lines, c[1..][i], c[1..][i + 1]) {
          assert CommandMoves(lib, cmds[i + 1], lines, c[i + 1], c[i + 1 + 1]);
        }
      }
      DryIsLeast(lib, cmds[1..], lines, r.at, c[1..]);
      assert forall i :: 0 < i < |c| ==> c[i] == c[1..][i - 1];
    }
  }

  lemma {:induction false} DryMoves(lib: Libs, cmds: seq<Command>, lines: seq<string>, d: Dry)
    requires d.index <= |lines| && DrySpec(lib, cmds, lines, d).error.None?
    ensures MovesFrom(lib, cmds, lines, LineIndexes(lib, cmds, lines, d))
    ensures LineIndexes(lib, cmds, lines, d)[|cmds|] == DrySpec(lib, cmds, lines, d).at.index
  {
    if cmds != [] {
      var r := DryStep(lib, cmds[0], lines, d);
      StepMoves(lib, cmds[0], lines, d);
      DryMoves(lib, cmds[1..], lines, r.at);
      var c := LineIndexes(lib, cmds, lines, d);
      assert c[1..] == LineIndexes(lib, cmds[1..], lines, r.at);
      forall i | 0 <= i < |cmds| ensures CommandMoves(lib, cmds[i], lines, c[i], c[i + 1]) {
        if i > 0 {
          assert CommandMoves(lib, cmds[1..][i - 1], lines, c[1..][i - 1], c[1..][i - 1 + 1]);
        }
      }
    }
  }

  /** A script of any commands passes the dry run if and only if some choice of lines is a schedule, strictly
      later matching lines for its top-level expects; then the run's own line indexes are one, never past
      the end of the capture, and at every command the least of all schedules. */
  lemma DryRunIsComplete(lib: Libs, cmds: seq<Command>, input: string)
    ensures var lines := Lines(input);
            var own := LineIndexes(lib, cmds, lines, START);
            && (DrySpec(lib, cmds, lines, START).error.None? <==> exists c :: Schedule(lib, cmds, lines, c))
            && (DrySpec(lib, cmds, lines, START).error.None? ==> Schedule(lib, cmds, lines, own))
            && (forall c :: Schedule(lib, cmds, lines, c) ==> NowhereLater(own, c))
            && (forall i :: 0 <= i <= |cmds| ==> own[i] <= |lines|)
  {
    var lines := Lines(input);
    if DrySpec(lib, cmds, lines, START).error.None? {
      DryMoves(lib, cmds, lines, START);
      assert Schedule(lib, cmds, lines, LineIndexes(lib, cmds, lines, START));
    }
    forall c | Schedule(lib, cmds, lines, c)
      ensures DrySpec(lib, cmds, lines, START).error.None? && NowhereLater(LineIndexes(lib, cmds, lines, START), c)
    {
      assert MovesFrom(lib, cmds, lines, c);
      DryIsLeast(lib, cmds, lines, START, c);
    }
  }
}
