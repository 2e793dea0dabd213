/** The dry run predicts the live run. A script of sends and expects that passes the dry run on a capture
    also succeeds live on the characters of that capture, and transmits what the dry run showed, although
    live matching works on partial lines and may match earlier. One family of captures is the exception,
    and it is characterised exactly. */
module Prediction {
  import opened Wrappers
  import opened Text
  import opened Script
  import opened Patterns
  import opened Live
  import opened ExpectMeaning
  import opened DryRun

  /** Only sends and expects. */
  predicate Plain(cmds: seq<Command>) {
    forall i :: 0 <= i < |cmds| ==> cmds[i].Do? && !cmds[i].b.Monitor?
  }

  function CountExpects(cmds: seq<Command>): nat {
    if cmds == [] then 0
    else (if cmds[0].Do? && cmds[0].b.Expect? then 1 else 0) + CountExpects(cmds[1..])
  }

  function Typed(text: string): (es: seq<Event>)
    ensures |es| == |text| && forall i :: 0 <= i < |es| ==> es[i] == Char(text[i])
  {
    seq(|text|, i requires 0 <= i < |text| => Char(text[i]))
  }

  /** A port that will receive text, with no timer firing and no failing write. */
  function Feed(text: string, tx: seq<string>, log: seq<string>): Port {
    Port(Typed(text), [], tx, log)
  }

  predicate AllBlank(ls: seq<string>) {
    forall i :: 0 <= i < |ls| ==> ls[i] == ""
  }

  /** The live rest starts exactly where the next line to search starts. */
  predicate AtLineStart(rest: string, ls: seq<string>) {
    ls != [] && rest == Join(ls)
  }

  /** The live rest still holds the end of an earlier line, and its newline. */
  predicate InEarlierLine(rest: string, ls: seq<string>, u: string) {
    ls != [] && rest == u + [LF] + Join(ls)
  }

  /** The live run is not ahead of the dry run: the lines still to search are all still to come. */
  ghost predicate NotAhead(rest: string, ls: seq<string>) {
    ls == [] || AtLineStart(rest, ls) || exists u :: InEarlierLine(rest, ls, u)
  }

  /** Every line left is empty, the live run stands at the first of them, and each is needed by an expect:
      the last expect will see no character. */
  predicate Stranded(cmds: seq<Command>, rest: string, ls: seq<string>) {
    AtLineStart(rest, ls) && AllBlank(ls) && CountExpects(cmds) == |ls|
  }

  // ---------- one expect ----------

  lemma HitOnTyped(lib: Libs, p: Pattern, a: string, b: string)
    requires a != ""
    ensures HitAt(lib, p, Typed(a + b), |a|) == Shows(lib, p, a)
  {
    assert TextOf(Typed(a + b)[..|a|]) == a;
  }

  /** If the text up to the end of a prefix shows the pattern, the expect succeeds within that prefix. */
  lemma ExpectWithin(lib: Libs, v: string, p: Pattern, a: string, b: string, tx: seq<string>, log: seq<string>)
    returns (k: nat)
    requires ParsePattern(lib, v) == Ok(p) && Shows(lib, p, a)
    ensures 0 < k <= |a|
    ensures Expecting(lib, v, Feed(a + b, tx, log)) == Ran(Feed(a[k..] + b, tx, log), Done)
    ensures Shows(lib, p, a[..k])
  {
    var s := Feed(a + b, tx, log);
    HitOnTyped(lib, p, a, b);
    ExpectEndsBy(lib, v, p, s, |a|);
    k := Used(s, Expecting(lib, v, s));
    assert s.input[k..] == Typed(a[k..] + b);
    assert TextOf(s.input[..k]) == a[..k];
  }

  /** A matching line shows the pattern at its end, whatever lines came before it. */
  lemma LineEndShows(lib: Libs, p: Pattern, pre: string, line: string)
    requires OneLine(line) && DryMatch(lib, p, line) && pre + line != ""
    requires pre == "" || pre[|pre| - 1] == LF
    ensures Shows(lib, p, pre + line)
  {
    if pre == "" {
      assert pre + line == line;
      LastLineOfOneLine(line);
    } else {
      var w := pre[..|pre| - 1];
      assert pre == w + [LF];
      LastLineAfterNewline(w, line);
    }
    DryMatchIsLive(lib, p, pre, line);
  }

  /** The lines before line k, each with its newline, and the lines after it. */
  function Before(ls: seq<string>, k: nat): string
    requires k <= |ls|
  {
    if k == 0 then "" else ls[0] + [LF] + Before(ls[1..], k - 1)
  }

  lemma {:induction false} JoinAround(ls: seq<string>, k: nat)
    requires k < |ls|
    ensures Join(ls) == Before(ls, k) + ls[k] + if k + 1 < |ls| then [LF] + Join(ls[k + 1..]) else ""
    ensures k > 0 ==> Before(ls, k) != "" && Before(ls, k)[|Before(ls, k)| - 1] == LF
  {
    if k > 0 {
      JoinAround(ls[1..], k - 1);
      assert ls[1..][k..] == ls[k + 1..];
      var b := Before(ls[1..], k - 1);
      assert Before(ls, k) == ls[0] + [LF] + b;
      if k == 1 {
        assert b == "";
        assert Before(ls, k)[|Before(ls, k)| - 1] == LF;
      }
    } else {
      assert ls[0..] == ls;
    }
  }

  /** What is left for the live run after the dry run matched line k, when it stopped at the end of that
      line or earlier with u still to read of the matched part. */
  lemma RestAfterMatch(ls: seq<string>, k: nat, u: string)
    requires k < |ls|
    ensures var after := if k + 1 < |ls| then [LF] + Join(ls[k + 1..]) else "";
            NotAhead(u + after, ls[k + 1..])
            && !AtLineStart(u + after, ls[k + 1..])
  {
    var after := if k + 1 < |ls| then [LF] + Join(ls[k + 1..]) else "";
    if k + 1 < |ls| {
      assert u + after == u + [LF] + Join(ls[k + 1..]);
      assert InEarlierLine(u + after, ls[k + 1..], u);
    }
  }

  /** The text before line k's end, seen from the live run's place. */
  lemma PrefixToLine(rest: string, ls: seq<string>, k: nat) returns (pre: string)
    requires k < |ls| && NotAhead(rest, ls)
    ensures rest == pre + ls[k] + if k + 1 < |ls| then [LF] + Join(ls[k + 1..]) else ""
    ensures pre == "" || pre[|pre| - 1] == LF
    ensures pre == "" ==> k == 0 && AtLineStart(rest, ls)
    ensures AtLineStart(rest, ls) && k == 0 ==> pre == ""
  {
    JoinAround(ls, k);
    var after := if k + 1 < |ls| then [LF] + Join(ls[k + 1..]) else "";
    if AtLineStart(rest, ls) {
      pre := Before(ls, k);
    } else {
      var u :| InEarlierLine(rest, ls, u);
      pre := u + [LF] + Before(ls, k);
      assert rest == pre + ls[k] + after;
      if k == 0 { assert pre == u + [LF]; }
    }
  }

  /** One expect that the dry run satisfies with line k, outside the corner where the live run stands at the
      start of a blank line k: the live run satisfies it by the end of line k. */
  lemma ExpectFollows(lib: Libs, v: string, p: Pattern, rest: string, ls: seq<string>, k: nat, tx: seq<string>, log: seq<string>)
    returns (rest': string)
    requires ParsePattern(lib, v) == Ok(p) && k < |ls| && NotAhead(rest, ls)
    requires OneLine(ls[k]) && DryMatch(lib, p, ls[k])
    requires !(k == 0 && AtLineStart(rest, ls) && ls[0] == "")
    ensures Expecting(lib, v, Feed(rest, tx, log)) == Ran(Feed(rest', tx, log), Done)
    ensures NotAhead(rest', ls[k + 1..]) && !AtLineStart(rest', ls[k + 1..])
  {
    var pre := PrefixToLine(rest, ls, k);
    var after := if k + 1 < |ls| then [LF] + Join(ls[k + 1..]) else "";
    LineEndShows(lib, p, pre, ls[k]);
    var n := ExpectWithin(lib, v, p, pre + ls[k], after, tx, log);
    rest' := (pre + ls[k])[n..] + after;
    RestAfterMatch(ls, k, (pre + ls[k])[n..]);
  }

  /** The corner: at the start of a blank line that the pattern matches. The newline itself completes the
      match, if there is one; otherwise the live run waits forever. */
  lemma ExpectOnBlank(lib: Libs, v: string, p: Pattern, rest: string, ls: seq<string>, tx: seq<string>, log: seq<string>)
    requires ParsePattern(lib, v) == Ok(p) && AtLineStart(rest, ls) && ls[0] == "" && DryMatch(lib, p, "")
    ensures |ls| > 1 ==>
              Expecting(lib, v, Feed(rest, tx, log)) == Ran(Feed(Join(ls[1..]), tx, log), Done)
              && AtLineStart(Join(ls[1..]), ls[1..])
    ensures |ls| == 1 ==> Expecting(lib, v, Feed(rest, tx, log)).outcome == Blocked
  {
    if |ls| > 1 {
      assert rest == [LF] + Join(ls[1..]);
      LineEndShows(lib, p, [LF], "");
      assert [LF] + "" == [LF];
      var k := ExpectWithin(lib, v, p, [LF], Join(ls[1..]), tx, log);
      assert [LF][1..] + Join(ls[1..]) == Join(ls[1..]);
    } else {
      assert Typed(rest) == [];
    }
  }

  // ---------- whole scripts ----------

  /** The dry run needs a line for every expect. */
  lemma {:induction false} DryNeedsLines(lib: Libs, cmds: seq<Command>, lines: seq<string>, d: Dry)
    requires Plain(cmds) && d.index <= |lines| && DrySpec(lib, cmds, lines, d).error.None?
    ensures CountExpects(cmds) <= |lines| - d.index
  {
    if cmds != [] {
      var r := DryStep(lib, cmds[0], lines, d);
      assert Plain(cmds[1..]);
      DryNeedsLines(lib, cmds[1..], lines, r.at);
    }
  }

  /** One expect that the dry run satisfies with line k, from any place not ahead: the live run satisfies it,
      or stands before the very last line, which is blank. It stands at a line start again only after a
      blank line matched at its start. */
  lemma OneExpect(lib: Libs, v: string, p: Pattern, rest: string, ls: seq<string>, k: nat, tx: seq<string>, log: seq<string>)
    returns (rest': string)
    requires ParsePattern(lib, v) == Ok(p) && k < |ls| && NotAhead(rest, ls)
    requires OneLine(ls[k]) && DryMatch(lib, p, ls[k])
    ensures var blank := k == 0 && AtLineStart(rest, ls) && ls[0] == "";
            && (blank && |ls| == 1 ==> Expecting(lib, v, Feed(rest, tx, log)).outcome == Blocked)
            && (!(blank && |ls| == 1) ==>
                  && Expecting(lib, v, Feed(rest, tx, log)) == Ran(Feed(rest', tx, log), Done)
                  && NotAhead(rest', ls[k + 1..])
                  && (AtLineStart(rest', ls[k + 1..]) <==> blank))
  {
    if k == 0 && AtLineStart(rest, ls) && ls[0] == "" {
      ExpectOnBlank(lib, v, p, rest, ls, tx, log);
      rest' := if |ls| > 1 then Join(ls[1..]) else "";
    } else {
      rest' := ExpectFollows(lib, v, p, rest, ls, k, tx, log);
    }
  }

  /** How being stranded carries over such an expect. */
  lemma StrandedStep(cmds: seq<Command>, rest: string, ls: seq<string>, k: nat, rest': string)
    requires cmds != [] && cmds[0].Do? && cmds[0].b.Expect? && k < |ls|
    requires CountExpects(cmds[1..]) <= |ls| - k - 1
    requires var blank := k == 0 && AtLineStart(rest, ls) && ls[0] == "";
             if blank && |ls| == 1 then true else AtLineStart(rest', ls[k + 1..]) <==> blank
    ensures var blank := k == 0 && AtLineStart(rest, ls) && ls[0] == "";
            if blank && |ls| == 1 then Stranded(cmds, rest, ls)
            else Stranded(cmds, rest, ls) <==> Stranded(cmds[1..], rest', ls[k + 1..])
  {
    if k == 0 {
      assert AllBlank(ls) <==> ls[0] == "" && AllBlank(ls[1..]) by {
        assert forall i :: 0 < i < |ls| ==> ls[i] == ls[1..][i - 1];
      }
    }
  }

  /** The live run of cmds from rest ends as the dry run of cmds from d predicts. */
  ghost predicate Follows(lib: Libs, cmds: seq<Command>, lines: seq<string>, d: Dry, rest: string, log: seq<string>)
    requires d.index <= |lines|
  {
    var live := Run(lib, cmds, Feed(rest, d.tx, log));
    if Stranded(cmds, rest, lines[d.index..]) then live.outcome == Blocked
    else live.outcome == Done && live.port.tx == DrySpec(lib, cmds, lines, d).at.tx
  }

  /** Prediction carries over a command that both runs complete. */
  lemma FollowsStep(lib: Libs, cmds: seq<Command>, lines: seq<string>, d: Dry, rest: string, rest': string, log: seq<string>)
    requires cmds != [] && d.index <= |lines|
    requires DryStep(lib, cmds[0], lines, d).error.None?
    requires Step(lib, cmds[0], Feed(rest, d.tx, log)) == Ran(Feed(rest', DryStep(lib, cmds[0], lines, d).at.tx, log), Done)
    requires Stranded(cmds, rest, lines[d.index..])
             <==> Stranded(cmds[1..], rest', lines[DryStep(lib, cmds[0], lines, d).at.index..])
    requires Follows(lib, cmds[1..], lines, DryStep(lib, cmds[0], lines, d).at, rest', log)
    ensures Follows(lib, cmds, lines, d, rest, log)
  {
  }

  lemma {:induction false} RunFollows(lib: Libs, cmds: seq<Command>, lines: seq<string>, d: Dry, rest: string, log: seq<string>)
    requires Plain(cmds) && d.index <= |lines| && forall i :: 0 <= i < |lines| ==> OneLine(lines[i])
    requires DrySpec(lib, cmds, lines, d).error.None?
    requires NotAhead(rest, lines[d.index..])
    ensures Follows(lib, cmds, lines, d, rest, log)
    decreases |cmds|
  {
    if cmds != [] {
      var r := DryStep(lib, cmds[0], lines, d);
      assert Plain(cmds[1..]);
      assert r.error.None? && DrySpec(lib, cmds[1..], lines, r.at).error.None?;
      if cmds[0].b.Send? {
        assert CountExpects(cmds) == CountExpects(cmds[1..]);
        RunFollows(lib, cmds[1..], lines, r.at, rest, log);
        FollowsStep(lib, cmds, lines, d, rest, rest, log);
      } else {
        RunFollowsExpect(lib, cmds, lines, d, rest, log);
      }
    }
  }

  /** The line on which an expect of the dry run succeeds, counted from where it began. */
  lemma DryExpectFound(lib: Libs, v: string, lines: seq<string>, d: Dry) returns (p: Pattern, k: nat)
    requires d.index <= |lines| && DryBasic(lib, Expect(v), true, lines, d).error.None?
    ensures var ls, at := lines[d.index..], DryBasic(lib, Expect(v), true, lines, d).at;
            && ParsePattern(lib, v) == Ok(p) && k < |ls| && DryMatch(lib, p, ls[k]) && ls[k] == lines[d.index + k]
            && at == Dry(d.index + k + 1, d.tx) && ls[k + 1..] == lines[at.index..]
  {
    p := ParsePattern(lib, v).value;
    k := FindFrom(lib, p, lines, d.index) - d.index;
  }

  lemma {:induction false} RunFollowsExpect(lib: Libs, cmds: seq<Command>, lines: seq<string>, d: Dry, rest: string, log: seq<string>)
    requires Plain(cmds) && d.index <= |lines| && forall i :: 0 <= i < |lines| ==> OneLine(lines[i])
    requires DrySpec(lib, cmds, lines, d).error.None?
    requires NotAhead(rest, lines[d.index..])
    requires cmds != [] && cmds[0].b.Expect?
    ensures Follows(lib, cmds, lines, d, rest, log)
    decreases |cmds|, 0
  {
    var ls, v := lines[d.index..], cmds[0].b.value;
    var r := DryStep(lib, cmds[0], lines, d);
    assert r.error.None? && DrySpec(lib, cmds[1..], lines, r.at).error.None?;
    var p, k := DryExpectFound(lib, v, lines, d);
    assert Plain(cmds[1..]);
    DryNeedsLines(lib, cmds[1..], lines, r.at);
    var rest' := OneExpect(lib, v, p, rest, ls, k, d.tx, log);
    StrandedStep(cmds, rest, ls, k, rest');
    if !(k == 0 && AtLineStart(rest, ls) && ls[0] == "" && |ls| == 1) {
      RunFollows(lib, cmds[1..], lines, r.at, rest', log);
      FollowsStep(lib, cmds, lines, d, rest, rest', log);
    }
  }

  /** The capture consists of newlines alone, and the script has one expect for each of its lines. */
  predicate BlankCorner(cmds: seq<Command>, capture: string) {
    (forall i :: 0 <= i < |capture| ==> capture[i] == LF) && CountExpects(cmds) == |capture| + 1
  }

  lemma {:induction false} BlankLines(capture: string)
    ensures AllBlank(Lines(capture)) <==> forall i :: 0 <= i < |capture| ==> capture[i] == LF
    ensures AllBlank(Lines(capture)) ==> |Lines(capture)| == |capture| + 1
  {
    if capture != [] {
      BlankLines(capture[1..]);
      var ls := Lines(capture[1..]);
      assert forall i :: 0 < i < |capture| ==> capture[i] == capture[1..][i - 1];
      if capture[0] == LF {
        assert Lines(capture) == [""] + ls;
        assert AllBlank([""] + ls) <==> AllBlank(ls) by {
          assert forall i :: 0 <= i < |ls| ==> ([""] + ls)[i + 1] == ls[i];
        }
      } else {
        assert Lines(capture)[0] != "";
      }
    }
  }

  /** Whenever a script of sends and expects passes the dry run on a capture, the live run on the same text,
      without timeouts or write faults, succeeds and transmits the same strings, if and only if the capture
      is not the blank corner; in the blank corner the live run waits forever. */
  lemma DryRunPredictsLiveRun(lib: Libs, cmds: seq<Command>, capture: string)
    requires Plain(cmds)
    requires DrySpec(lib, cmds, Lines(capture), START).error.None?
    ensures var live := Run(lib, cmds, Feed(capture, [], []));
            && (live.outcome == Done <==> !BlankCorner(cmds, capture))
            && (live.outcome == Done ==> live.port.tx == DrySpec(lib, cmds, Lines(capture), START).at.tx)
            && (live.outcome != Done ==> live.outcome == Blocked)
  {
    var lines := Lines(capture);
    JoinLines(capture);
    BlankLines(capture);
    assert lines[0..] == lines;
    RunFollows(lib, cmds, lines, START, capture, []);
  }

  /** A pattern that every line shows. */
  const ANYTHING := "''"

  lemma AnythingMatches(lib: Libs, line: string)
    ensures ParsePattern(lib, ANYTHING) == Ok(AnyCase("")) && DryMatch(lib, AnyCase(""), line)
  {
    assert ANYTHING[1..1] == "";
    assert ToLower("") <= ToLower(line)[0..];
  }

  lemma {:induction false} AnythingPasses(lib: Libs, n: nat, lines: seq<string>, d: Dry)
    requires d.index + n <= |lines|
    ensures DrySpec(lib, seq(n, _ => Do(Expect(ANYTHING))), lines, d).error.None?
    ensures CountExpects(seq(n, _ => Do(Expect(ANYTHING)))) == n
  {
    var cmds := seq(n, _ => Do(Expect(ANYTHING)));
    if n > 0 {
      AnythingMatches(lib, lines[d.index]);
      assert cmds[1..] == seq(n - 1, _ => Do(Expect(ANYTHING)));
      assert DryStep(lib, cmds[0], lines, d) == DryRan(Dry(d.index + 1, d.tx), None);
      AnythingPasses(lib, n - 1, lines, Dry(d.index + 1, d.tx));
    }
  }

  /** The corner is reached, by a capture of any number of newlines, the empty capture included: a script that
      expects anything once for each of its lines passes the dry run, and the live run waits forever. */
  lemma BlankCornerHappens(lib: Libs, n: nat)
    ensures var cmds, capture := seq(n + 1, _ => Do(Expect(ANYTHING))), seq(n, _ => LF);
            && Plain(cmds) && BlankCorner(cmds, capture)
            && DrySpec(lib, cmds, Lines(capture), START).error.None?
            && Run(lib, cmds, Feed(capture, [], [])).outcome == Blocked
  {
    var cmds, capture := seq(n + 1, _ => Do(Expect(ANYTHING))), seq(n, _ => LF);
    NewlinesPass(lib, n, cmds, capture);
    DryRunPredictsLiveRun(lib, cmds, capture);
  }

  lemma NewlinesPass(lib: Libs, n: nat, cmds: seq<Command>, capture: string)
    requires cmds == seq(n + 1, _ => Do(Expect(ANYTHING))) && capture == seq(n, _ => LF)
    ensures Plain(cmds) && BlankCorner(cmds, capture) && DrySpec(lib, cmds, Lines(capture), START).error.None?
  {
    BlankLines(capture);
    AnythingPasses(lib, n + 1, Lines(capture), START);
  }

  /** No expect whose pattern matches the empty line: the blank corner cannot arise, so the prediction is
      unconditional. */
  lemma NoBlankPatternNoCorner(lib: Libs, cmds: seq<Command>, capture: string)
    requires Plain(cmds)
    requires DrySpec(lib, cmds, Lines(capture), START).error.None?
    requires forall i :: 0 <= i < |cmds| && cmds[i].b.Expect? && ParsePattern(lib, cmds[i].b.value).Ok? ==>
               !DryMatch(lib, ParsePattern(lib, cmds[i].b.value).value, "")
    ensures Run(lib, cmds, Feed(capture, [], [])).outcome == Done
    ensures Run(lib, cmds, Feed(capture, [], [])).port.tx == DrySpec(lib, cmds, Lines(capture), START).at.tx
  {
    DryRunPredictsLiveRun(lib, cmds, capture);
    if BlankCorner(cmds, capture) {
      BlankLines(capture);
      NoMatchOnBlank(lib, cmds, Lines(capture), START);
    }
  }

  lemma {:induction false} NoMatchOnBlank(lib: Libs, cmds: seq<Command>, lines: seq<string>, d: Dry)
    requires Plain(cmds) && AllBlank(lines) && d.index <= |lines|
    requires DrySpec(lib, cmds, lines, d).error.None?
    requires forall i :: 0 <= i < |cmds| && cmds[i].b.Expect? && ParsePattern(lib, cmds[i].b.value).Ok? ==>
               !DryMatch(lib, ParsePattern(lib, cmds[i].b.value).value, "")
    ensures CountExpects(cmds) == 0
  {
    if cmds != [] {
      var r := DryStep(lib, cmds[0], lines, d);
      assert Plain(cmds[1..]);
      forall i | 0 <= i < |cmds[1..]| && cmds[1..][i].b.Expect? && ParsePattern(lib, cmds[1..][i].b.value).Ok?
        ensures !DryMatch(lib, ParsePattern(lib, cmds[1..][i].b.value).value, "")
      {
        assert cmds[1..][i] == cmds[i + 1];
      }
      NoMatchOnBlank(lib, cmds[1..], lines, r.at);
    }
  }

  lemma TwoOnOneLine(lib: Libs, first: Command, second: Command)
    requires first.Do? && first.b.Expect? && second.Do? && second.b.Expect?
    ensures DrySpec(lib, [first, second], Lines("ab"), START).error.Some?
  {
    var cmds, later := [first, second], [second];
    assert cmds[1..] == later && later[1..] == [];
    LinesOfOneLine("ab");
    assert CountExpects([]) == 0 && CountExpects(later) == 1 && CountExpects(cmds) == 2;
    if DrySpec(lib, cmds, Lines("ab"), START).error.None? {
      DryNeedsLines(lib, cmds, Lines("ab"), START);
    }
  }

  /** The prediction has no converse: two matches on one line are two for the live run, one for the dry run.
      GreedyDry.DryRunIsComplete says exactly when the dry run passes: when there are strictly later matching
      lines for the expects. */
  lemma LiveRunDoesNotPredictDryRun(lib: Libs)
    ensures var cmds := [Do(Expect(Quoted('a'))), Do(Expect(Quoted('b')))];
            Run(lib, cmds, Feed("ab", [], [])).outcome == Done && DrySpec(lib, cmds, Lines("ab"), START).error.Some?
  {
    var cmds := [Do(Expect(Quoted('a'))), Do(Expect(Quoted('b')))];
    var s := Feed("ab", [], []);
    var s1 := s.(input := s.input[1..]);
    assert s.input[0] == Char('a') && s1.input[0] == Char('b');
    ExpectLetter(lib, 'a', s);
    ExpectLetter(lib, 'b', s1);
    var later := [cmds[1]];
    assert cmds[1..] == later && later[1..] == [];
    assert Step(lib, later[0], s1).outcome == Done && Run(lib, later, s1).outcome == Done;
    assert Run(lib, cmds, s) == Run(lib, later, s1);
    TwoOnOneLine(lib, cmds[0], cmds[1]);
  }
}
