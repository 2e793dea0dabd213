/** Live matching takes each match as early as it can. For scripts of sends and single-quoted expects this
    loses nothing: the script succeeds whenever some way to cut the stream would. The other kinds of
    pattern look at the current line, and the same holds for cuts that keep those lines whole. */
module GreedyLive {
  import opened Wrappers
  import opened Text
  import opened Script
  import opened Patterns
  import opened Live
  import opened ExpectMeaning
  import opened Control
  import opened Pointwise

  /** An expect whose pattern can be read. */
  predicate IsExpect(lib: Libs, cmd: Command) {
    cmd.Do? && cmd.b.Expect? && ParsePattern(lib, cmd.b.value).Ok?
  }

  predicate IsSearch(lib: Libs, cmd: Command) {
    IsExpect(lib, cmd) && ParsePattern(lib, cmd.b.value).value.AnyCase?
  }

  /** Sends, and expects with patterns of any kind. */
  predicate Waiting(lib: Libs, cmds: seq<Command>) {
    forall i :: 0 <= i < |cmds| ==> (cmds[i].Do? && cmds[i].b.Send?) || IsExpect(lib, cmds[i])
  }

  /** Sends, and expects with single-quoted patterns. */
  predicate Searching(lib: Libs, cmds: seq<Command>) {
    forall i :: 0 <= i < |cmds| ==> (cmds[i].Do? && cmds[i].b.Send?) || IsSearch(lib, cmds[i])
  }

  predicate NoFaults(s: Port) {
    forall i :: 0 <= i < |s.faults| ==> !s.faults[i]
  }

  /** The segment t[i..j] shows the pattern of cmd, if it is an expect: for a single-quoted pattern, the text
      lies in the segment; for the other kinds, the segment's last line matches. */
  predicate Segment(lib: Libs, cmd: Command, t: string, i: int, j: int) {
    if IsExpect(lib, cmd) then 0 <= i < j <= |t| && Shows(lib, ParsePattern(lib, cmd.b.value).value, t[i..j])
    else 0 <= i == j <= |t|
  }

  /** The line at the end of the segment t[i..j] lies in it as a whole. */
  predicate HoldsLine(t: string, i: int, j: int) {
    0 <= i <= j <= |t| && LastLine(t[i..j]) == LastLine(t[..j])
  }

  /** A cut of the stream into consecutive segments, one for each command. */
  ghost predicate Cut(lib: Libs, cmds: seq<Command>, t: string, c: seq<nat>) {
    |c| == |cmds| + 1 && c[0] == 0 && forall i :: 0 <= i < |cmds| ==> Segment(lib, cmds[i], t, c[i], c[i + 1])
  }

  /** A cut whose segments still show their patterns with more text in front. */
  ghost predicate SturdyCut(lib: Libs, cmds: seq<Command>, t: string, c: seq<nat>) {
    Cut(lib, cmds, t, c)
    && forall i :: 0 <= i < |cmds| ==> Sturdy(lib, cmds[i], t, c[i], c[i + 1])
  }

  predicate Sturdy(lib: Libs, cmd: Command, t: string, i: int, j: int) {
    IsExpect(lib, cmd) ==> IsSearch(lib, cmd) || HoldsLine(t, i, j)
  }

  /** How much the interpreter has consumed after its first i commands. */
  function Position(lib: Libs, cmds: seq<Command>, i: nat, s: Port): nat
    requires i <= |cmds|
  {
    var used := Used(s, Run(lib, cmds[..i], s));
    if used >= 0 then used else 0
  }

  /** The interpreter's own cut. */
  function Positions(lib: Libs, cmds: seq<Command>, s: Port): (c: seq<nat>)
    ensures |c| == |cmds| + 1 && forall i :: 0 <= i <= |cmds| ==> c[i] == Position(lib, cmds, i, s)
  {
    seq(|cmds| + 1, i requires 0 <= i <= |cmds| => Position(lib, cmds, i, s))
  }

  /** After i commands the run is still successful, and stands at its position. */
  predicate OnTrack(lib: Libs, cmds: seq<Command>, i: nat, s: Port)
    requires i <= |cmds|
  {
    Run(lib, cmds[..i], s).outcome.Done? && Stands(Run(lib, cmds[..i], s).port, s.input, Position(lib, cmds, i, s))
  }

  /** On characters only, an expect succeeds exactly where its segment would lie. */
  lemma SegmentHits(lib: Libs, cmd: Command, stream: seq<Event>, t: string, i: nat, j: nat)
    requires IsExpect(lib, cmd) && AllChars(stream) && t == TextOf(stream) && i < j <= |t|
    ensures HitAt(lib, ParsePattern(lib, cmd.b.value).value, stream[i..], j - i) == Segment(lib, cmd, t, i, j)
  {
    assert stream[i..][..j - i] == stream[i..j];
    assert TextOf(stream[i..j]) == t[i..j];
  }

  lemma {:induction false} LastLineGrows(a: string, b: string)
    ensures |LastLine(b)| <= |LastLine(a + b)|
    ensures LastLine(b) == LastLine(a + b)[|LastLine(a + b)| - |LastLine(b)|..]
  {
    if b != "" {
      var init, c := b[..|b| - 1], b[|b| - 1];
      LastLineGrows(a, init);
      LastLineStep(a + init, c);
      assert a + b == a + init + [c];
    }
  }

  /** A line that lies in a segment as a whole is also the last line of every longer segment. */
  lemma HeldLineStays(t: string, i': nat, i: nat, j: nat)
    requires i' <= i && HoldsLine(t, i, j)
    ensures LastLine(t[i'..j]) == LastLine(t[i..j])
  {
    assert t[i'..i] + t[i..j] == t[i'..j] && t[..i'] + t[i'..j] == t[..j];
    LastLineGrows(t[i'..i], t[i..j]);
    LastLineGrows(t[..i'], t[i'..j]);
  }

  lemma TextStays(t: string, text: string, i': nat, i: nat, j: nat)
    requires i' <= i <= j <= |t| && Contains(ToLower(t[i..j]), ToLower(text))
    ensures Contains(ToLower(t[i'..j]), ToLower(text))
  {
    ContainsFoldedInside(t[i'..i], t[i..j], "", text);
    assert t[i'..i] + t[i..j] + "" == t[i'..j];
  }

  lemma SegmentGrows(lib: Libs, cmd: Command, t: string, i': nat, i: nat, j: nat)
    requires IsExpect(lib, cmd) && i' <= i && Segment(lib, cmd, t, i, j) && Sturdy(lib, cmd, t, i, j)
    ensures Segment(lib, cmd, t, i', j)
  {
    if IsSearch(lib, cmd) {
      TextStays(t, ParsePattern(lib, cmd.b.value).value.text, i', i, j);
    } else {
      HeldLineStays(t, i', i, j);
    }
  }

  /** The port q stands at position pos of the stream. */
  predicate Stands(q: Port, stream: seq<Event>, pos: int) {
    0 <= pos <= |stream| && q.input == stream[pos..] && NoFaults(q)
  }

  /** One command, from a position at or before the cut's: it succeeds, at or before the cut's next. */
  lemma ExpectStep(lib: Libs, cmd: Command, stream: seq<Event>, q: Port, pos: nat, j: nat, j': nat)
    requires (cmd.Do? && cmd.b.Send?) || IsExpect(lib, cmd)
    requires AllChars(stream) && Stands(q, stream, pos) && pos <= j
    requires Segment(lib, cmd, TextOf(stream), j, j') && Sturdy(lib, cmd, TextOf(stream), j, j')
    ensures var r := Step(lib, cmd, q);
            var pos' := |stream| - |r.port.input|;
            r.outcome.Done? && Stands(r.port, stream, pos') && pos' <= j'
  {
    if IsExpect(lib, cmd) {
      var p := ParsePattern(lib, cmd.b.value).value;
      GrownSegmentHits(lib, cmd, p, stream, pos, j, j');
      ExpectEnds(lib, cmd, p, stream, q, pos, j');
    } else {
      SendEnds(lib, cmd, stream, q, pos);
    }
  }

  lemma SendEnds(lib: Libs, cmd: Command, stream: seq<Event>, q: Port, pos: nat)
    requires cmd.Do? && cmd.b.Send? && Stands(q, stream, pos)
    ensures var r := Step(lib, cmd, q); r.outcome.Done? && Stands(r.port, stream, pos) && |stream| - |r.port.input| == pos
  {
  }

  lemma ExpectEnds(lib: Libs, cmd: Command, p: Pattern, stream: seq<Event>, q: Port, pos: nat, j': nat)
    requires cmd.Do? && cmd.b.Expect? && ParsePattern(lib, cmd.b.value) == Ok(p)
    requires Stands(q, stream, pos) && HitAt(lib, p, stream[pos..], j' - pos)
    ensures var r := Step(lib, cmd, q);
            var pos' := |stream| - |r.port.input|;
            r.outcome.Done? && Stands(r.port, stream, pos') && pos' <= j'
  {
    ExpectFrom(lib, cmd.b.value, p, stream, q, pos, j' - pos);
  }

  lemma GrownSegmentHits(lib: Libs, cmd: Command, p: Pattern, stream: seq<Event>, pos: nat, j: nat, j': nat)
    requires IsExpect(lib, cmd) && ParsePattern(lib, cmd.b.value) == Ok(p) && AllChars(stream) && pos <= j
    requires Segment(lib, cmd, TextOf(stream), j, j') && Sturdy(lib, cmd, TextOf(stream), j, j')
    ensures HitAt(lib, p, stream[pos..], j' - pos)
  {
    SegmentGrows(lib, cmd, TextOf(stream), pos, j, j');
    SegmentHits(lib, cmd, stream, TextOf(stream), pos, j');
  }

  lemma ExpectFrom(lib: Libs, v: string, p: Pattern, stream: seq<Event>, q: Port, pos: nat, n: nat)
    requires ParsePattern(lib, v) == Ok(p) && Stands(q, stream, pos) && HitAt(lib, p, stream[pos..], n)
    ensures var r := Expecting(lib, v, q);
            var pos' := |stream| - |r.port.input|;
            r.outcome.Done? && Stands(r.port, stream, pos') && pos' <= pos + n
  {
    ExpectEndsBy(lib, v, p, q, n);
    var r := Expecting(lib, v, q);
    StandsFurther(q, stream, pos, r.port, Used(q, r));
  }

  lemma StandsFurther(q: Port, stream: seq<Event>, pos: nat, q': Port, used: nat)
    requires Stands(q, stream, pos) && used <= |q.input| && q' == q.(input := q.input[used..])
    ensures Stands(q', stream, pos + used) && pos + used == |stream| - |q'.input|
  {
    assert stream[pos..][used..] == stream[pos + used..];
  }

  /** A successful expect takes a non-empty prefix that shows its pattern. */
  lemma ExpectTook(lib: Libs, cmd: Command, q: Port)
    requires IsExpect(lib, cmd) && Step(lib, cmd, q).outcome.Done?
    ensures var r := Step(lib, cmd, q);
            0 < Used(q, r) <= |q.input| && r.port == q.(input := q.input[Used(q, r)..])
            && HitAt(lib, ParsePattern(lib, cmd.b.value).value, q.input, Used(q, r))
  {
    ExpectIsShortestPrefix(lib, cmd.b.value, q);
  }

  lemma ExpectSegment(lib: Libs, cmd: Command, stream: seq<Event>, q: Port, pos: nat) returns (end: nat)
    requires IsExpect(lib, cmd) && AllChars(stream) && Stands(q, stream, pos) && Step(lib, cmd, q).outcome.Done?
    ensures end <= |stream| && Step(lib, cmd, q).port == q.(input := stream[end..])
    ensures Segment(lib, cmd, TextOf(stream), pos, end)
  {
    ExpectTook(lib, cmd, q);
    var used := Used(q, Step(lib, cmd, q));
    end := pos + used;
    StandsFurther(q, stream, pos, Step(lib, cmd, q).port, used);
    SegmentHits(lib, cmd, stream, TextOf(stream), pos, end);
  }

  /** A successful command occupies a segment. */
  lemma StepSegment(lib: Libs, cmd: Command, stream: seq<Event>, q: Port, pos: nat)
    requires (cmd.Do? && cmd.b.Send?) || IsExpect(lib, cmd)
    requires AllChars(stream) && Stands(q, stream, pos) && Step(lib, cmd, q).outcome.Done?
    ensures var r := Step(lib, cmd, q);
            var pos' := |stream| - |r.port.input|;
            Stands(r.port, stream, pos') && Segment(lib, cmd, TextOf(stream), pos, pos')
  {
    if IsExpect(lib, cmd) {
      var end := ExpectSegment(lib, cmd, stream, q, pos);
      assert |stream| - |Step(lib, cmd, q).port.input| == end;
    }
  }

  lemma StandsAt(lib: Libs, cmds: seq<Command>, i: nat, s: Port, r: Ran)
    requires i <= |cmds| && Run(lib, cmds[..i], s) == r && r.outcome.Done?
    requires Stands(r.port, s.input, |s.input| - |r.port.input|)
    ensures OnTrack(lib, cmds, i, s) && Position(lib, cmds, i, s) == |s.input| - |r.port.input|
  {
  }

  lemma OneMoreSegment(lib: Libs, cmds: seq<Command>, s: Port, k: nat)
    requires Waiting(lib, cmds) && k < |cmds| && AllChars(s.input) && OnTrack(lib, cmds, k, s)
    requires Run(lib, cmds[..k + 1], s).outcome.Done?
    ensures OnTrack(lib, cmds, k + 1, s)
    ensures Segment(lib, cmds[k], TextOf(s.input), Position(lib, cmds, k, s), Position(lib, cmds, k + 1, s))
  {
    var q := Run(lib, cmds[..k], s).port;
    RunPrefixStep(lib, cmds, k, s);
    StepSegment(lib, cmds[k], s.input, q, Position(lib, cmds, k, s));
    var r := Run(lib, cmds[..k + 1], s);
    StandsAt(lib, cmds, k + 1, s, r);
    assert Position(lib, cmds, k + 1, s) == |s.input| - |r.port.input|;
  }

  lemma OneMoreCommand(lib: Libs, cmds: seq<Command>, s: Port, k: nat, j: nat, j': nat)
    requires Waiting(lib, cmds) && k < |cmds| && AllChars(s.input) && OnTrack(lib, cmds, k, s)
    requires Position(lib, cmds, k, s) <= j
    requires Segment(lib, cmds[k], TextOf(s.input), j, j') && Sturdy(lib, cmds[k], TextOf(s.input), j, j')
    ensures OnTrack(lib, cmds, k + 1, s) && Position(lib, cmds, k + 1, s) <= j'
  {
    var q := Run(lib, cmds[..k], s).port;
    RunPrefixStep(lib, cmds, k, s);
    ExpectStep(lib, cmds[k], s.input, q, Position(lib, cmds, k, s), j, j');
    StandsAt(lib, cmds, k + 1, s, Step(lib, cmds[k], q));
  }

  lemma CutAt(lib: Libs, cmds: seq<Command>, t: string, c: seq<nat>, k: nat)
    requires SturdyCut(lib, cmds, t, c) && k < |cmds|
    ensures Segment(lib, cmds[k], t, c[k], c[k + 1]) && Sturdy(lib, cmds[k], t, c[k], c[k + 1])
  {
  }

  lemma OneMoreOfCut(lib: Libs, cmds: seq<Command>, s: Port, c: seq<nat>, k: nat)
    requires Waiting(lib, cmds) && AllChars(s.input) && k < |cmds|
    requires SturdyCut(lib, cmds, TextOf(s.input), c) && OnTrack(lib, cmds, k, s) && Position(lib, cmds, k, s) <= c[k]
    ensures OnTrack(lib, cmds, k + 1, s) && Position(lib, cmds, k + 1, s) <= c[k + 1]
  {
    CutAt(lib, cmds, TextOf(s.input), c, k);
    OneMoreCommand(lib, cmds, s, k, c[k], c[k + 1]);
  }

  lemma {:induction false} StaysBeforeCut(lib: Libs, cmds: seq<Command>, s: Port, c: seq<nat>, i: nat)
    requires Waiting(lib, cmds) && NoFaults(s) && AllChars(s.input)
    requires SturdyCut(lib, cmds, TextOf(s.input), c) && i <= |cmds|
    ensures OnTrack(lib, cmds, i, s) && Position(lib, cmds, i, s) <= c[i]
  {
    if i == 0 {
      assert cmds[..0] == [] && s.input[0..] == s.input;
    } else {
      StaysBeforeCut(lib, cmds, s, c, i - 1);
      OneMoreOfCut(lib, cmds, s, c, i - 1);
    }
  }

  lemma {:induction false} TrackedSoFar(lib: Libs, cmds: seq<Command>, s: Port, i: nat)
    requires Waiting(lib, cmds) && NoFaults(s) && AllChars(s.input) && i <= |cmds|
    requires Run(lib, cmds[..i], s).outcome.Done?
    ensures OnTrack(lib, cmds, i, s)
    ensures var c := Positions(lib, cmds, s);
            forall k :: 0 <= k < i ==> Segment(lib, cmds[k], TextOf(s.input), c[k], c[k + 1])
  {
    if i == 0 {
      assert cmds[..0] == [] && s.input[0..] == s.input;
    } else {
      RunPrefixStep(lib, cmds, i - 1, s);
      TrackedSoFar(lib, cmds, s, i - 1);
      OneMoreSegment(lib, cmds, s, i - 1);
    }
  }

  lemma CutIsAfterPositions(lib: Libs, cmds: seq<Command>, s: Port, c: seq<nat>)
    requires Waiting(lib, cmds) && NoFaults(s) && AllChars(s.input) && SturdyCut(lib, cmds, TextOf(s.input), c)
    ensures Run(lib, cmds, s).outcome.Done? && NowhereLater(Positions(lib, cmds, s), c)
  {
    assert cmds[..|cmds|] == cmds;
    StaysBeforeCut(lib, cmds, s, c, |cmds|);
    forall i | 0 <= i <= |cmds| ensures Positions(lib, cmds, s)[i] <= c[i] {
      StaysBeforeCut(lib, cmds, s, c, i);
    }
  }

  /** On a stream of characters without write faults, for patterns of any kind: the cut of a successful run
      shows each pattern in its segment; and the run succeeds whenever there is some cut whose double-quoted
      and regular expression segments hold their last line as a whole, and stands nowhere later than that. */
  lemma GreedyFindsSturdyCuts(lib: Libs, cmds: seq<Command>, s: Port)
    requires Waiting(lib, cmds) && NoFaults(s) && AllChars(s.input)
    ensures Run(lib, cmds, s).outcome.Done? ==> Cut(lib, cmds, TextOf(s.input), Positions(lib, cmds, s))
    ensures forall c :: SturdyCut(lib, cmds, TextOf(s.input), c) ==>
              Run(lib, cmds, s).outcome.Done? && NowhereLater(Positions(lib, cmds, s), c)
  {
    assert cmds[..|cmds|] == cmds && cmds[..0] == [];
    if Run(lib, cmds, s).outcome.Done? {
      TrackedSoFar(lib, cmds, s, |cmds|);
    }
    forall c | SturdyCut(lib, cmds, TextOf(s.input), c)
      ensures Run(lib, cmds, s).outcome.Done? && NowhereLater(Positions(lib, cmds, s), c)
    {
      CutIsAfterPositions(lib, cmds, s, c);
    }
  }

  /** With single-quoted patterns every cut is sturdy: a script of sends and such expects succeeds if and only
      if the stream has some cut into segments that hold the searched texts, and then the interpreter's own
      cut is one, and at every point the least of them. */
  lemma GreedyIsComplete(lib: Libs, cmds: seq<Command>, s: Port)
    requires Searching(lib, cmds) && NoFaults(s) && AllChars(s.input)
    ensures Run(lib, cmds, s).outcome.Done? <==> exists c :: Cut(lib, cmds, TextOf(s.input), c)
    ensures Run(lib, cmds, s).outcome.Done? ==> Cut(lib, cmds, TextOf(s.input), Positions(lib, cmds, s))
    ensures forall c :: Cut(lib, cmds, TextOf(s.input), c) ==> NowhereLater(Positions(lib, cmds, s), c)
  {
    GreedyFindsSturdyCuts(lib, cmds, s);
    forall c | Cut(lib, cmds, TextOf(s.input), c) ensures SturdyCut(lib, cmds, TextOf(s.input), c) {
    }
  }

  const B_FIRST := ['"', 'b', '"']

  /** A short line of letters shows this pattern exactly when it begins with b. */
  lemma BeginsWithB(lib: Libs, text: string)
    requires 1 <= |text| <= 2 && forall i :: 0 <= i < |text| ==> 'a' <= text[i] <= 'z'
    ensures ParsePattern(lib, B_FIRST) == Ok(LineStart(['b']))
    ensures Shows(lib, LineStart(['b']), text) <==> text[0] == 'b'
  {
    assert B_FIRST[1..2] == ['b'];
    LastLineOfOneLine(text);
    TrimmedIsFixed(text);
  }

  /** A cut that is not sturdy can be missed: the first expect ends early, and the line of the second then begins
      before its segment in the cut. */
  lemma PartialLineCanBeMissed(lib: Libs)
    ensures var cmds := [Do(Expect(Quoted('a'))), Do(Expect(B_FIRST))];
            var s := Port([Char('a'), Char('a'), Char('b')], [], [], []);
            && Waiting(lib, cmds) && Cut(lib, cmds, TextOf(s.input), [0, 2, 3])
            && Run(lib, cmds, s).outcome == Blocked
  {
    var cmds := [Do(Expect(Quoted('a'))), Do(Expect(B_FIRST))];
    var s := Port([Char('a'), Char('a'), Char('b')], [], [], []);
    assert TextOf(s.input) == "aab";
    PartialLineCut(lib, cmds[0], cmds[1]);
    var s1 := s.(input := s.input[1..]);
    ExpectLetter(lib, 'a', s);
    WaitsForB(lib, s1);
    assert cmds[1..] == [cmds[1]];
    assert Step(lib, cmds[0], s) == Ran(s1, Done) && Step(lib, cmds[1], s1).outcome == Blocked;
    assert Run(lib, cmds, s) == Run(lib, [cmds[1]], s1);
  }

  lemma PartialLineCut(lib: Libs, first: Command, second: Command)
    requires first == Do(Expect(Quoted('a'))) && second == Do(Expect(B_FIRST))
    ensures Waiting(lib, [first, second]) && Cut(lib, [first, second], "aab", [0, 2, 3])
  {
    var t := "aab";
    assert t[0..2] == "aa" && t[2..3] == "b";
    BeginsWithB(lib, "b");
    QuotedIsSearch(lib, 'a');
    AShowsA(lib);
    assert Segment(lib, first, t, 0, 2);
    assert Segment(lib, second, t, 2, 3);
  }

  lemma AShowsA(lib: Libs)
    ensures Shows(lib, AnyCase(['a']), "aa")
  {
    Searches("aa", ['a'], true);
  }

  lemma NoBFirst(lib: Libs, es: seq<Event>, n: int)
    requires es == [Char('a'), Char('b')]
    ensures !HitAt(lib, LineStart(['b']), es, n)
  {
    if n == 1 {
      assert es[..1] == [Char('a')] && TextOf(es[..1]) == "a";
      BeginsWithB(lib, "a");
    } else if n == 2 {
      assert es[..2] == es && TextOf(es[..2]) == "ab";
      BeginsWithB(lib, "ab");
    }
  }

  lemma WaitsForB(lib: Libs, s: Port)
    requires s.input == [Char('a'), Char('b')]
    ensures Expecting(lib, B_FIRST, s).outcome == Blocked
  {
    BeginsWithB(lib, "a");
    ExpectVerdict(lib, B_FIRST, s);
    forall n ensures !HitAt(lib, LineStart(['b']), s.input, n) {
      NoBFirst(lib, s.input, n);
    }
  }
}
