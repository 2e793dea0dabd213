/** Try blocks with a retry: exactly when the attempt as written, which runs on after an error, decides as one
    that stops at its first failure. */
module Retry {
  import opened Wrappers
  import opened Text
  import opened Script
  import opened Patterns
  import opened Live
  import opened ExpectMeaning
  import opened MonitorMeaning
  import opened Control
  import opened TryBlocks

  /** The attempts of a retrying block with the stopping form in place of the written one. */
  function MeantAttempts(lib: Libs, bs: seq<Basic>, left: nat, s: Port): Ran
    requires left > 0
  {
    var r := StopAtFirst(lib, bs, s);
    if r.outcome.Failed? && left > 1 then MeantAttempts(lib, bs, left - 1, r.port) else r
  }

  /** Without a retry both forms give the same verdict whenever the written one returns. */
  lemma SingleAttemptVerdict(lib: Libs, bs: seq<Basic>, s: Port)
    ensures var w, p := Attempts(lib, bs, 1, s), MeantAttempts(lib, bs, 1, s);
            && (w.outcome.Done? <==> p.outcome.Done?)
            && (w.outcome.Failed? ==> p.outcome.Failed?)
            && (w.outcome.Done? ==> w == p)
  {
    AttemptRefinesStopAtFirst(lib, bs, s);
  }

  // ---------- commands and scripts that can succeed ----------

  /** Some text shows the pattern. */
  ghost predicate Matchable(lib: Libs, p: Pattern) {
    match p
    case AnyCase(_) => true
    case LineStart(t) => OneLine(t) && (t == "" || !IsSpace(t[0]))
    case Regex(src) => exists line :: OneLine(line) && lib.matches(src, line)
  }

  /** Read off the command alone. */
  ghost predicate CanSucceed(lib: Libs, b: Basic) {
    match b
    case Send(_) => true
    case Expect(v) => ParsePattern(lib, v).Ok? && Matchable(lib, ParsePattern(lib, v).value)
    case Monitor(v) => Limit(lib, v).Some? && Limit(lib, v).value >= 0
  }

  function Chars(text: string): (es: seq<Event>)
    ensures |es| == |text| && AllChars(es) && TextOf(es) == text
  {
    seq(|text|, i requires 0 <= i < |text| => Char(text[i]))
  }

  lemma SomeTextShows(lib: Libs, p: Pattern) returns (text: string)
    requires Matchable(lib, p)
    ensures Shows(lib, p, text)
  {
    match p
    case AnyCase(t) =>
      text := t + "x";
      assert ToLower(t)[0..] == ToLower(t);
      ContainsFoldedInside("", t, "x", t);
      assert "" + t + "x" == text;
    case LineStart(t) =>
      text := t + "x";
      LastLineOfOneLine(text);
      TrimmedIsFixed(text);
    case Regex(src) =>
      var line :| OneLine(line) && lib.matches(src, line);
      text := "" + [LF] + line;
      LastLineAfterNewline("", line);
  }

  lemma {:induction false} LastLineIsOneLine(text: string)
    ensures OneLine(LastLine(text))
  {
    if text != "" && text[|text| - 1] != LF {
      LastLineIsOneLine(text[..|text| - 1]);
    }
  }

  lemma ShownIsMatchable(lib: Libs, p: Pattern, text: string)
    requires Shows(lib, p, text)
    ensures Matchable(lib, p)
  {
    var line := LastLine(text);
    LastLineIsOneLine(text);
    if p.LineStart? {
      var lo, hi := TrimSpaceShape(line);
      assert forall i :: 0 <= i < |p.text| ==> p.text[i] == line[lo + i];
    }
  }

  lemma {:induction false} NewlinesEndWatch(n: nat, count: nat, s: Port)
    requires count < n && s.input == seq(n - count, _ => Char(LF))
    ensures Watch(n, "", count, s).outcome.Done?
    decreases n - count
  {
    var logged := s.(input := s.input[1..], log := s.log + [TrimLineEnd("" + [LF])]);
    if count + 1 < n {
      NewlinesEndWatch(n, count + 1, logged);
    }
  }

  lemma SomePortSucceeds(lib: Libs, b: Basic) returns (s: Port)
    requires CanSucceed(lib, b)
    ensures Exec(lib, b, s).outcome.Done?
  {
    match b
    case Send(_) => s := Port([], [], [], []);
    case Expect(v) =>
      var p := ParsePattern(lib, v).value;
      var text := SomeTextShows(lib, p);
      s := Port(Chars(text), [], [], []);
      assert s.input[..|text|] == s.input;
      assert HitAt(lib, p, s.input, |text|);
      ExpectVerdict(lib, v, s);
    case Monitor(v) =>
      var n := Limit(lib, v).value;
      s := Port(if n == 0 then [Timer] else seq(n, _ => Char(LF)), [], [], []);
      if n > 0 { NewlinesEndWatch(n, 0, s); }
  }

  lemma SuccessIsPossible(lib: Libs, b: Basic, s: Port)
    requires Exec(lib, b, s).outcome.Done?
    ensures CanSucceed(lib, b)
  {
    match b
    case Send(_) =>
    case Expect(v) =>
      ExpectIsShortestPrefix(lib, v, s);
      var used := Used(s, Exec(lib, b, s));
      ShownIsMatchable(lib, ParsePattern(lib, v).value, TextOf(s.input[..used]));
    case Monitor(v) =>
      if Limit(lib, v).value < 0 { NegativeCountNeverReturns(lib, v, s); }
  }

  // ---------- what a command consumes decides it ----------

  /** The events that a command takes from the input. */
  function Taken(lib: Libs, b: Basic, s: Port): (es: seq<Event>)
    ensures |es| <= |s.input|
  {
    var used := Used(s, Exec(lib, b, s));
    if 0 <= used <= |s.input| then s.input[..used] else []
  }

  /** How many commands of a script transmit. */
  function Sends(bs: seq<Basic>): nat {
    if bs == [] then 0 else (if bs[0].Send? then 1 else 0) + Sends(bs[1..])
  }

  /** The write outcomes after a command ran. */
  function FaultsAfter(b: Basic, faults: seq<bool>): seq<bool> {
    if b.Send? && faults != [] then faults[1..] else faults
  }

  lemma ExecFaults(lib: Libs, b: Basic, s: Port)
    ensures Exec(lib, b, s).port.faults == FaultsAfter(b, s.faults)
  {
    match b
    case Send(_) =>
    case Expect(v) => if ParsePattern(lib, v).Ok? { ExpectIsShortestPrefix(lib, v, s); }
    case Monitor(v) => if Limit(lib, v).Some? { MonitorObserves(lib, v, s); }
  }

  lemma TakenIsPrefix(lib: Libs, b: Basic, s: Port)
    ensures s.input == Taken(lib, b, s) + Exec(lib, b, s).port.input
  {
    ExecSound(lib, b, s);
  }

  lemma SameHits(lib: Libs, p: Pattern, es: seq<Event>, es': seq<Event>, n: nat, m: nat)
    requires m <= n <= |es| && es[..n] <= es'
    ensures HitAt(lib, p, es, m) <==> HitAt(lib, p, es', m)
  {
    assert es'[..m] == es[..n][..m] == es[..m];
  }

  lemma ExpectFrame(lib: Libs, v: string, s: Port, s': Port)
    requires Expecting(lib, v, s).outcome.Done? && Taken(lib, Expect(v), s) <= s'.input
    ensures Expecting(lib, v, s').outcome.Done? && Taken(lib, Expect(v), s') == Taken(lib, Expect(v), s)
  {
    var p := ParsePattern(lib, v).value;
    var es, es', n := s.input, s'.input, |Taken(lib, Expect(v), s)|;
    ExpectIsShortestPrefix(lib, v, s);
    SameHits(lib, p, es, es', n, n);
    ExpectEndsBy(lib, v, p, s', n);
    var n' := Used(s', Expecting(lib, v, s'));
    SameHits(lib, p, es, es', n, n');
    assert n' == n;
  }

  lemma MonitorFrame(lib: Libs, v: string, s: Port, s': Port)
    requires Monitoring(lib, v, s).outcome.Done? && Taken(lib, Monitor(v), s) <= s'.input
    ensures Monitoring(lib, v, s').outcome.Done? && Taken(lib, Monitor(v), s') == Taken(lib, Monitor(v), s)
  {
    var limit := Limit(lib, v).value;
    var es, es', n := s.input, s'.input, |Taken(lib, Monitor(v), s)|;
    MonitorObserves(lib, v, s);
    MonitorObserves(lib, v, s');
    assert forall m :: 0 <= m <= n ==> es'[..m] == es[..n][..m] == es[..m];
    assert forall m :: 0 <= m < n ==> es'[m] == es[..n][m] == es[m];
    assert forall m :: 0 < m <= n ==> StopsAt(limit, es', m) == StopsAt(limit, es, m);
  }

  lemma SendFrame(lib: Libs, v: string, s: Port, s': Port)
    requires s'.faults == [] || !s'.faults[0]
    ensures Exec(lib, Send(v), s').outcome.Done? && Taken(lib, Send(v), s') == Taken(lib, Send(v), s)
  {
  }

  lemma RestAfterTaken(lib: Libs, b: Basic, s: Port)
    ensures Exec(lib, b, s).port.input == s.input[|Taken(lib, b, s)|..]
  {
    ExecSound(lib, b, s);
  }

  /** A command that succeeded does so wherever the input begins with what it took, unless its write fails. */
  lemma ExecFrame(lib: Libs, b: Basic, s: Port, s': Port)
    requires Exec(lib, b, s).outcome.Done? && Taken(lib, b, s) <= s'.input
    requires b.Send? ==> s'.faults == [] || !s'.faults[0]
    ensures var r' := Exec(lib, b, s');
            && r'.outcome.Done? && r'.port.faults == FaultsAfter(b, s'.faults)
            && r'.port.input == s'.input[|Taken(lib, b, s)|..]
  {
    match b {
      case Send(v) => SendFrame(lib, v, s, s');
      case Expect(v) => ExpectFrame(lib, v, s, s');
      case Monitor(v) => MonitorFrame(lib, v, s, s');
    }
    ExecFaults(lib, b, s');
    RestAfterTaken(lib, b, s');
  }

  // ---------- what a script consumes decides it ----------

  /** The script succeeds on this input when no write fails. */
  predicate Succeeds(lib: Libs, bs: seq<Basic>, input: seq<Event>) {
    StopAtFirst(lib, bs, Port(input, [], [], [])).outcome.Done?
  }

  /** None of the next n writes fails. */
  predicate WritesGoThrough(faults: seq<bool>, n: nat) {
    forall i :: 0 <= i < |faults| && i < n ==> !faults[i]
  }

  lemma {:induction false} SameInputSucceeds(lib: Libs, bs: seq<Basic>, s: Port, s': Port)
    requires StopAtFirst(lib, bs, s).outcome.Done?
    requires s'.input == s.input && WritesGoThrough(s'.faults, Sends(bs))
    ensures StopAtFirst(lib, bs, s').outcome.Done?
  {
    if bs != [] {
      TakenIsPrefix(lib, bs[0], s);
      ExecFrame(lib, bs[0], s, s');
      SameInputSucceeds(lib, bs[1..], Exec(lib, bs[0], s).port, Exec(lib, bs[0], s').port);
    }
  }

  /** A successful script on a bare port, one command later. */
  lemma SucceedsStep(lib: Libs, bs: seq<Basic>, input: seq<Event>) returns (rest: seq<Event>)
    requires bs != [] && Succeeds(lib, bs, input)
    ensures var bare := Port(input, [], [], []);
            Exec(lib, bs[0], bare).outcome.Done? && rest == input[|Taken(lib, bs[0], bare)|..]
    ensures Succeeds(lib, bs[1..], rest)
  {
    var r := Exec(lib, bs[0], Port(input, [], [], []));
    rest := r.port.input;
    TakenIsPrefix(lib, bs[0], Port(input, [], [], []));
    SameInputSucceeds(lib, bs[1..], r.port, Port(rest, [], [], []));
  }

  ghost predicate Achievable(lib: Libs, bs: seq<Basic>) {
    forall i :: 0 <= i < |bs| ==> CanSucceed(lib, bs[i])
  }

  lemma {:induction false} SuccessIsAchievable(lib: Libs, bs: seq<Basic>, s: Port)
    requires StopAtFirst(lib, bs, s).outcome.Done?
    ensures Achievable(lib, bs)
  {
    if bs != [] {
      SuccessIsPossible(lib, bs[0], s);
      SuccessIsAchievable(lib, bs[1..], Exec(lib, bs[0], s).port);
      assert forall i :: 0 < i < |bs| ==> bs[i] == bs[1..][i - 1];
    }
  }

  lemma {:induction false} SomeInputSucceeds(lib: Libs, bs: seq<Basic>) returns (input: seq<Event>)
    requires Achievable(lib, bs)
    ensures Succeeds(lib, bs, input)
  {
    if bs == [] {
      input := [];
    } else {
      var rest := SomeInputSucceeds(lib, bs[1..]);
      var s := SomePortSucceeds(lib, bs[0]);
      input := Taken(lib, bs[0], s) + rest;
      ExecFrame(lib, bs[0], s, Port(input, [], [], []));
      assert input[|Taken(lib, bs[0], s)|..] == rest;
      SameInputSucceeds(lib, bs[1..], Port(rest, [], [], []), Exec(lib, bs[0], Port(input, [], [], [])).port);
    }
  }

  /** A script can succeed if and only if each of its commands can, which is read off the script. */
  lemma AchievableExactly(lib: Libs, bs: seq<Basic>)
    ensures Achievable(lib, bs) <==> exists s :: StopAtFirst(lib, bs, s).outcome.Done?
  {
    if Achievable(lib, bs) {
      var input := SomeInputSucceeds(lib, bs);
      assert StopAtFirst(lib, bs, Port(input, [], [], [])).outcome.Done?;
    }
    if s :| StopAtFirst(lib, bs, s).outcome.Done? {
      SuccessIsAchievable(lib, bs, s);
    }
  }

  lemma {:induction false} ShortestInput(lib: Libs, bs: seq<Basic>, input: seq<Event>) returns (least: seq<Event>)
    requires Succeeds(lib, bs, input)
    ensures Succeeds(lib, bs, least)
    ensures forall other: seq<Event> :: |other| < |least| ==> !Succeeds(lib, bs, other)
    decreases |input|
  {
    if other: seq<Event> :| |other| < |input| && Succeeds(lib, bs, other) {
      least := ShortestInput(lib, bs, other);
    } else {
      least := input;
    }
  }

  /** A command that returns and is no send has consumed something. */
  lemma ReturningEats(lib: Libs, b: Basic, s: Port)
    requires CanSucceed(lib, b) && !b.Send? && !Exec(lib, b, s).outcome.Blocked?
    ensures |Exec(lib, b, s).port.input| < |s.input|
  {
    match b
    case Expect(v) => ExpectIsShortestPrefix(lib, v, s);
    case Monitor(v) => MonitorObserves(lib, v, s);
  }

  lemma {:induction false} AttemptEats(lib: Libs, bs: seq<Basic>, sofar: Outcome, s: Port)
    requires Achievable(lib, bs) && !sofar.Blocked? && !Attempt(lib, bs, sofar, s).outcome.Blocked?
    requires exists i :: 0 <= i < |bs| && !bs[i].Send?
    ensures |Attempt(lib, bs, sofar, s).port.input| < |s.input|
  {
    var r := Exec(lib, bs[0], s);
    var next := if r.outcome.Failed? then r.outcome else sofar;
    assert Attempt(lib, bs, sofar, s) == Attempt(lib, bs[1..], next, r.port);
    if bs[0].Send? {
      var i :| 0 <= i < |bs| && !bs[i].Send?;
      assert bs[1..][i - 1] == bs[i];
      assert r.port.input == s.input;
      AttemptEats(lib, bs[1..], next, r.port);
    } else {
      ReturningEats(lib, bs[0], s);
      AttemptSound(lib, bs[1..], next, r.port);
    }
  }

  // ---------- how an attempt is made to fail ----------

  /** A write outcome that one of the sends meets. */
  lemma {:induction false} FaultIsMet(lib: Libs, bs: seq<Basic>, s: Port, k: nat)
    requires k < |s.faults| && s.faults[k] && k < Sends(bs)
    ensures !StopAtFirst(lib, bs, s).outcome.Done?
  {
    var r := Exec(lib, bs[0], s);
    ExecFaults(lib, bs[0], s);
    if r.outcome.Done? {
      FaultIsMet(lib, bs[1..], r.port, if bs[0].Send? then k - 1 else k);
    }
  }

  /** What the script takes from an input on which it succeeds. */
  function Eaten(lib: Libs, bs: seq<Basic>, input: seq<Event>): seq<Event> {
    if bs == [] then []
    else
      var first := Taken(lib, bs[0], Port(input, [], [], []));
      first + Eaten(lib, bs[1..], input[|first|..])
  }

  /** The first command that can fail on a valid script: monitors come before it. */
  predicate FirstRisk(bs: seq<Basic>, i: int) {
    0 <= i < |bs| && !bs[i].Monitor? && forall j :: 0 <= j < i ==> bs[j].Monitor?
  }

  /** Events and a write outcome that make command i fail: monitors take theirs before, an expect times out at
      once. */
  function Lead(lib: Libs, bs: seq<Basic>, i: nat, input: seq<Event>): seq<Event>
    requires i < |bs|
  {
    Eaten(lib, bs[..i], input) + if bs[i].Expect? then [Timer] else []
  }

  function Fault(b: Basic): seq<bool> {
    if b.Send? then [true] else []
  }

  lemma FailsNow(lib: Libs, b: Basic, s: Port, x: seq<Event>, f: seq<bool>)
    requires CanSucceed(lib, b) && !b.Monitor?
    requires s.input == (if b.Expect? then [Timer] else []) + x && s.faults == Fault(b) + f
    ensures var r := Exec(lib, b, s); r.outcome.Failed? && r.port.input == x && r.port.faults == f
  {
  }

  lemma LeadStep(lib: Libs, bs: seq<Basic>, i: nat, input: seq<Event>, rest: seq<Event>)
    requires 0 < i < |bs| && rest == input[|Taken(lib, bs[0], Port(input, [], [], []))|..]
    ensures Lead(lib, bs, i, input) == Taken(lib, bs[0], Port(input, [], [], [])) + Lead(lib, bs[1..], i - 1, rest)
  {
    assert bs[..i][1..] == bs[1..][..i - 1] && bs[..i][0] == bs[0];
  }

  /** A command that reads, before the same events as on a bare port and then others. */
  lemma TakesItsPart(lib: Libs, b: Basic, input: seq<Event>, s: Port, rest: seq<Event>)
    requires !b.Send? && Exec(lib, b, Port(input, [], [], [])).outcome.Done?
    requires s.input == Taken(lib, b, Port(input, [], [], [])) + rest
    ensures var r := Exec(lib, b, s); r.outcome.Done? && r.port.input == rest && r.port.faults == s.faults
  {
    ExecFrame(lib, b, Port(input, [], [], []), s);
  }

  /** On that lead, followed by anything, the stopping form stops and the written one goes on after it. */
  lemma {:induction false} FailsAt(lib: Libs, bs: seq<Basic>, i: nat, input: seq<Event>, s: Port, x: seq<Event>, f: seq<bool>)
    requires FirstRisk(bs, i) && Succeeds(lib, bs, input)
    requires s.input == Lead(lib, bs, i, input) + x && s.faults == Fault(bs[i]) + f
    ensures var p := StopAtFirst(lib, bs, s);
            && p.outcome.Failed? && p.port.input == x && p.port.faults == f
            && Attempt(lib, bs, Done, s) == Attempt(lib, bs[i + 1..], p.outcome, p.port)
  {
    if i == 0 {
      SuccessIsAchievable(lib, bs, Port(input, [], [], []));
      FailsNow(lib, bs[0], s, x, f);
    } else {
      var rest := SucceedsStep(lib, bs, input);
      var lead := Lead(lib, bs[1..], i - 1, rest);
      LeadStep(lib, bs, i, input, rest);
      TakesItsPart(lib, bs[0], input, s, lead + x);
      FailsAt(lib, bs[1..], i - 1, rest, Exec(lib, bs[0], s).port, x, f);
      assert bs[1..][i..] == bs[i + 1..];
    }
  }

  lemma RunsOnStep(lib: Libs, bs: seq<Basic>, input: seq<Event>, s: Port, x: seq<Event>, f: seq<bool>)
    returns (rest: seq<Event>)
    requires bs != [] && Succeeds(lib, bs, input)
    requires s.input == Eaten(lib, bs, input) + x && Sends(bs) <= |s.faults| && f == s.faults[Sends(bs)..]
    ensures Succeeds(lib, bs[1..], rest)
    ensures var r, tail := Exec(lib, bs[0], s), bs[1..];
            && !r.outcome.Blocked? && r.port.input == Eaten(lib, tail, rest) + x
            && Sends(tail) <= |r.port.faults| && f == r.port.faults[Sends(tail)..]
  {
    rest := SucceedsStep(lib, bs, input);
    EatenStep(lib, bs, input, rest, x);
    ReadsOn(lib, bs[0], input, s, Eaten(lib, bs[1..], rest) + x);
    ExecFaults(lib, bs[0], s);
    FaultsStep(bs, s.faults, f);
  }

  lemma EatenStep(lib: Libs, bs: seq<Basic>, input: seq<Event>, rest: seq<Event>, x: seq<Event>)
    requires bs != [] && rest == input[|Taken(lib, bs[0], Port(input, [], [], []))|..]
    ensures Eaten(lib, bs, input) + x == Taken(lib, bs[0], Port(input, [], [], [])) + (Eaten(lib, bs[1..], rest) + x)
  {
    var first := Taken(lib, bs[0], Port(input, [], [], []));
    assert Eaten(lib, bs, input) == first + Eaten(lib, bs[1..], rest);
    Associate(first, Eaten(lib, bs[1..], rest), x);
  }

  lemma Associate<T>(a: seq<T>, b: seq<T>, c: seq<T>)
    ensures a + b + c == a + (b + c)
  {
  }

  /** The same for any command, whether its write fails or not. */
  lemma ReadsOn(lib: Libs, b: Basic, input: seq<Event>, s: Port, rest: seq<Event>)
    requires Exec(lib, b, Port(input, [], [], [])).outcome.Done?
    requires s.input == Taken(lib, b, Port(input, [], [], [])) + rest
    ensures !Exec(lib, b, s).outcome.Blocked? && Exec(lib, b, s).port.input == rest
  {
    if b.Send? {
      assert Taken(lib, b, Port(input, [], [], [])) == [] && [] + rest == rest;
    } else {
      TakesItsPart(lib, b, input, s, rest);
    }
  }

  lemma FaultsStep(bs: seq<Basic>, faults: seq<bool>, f: seq<bool>)
    requires bs != [] && Sends(bs) <= |faults| && f == faults[Sends(bs)..]
    ensures var after := FaultsAfter(bs[0], faults);
            Sends(bs[1..]) <= |after| && f == after[Sends(bs[1..])..]
  {
  }

  /** After a failure: commands that take a known part of the input, with one write outcome for each send. */
  lemma {:induction false} RunsOn(lib: Libs, bs: seq<Basic>, input: seq<Event>, sofar: Outcome, s: Port, x: seq<Event>, f: seq<bool>)
    requires sofar.Failed? && Succeeds(lib, bs, input)
    requires s.input == Eaten(lib, bs, input) + x && Sends(bs) <= |s.faults| && f == s.faults[Sends(bs)..]
    ensures var r := Attempt(lib, bs, sofar, s); r.outcome.Failed? && r.port.input == x && r.port.faults == f
  {
    if bs != [] {
      var rest := RunsOnStep(lib, bs, input, s, x, f);
      var r := Exec(lib, bs[0], s);
      RunsOn(lib, bs[1..], rest, if r.outcome.Failed? then r.outcome else sofar, r.port, x, f);
    }
  }

  // ---------- both forms on a retry ----------

  predicate WrittenSaves(lib: Libs, bs: seq<Basic>, s: Port) {
    Attempts(lib, bs, 2, s).outcome.Done?
  }

  predicate MeantSaves(lib: Libs, bs: seq<Basic>, s: Port) {
    MeantAttempts(lib, bs, 2, s).outcome.Done?
  }

  predicate OnlyLastCanFail(bs: seq<Basic>) {
    forall i :: 0 <= i < |bs| - 1 ==> bs[i].Monitor?
  }

  /** A monitor that can return never fails, so that the last command is the only one after which the forms
      could part. */
  lemma {:induction false} SameAttempt(lib: Libs, bs: seq<Basic>, s: Port)
    requires OnlyLastCanFail(bs) && Achievable(lib, bs)
    ensures Attempt(lib, bs, Done, s) == StopAtFirst(lib, bs, s)
  {
    if |bs| == 1 {
      assert bs[1..] == [];
    } else if bs != [] {
      MonitorObserves(lib, bs[0].value, s);
      SameAttempt(lib, bs[1..], Exec(lib, bs[0], s).port);
    }
  }

  lemma {:induction false} SameAttempts(lib: Libs, bs: seq<Basic>, left: nat, s: Port)
    requires OnlyLastCanFail(bs) && Achievable(lib, bs) && left > 0
    ensures Attempts(lib, bs, left, s) == MeantAttempts(lib, bs, left, s)
  {
    SameAttempt(lib, bs, s);
    if left > 1 {
      SameAttempts(lib, bs, left - 1, StopAtFirst(lib, bs, s).port);
    }
  }

  /** Both forms in terms of the stopping one: they differ in the port at which the second attempt starts. */
  lemma TwoAttempts(lib: Libs, bs: seq<Basic>, s: Port)
    ensures var w, p := Attempt(lib, bs, Done, s), StopAtFirst(lib, bs, s);
            && (WrittenSaves(lib, bs, s) <==>
                  p.outcome.Done? || (w.outcome.Failed? && StopAtFirst(lib, bs, w.port).outcome.Done?))
            && (MeantSaves(lib, bs, s) <==>
                  p.outcome.Done? || (p.outcome.Failed? && StopAtFirst(lib, bs, p.port).outcome.Done?))
  {
    var w, p := Attempt(lib, bs, Done, s), StopAtFirst(lib, bs, s);
    AttemptRefinesStopAtFirst(lib, bs, s);
    AttemptRefinesStopAtFirst(lib, bs, w.port);
    assert Attempts(lib, bs, 2, s) == if w.outcome.Failed? then Attempts(lib, bs, 1, w.port) else w;
    assert MeantAttempts(lib, bs, 2, s) == if p.outcome.Failed? then MeantAttempts(lib, bs, 1, p.port) else p;
  }

  lemma NeitherSaves(lib: Libs, bs: seq<Basic>, s: Port)
    requires !Achievable(lib, bs)
    ensures !WrittenSaves(lib, bs, s) && !MeantSaves(lib, bs, s)
  {
    TwoAttempts(lib, bs, s);
    AchievableExactly(lib, bs);
  }

  lemma {:induction false} SendsOfSuffix(bs: seq<Basic>, i: nat)
    requires i <= |bs|
    ensures Sends(bs[i..]) <= Sends(bs)
    ensures i < |bs| && bs[i].Send? ==> Sends(bs) > 0
  {
    if i == 0 {
      assert bs[0..] == bs;
    } else {
      SendsOfSuffix(bs[1..], i - 1);
      assert bs[1..][i - 1..] == bs[i..];
    }
  }

  lemma {:induction false} SendsAlone(lib: Libs, bs: seq<Basic>)
    requires forall i :: 0 <= i < |bs| ==> bs[i].Send?
    ensures Succeeds(lib, bs, []) && Eaten(lib, bs, []) == [] && Sends(bs) == |bs|
  {
    if bs != [] {
      SendsAlone(lib, bs[1..]);
      var bare := Port([], [], [], []);
      SameInputSucceeds(lib, bs[1..], bare, Exec(lib, bs[0], bare).port);
    }
  }

  /** Only sends follow the command that fails: write outcomes that are good for one attempt serve the retry of
      the stopping form, and are used up by the first attempt of the written one. */
  lemma WritesUsedUp(lib: Libs, bs: seq<Basic>, i: nat, input: seq<Event>) returns (s: Port)
    requires FirstRisk(bs, i) && i < |bs| - 1 && Succeeds(lib, bs, input)
    requires forall j :: i < j < |bs| ==> bs[j].Send?
    ensures MeantSaves(lib, bs, s) && !WrittenSaves(lib, bs, s)
  {
    var tail := bs[i + 1..];
    var k, n := Sends(bs), Sends(tail);
    SendsAlone(lib, tail);
    SendsOfSuffix(bs, i + 1);
    var f := seq(k, _ => false) + [true];
    s := Port(Lead(lib, bs, i, input) + input, Fault(bs[i]) + f, [], []);
    FailsAt(lib, bs, i, input, s, input, f);
    TwoAttempts(lib, bs, s);
    var p := StopAtFirst(lib, bs, s);
    SameInputSucceeds(lib, bs, Port(input, [], [], []), p.port);
    RunsOn(lib, tail, [], p.outcome, p.port, input, f[n..]);
    FaultIsMet(lib, bs, Attempt(lib, bs, Done, s).port, k - n);
  }

  /** Something that reads follows the command that fails: on the shortest input for one attempt the retry of
      the stopping form succeeds, and the first attempt of the written one eats of it. */
  lemma InputEaten(lib: Libs, bs: seq<Basic>, i: nat, input: seq<Event>) returns (s: Port)
    requires FirstRisk(bs, i) && Achievable(lib, bs) && Succeeds(lib, bs, input)
    requires exists j :: i < j < |bs| && !bs[j].Send?
    ensures MeantSaves(lib, bs, s) && !WrittenSaves(lib, bs, s)
  {
    var least := ShortestInput(lib, bs, input);
    s := Port(Lead(lib, bs, i, least) + least, Fault(bs[i]), [], []);
    assert Fault(bs[i]) + [] == Fault(bs[i]);
    FailsAt(lib, bs, i, least, s, least, []);
    TwoAttempts(lib, bs, s);
    var p, tail := StopAtFirst(lib, bs, s), bs[i + 1..];
    SameInputSucceeds(lib, bs, Port(least, [], [], []), p.port);
    var w := Attempt(lib, tail, p.outcome, p.port);
    FailureSticks(lib, tail, p.outcome, p.port);
    if w.outcome.Failed? {
      var j :| i < j < |bs| && !bs[j].Send?;
      assert tail[j - i - 1] == bs[j];
      AttemptEats(lib, tail, p.outcome, p.port);
      AttemptSound(lib, tail, p.outcome, p.port);
      if StopAtFirst(lib, bs, w.port).outcome.Done? {
        SameInputSucceeds(lib, bs, w.port, Port(w.port.input, [], [], []));
      }
    }
  }

  lemma {:induction false} FindFirstRisk(bs: seq<Basic>) returns (i: nat)
    requires !OnlyLastCanFail(bs)
    ensures FirstRisk(bs, i) && i < |bs| - 1
  {
    if !bs[0].Monitor? {
      i := 0;
    } else {
      assert forall j :: 0 <= j < |bs| - 1 ==> bs[1..][j] == bs[j + 1];
      var j :| 0 <= j < |bs| - 1 && !bs[j].Monitor?;
      assert !bs[1..][j - 1].Monitor?;
      i := FindFirstRisk(bs[1..]);
      i := i + 1;
    }
  }

  lemma WrittenLoses(lib: Libs, bs: seq<Basic>) returns (s: Port)
    requires Achievable(lib, bs) && !OnlyLastCanFail(bs)
    ensures MeantSaves(lib, bs, s) && !WrittenSaves(lib, bs, s)
  {
    var i := FindFirstRisk(bs);
    var input := SomeInputSucceeds(lib, bs);
    if forall j :: i < j < |bs| ==> bs[j].Send? {
      s := WritesUsedUp(lib, bs, i, input);
    } else {
      s := InputEaten(lib, bs, i, input);
    }
  }

  /** With a retry the two forms decide alike on every port exactly when every command but the last is a
      monitor, or the script cannot succeed at all; and in no other script does the written form succeed
      wherever the stopping one would. */
  lemma RetryAgreesExactlyWhen(lib: Libs, bs: seq<Basic>)
    ensures (forall s :: WrittenSaves(lib, bs, s) <==> MeantSaves(lib, bs, s))
            <==> !Achievable(lib, bs) || OnlyLastCanFail(bs)
    ensures (forall s :: MeantSaves(lib, bs, s) ==> WrittenSaves(lib, bs, s))
            <==> !Achievable(lib, bs) || OnlyLastCanFail(bs)
  {
    if !Achievable(lib, bs) {
      forall s ensures !WrittenSaves(lib, bs, s) && !MeantSaves(lib, bs, s) {
        NeitherSaves(lib, bs, s);
      }
    } else if OnlyLastCanFail(bs) {
      forall s ensures WrittenSaves(lib, bs, s) <==> MeantSaves(lib, bs, s) {
        SameAttempts(lib, bs, 2, s);
      }
    } else {
      var s := WrittenLoses(lib, bs);
    }
  }

  /** The forms differ the other way too: if a send follows the first command that can fail, the written form
      can succeed where the stopping one does not, by using up the failing writes in its first attempt. */
  lemma RetryCanRescue(lib: Libs, bs: seq<Basic>, i: nat, j: nat)
    requires Achievable(lib, bs) && FirstRisk(bs, i) && i < j < |bs| && bs[j].Send?
    ensures exists s :: WrittenSaves(lib, bs, s) && !MeantSaves(lib, bs, s)
  {
    var tail := bs[i + 1..];
    SendsOfSuffix(bs, j);
    SendsOfSuffix(tail, j - i - 1);
    assert tail[j - i - 1] == bs[j];
    var input := SomeInputSucceeds(lib, bs);
    var between := SomeInputSucceeds(lib, tail);
    var x, f := Eaten(lib, tail, between) + input, seq(Sends(tail), _ => true);
    var s := Port(Lead(lib, bs, i, input) + x, Fault(bs[i]) + f, [], []);
    FailsAt(lib, bs, i, input, s, x, f);
    TwoAttempts(lib, bs, s);
    var p := StopAtFirst(lib, bs, s);
    FaultIsMet(lib, bs, p.port, 0);
    RunsOn(lib, tail, between, p.outcome, p.port, input, []);
    SameInputSucceeds(lib, bs, Port(input, [], [], []), Attempt(lib, bs, Done, s).port);
    assert WrittenSaves(lib, bs, s) && !MeantSaves(lib, bs, s);
  }

  lemma {:induction false} AllTimeOut(lib: Libs, bs: seq<Basic>, sofar: Outcome, s: Port, x: seq<Event>)
    requires forall i :: 0 <= i < |bs| ==> bs[i].Expect?
    requires sofar.Failed? && Achievable(lib, bs) && s.input == seq(|bs|, _ => Timer) + x
    ensures var r := Attempt(lib, bs, sofar, s); r.outcome.Failed? && r.port == s.(input := x)
  {
    if bs == [] {
      assert s.input == x;
    } else {
      var r := Exec(lib, bs[0], s);
      assert s.input[0] == Timer && s.input[1..] == seq(|bs[1..]|, _ => Timer) + x;
      AllTimeOut(lib, bs[1..], r.outcome, r.port, x);
    }
  }

  /** Only expects follow the first command: timers use up the first attempt of the written form, and meet the
      retry of the stopping one. */
  lemma TimersUsedUp(lib: Libs, bs: seq<Basic>) returns (s: Port)
    requires Achievable(lib, bs) && |bs| > 1 && !bs[0].Monitor? && forall j :: 0 < j < |bs| ==> bs[j].Expect?
    ensures WrittenSaves(lib, bs, s) && !MeantSaves(lib, bs, s)
  {
    var tail := bs[1..];
    var input := SomeInputSucceeds(lib, bs);
    var x := seq(|tail|, _ => Timer) + input;
    s := Port(Lead(lib, bs, 0, input) + x, Fault(bs[0]), [], []);
    assert Fault(bs[0]) + [] == Fault(bs[0]);
    FailsAt(lib, bs, 0, input, s, x, []);
    TwoAttempts(lib, bs, s);
    var p := StopAtFirst(lib, bs, s);
    AllTimeOut(lib, tail, p.outcome, p.port, input);
    SameInputSucceeds(lib, bs, Port(input, [], [], []), Attempt(lib, bs, Done, s).port);
    assert x[0] == Timer;
    TimerStops(lib, bs, p.port);
  }

  lemma TimerStops(lib: Libs, bs: seq<Basic>, s: Port)
    requires |bs| > 1 && !bs[0].Monitor? && bs[1].Expect? && s.input != [] && s.input[0] == Timer
    ensures !StopAtFirst(lib, bs, s).outcome.Done?
  {
    var r := Exec(lib, bs[0], s);
    if bs[0].Send? {
      assert r.port.input == s.input && bs[1..][0] == bs[1];
      assert !Exec(lib, bs[1], r.port).outcome.Done?;
      assert !StopAtFirst(lib, bs[1..], r.port).outcome.Done?;
    } else {
      assert !r.outcome.Done?;
    }
  }

  /** Without monitors, each of the forms can succeed where the other does not as soon as there are two commands. */
  lemma RetryWithoutMonitors(lib: Libs, bs: seq<Basic>)
    requires forall i :: 0 <= i < |bs| ==> !bs[i].Monitor?
    ensures (forall s :: MeantSaves(lib, bs, s) ==> WrittenSaves(lib, bs, s)) <==> !Achievable(lib, bs) || |bs| <= 1
    ensures (forall s :: WrittenSaves(lib, bs, s) ==> MeantSaves(lib, bs, s)) <==> !Achievable(lib, bs) || |bs| <= 1
  {
    RetryAgreesExactlyWhen(lib, bs);
    if |bs| > 1 && Achievable(lib, bs) {
      assert !bs[0].Monitor?;
      if j :| 0 < j < |bs| && bs[j].Send? {
        RetryCanRescue(lib, bs, 0, j);
      } else {
        var s := TimersUsedUp(lib, bs);
      }
    }
  }

  /** Both forms of an attempt of two commands, without recursion. */
  lemma OfTwo(lib: Libs, a: Basic, b: Basic, s: Port)
    ensures var r := Exec(lib, a, s);
            && StopAtFirst(lib, [a, b], s) == (if r.outcome.Done? then Exec(lib, b, r.port) else r)
            && (r.outcome.Blocked? ==> Attempt(lib, [a, b], Done, s) == r)
            && (!r.outcome.Blocked? ==>
                  var q := Exec(lib, b, r.port);
                  Attempt(lib, [a, b], Done, s)
                  == if q.outcome.Done? then Ran(q.port, r.outcome) else q)
  {
    var r := Exec(lib, a, s);
    assert [a, b][1..] == [b] && [b][1..] == [];
    assert StopAtFirst(lib, [b], r.port) == Exec(lib, b, r.port);
    if !r.outcome.Blocked? {
      var q := Exec(lib, b, r.port);
      assert Attempt(lib, [b], r.outcome, r.port) == if q.outcome.Done? then Ran(q.port, r.outcome) else q;
    }
  }

  /** For example: after the first command timed out, the written attempt goes on and reads the text that the
      retry would have matched, and then fails. */
  lemma RetryIsNotStopAtFirst(lib: Libs)
    ensures var s := Port([Timer, Char('x'), Char('y'), Timer, Timer], [], [], []);
            var bs := [Expect(Quoted('x')), Expect(Quoted('y'))];
            MeantAttempts(lib, bs, 2, s).outcome.Done? && Attempts(lib, bs, 2, s).outcome.Failed?
  {
    var bs := [Expect(Quoted('x')), Expect(Quoted('y'))];
    var s0 := Port([Timer, Char('x'), Char('y'), Timer, Timer], [], [], []);
    var s1 := Port([Char('x'), Char('y'), Timer, Timer], [], [], []);
    var s2 := Port([Char('y'), Timer, Timer], [], [], []);
    var s3 := Port([Timer, Timer], [], [], []);
    var s4 := Port([Timer], [], [], []);
    assert s0.input[1..] == s1.input && s1.input[1..] == s2.input && s2.input[1..] == s1.input[2..] == s3.input;
    assert s3.input[1..] == s4.input;
    ExpectLetter(lib, 'x', s0);
    ExpectLetter(lib, 'x', s1);
    ExpectLetter(lib, 'y', s1);
    ExpectLetter(lib, 'y', s2);
    ExpectLetter(lib, 'x', s3);
    ExpectLetter(lib, 'y', s4);
    OfTwo(lib, bs[0], bs[1], s0);
    OfTwo(lib, bs[0], bs[1], s1);
    OfTwo(lib, bs[0], bs[1], s3);
    assert StopAtFirst(lib, bs, s0).port == s1 && StopAtFirst(lib, bs, s1).outcome.Done?;
    assert Attempt(lib, bs, Done, s0).port == s3 && Attempt(lib, bs, Done, s3).outcome.Failed?;
    assert MeantAttempts(lib, bs, 2, s0) == MeantAttempts(lib, bs, 1, s1);
    assert Attempts(lib, bs, 2, s0) == Attempts(lib, bs, 1, s3);
  }
}
