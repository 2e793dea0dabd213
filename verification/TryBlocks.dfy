/** Try blocks: the attempt as written against one that stops at its first failure, and the verdict. */
module TryBlocks {
  import opened Script
  import opened Patterns
  import opened Live
  import opened Control

  /** The attempt that the breaks at the error checks evidently mean, as the top-level script does it. */
  function StopAtFirst(lib: Libs, bs: seq<Basic>, s: Port): Ran {
    if bs == [] then Ran(s, Done)
    else
      var r := Exec(lib, bs[0], s);
      if r.outcome.Done? then StopAtFirst(lib, bs[1..], r.port) else r
  }

  lemma {:induction false} FailureSticks(lib: Libs, bs: seq<Basic>, sofar: Outcome, s: Port)
    requires sofar.Failed?
    ensures !Attempt(lib, bs, sofar, s).outcome.Done?
  {
    if bs != [] {
      var r := Exec(lib, bs[0], s);
      if !r.outcome.Blocked? {
        FailureSticks(lib, bs[1..], if r.outcome.Failed? then r.outcome else sofar, r.port);
      }
    }
  }

  /** The attempt as written succeeds exactly when the stopping form does, and then, or when the stopping
      form is still waiting, both do the same. When the stopping form fails, the written one fails or goes
      on to wait, and consumes, transmits and logs at least as much. */
  lemma {:induction false} AttemptRefinesStopAtFirst(lib: Libs, bs: seq<Basic>, s: Port)
    ensures var w, p := Attempt(lib, bs, Done, s), StopAtFirst(lib, bs, s);
            && (w.outcome.Done? <==> p.outcome.Done?)
            && (!p.outcome.Failed? ==> w == p)
            && (p.outcome.Failed? ==> Extends(p.port, w.port))
  {
    if bs != [] {
      var r := Exec(lib, bs[0], s);
      match r.outcome
      case Done => AttemptRefinesStopAtFirst(lib, bs[1..], r.port);
      case Blocked =>
      case Failed(e) =>
        FailureSticks(lib, bs[1..], r.outcome, r.port);
        AttemptSound(lib, bs[1..], r.outcome, r.port);
    }
  }

  /** The port before command i of an attempt. */
  function PortBefore(lib: Libs, bs: seq<Basic>, i: nat, s: Port): Port
    requires i <= |bs|
  {
    if i == 0 then s else Exec(lib, bs[i - 1], PortBefore(lib, bs, i - 1, s)).port
  }

  lemma {:induction false} PortBeforeShift(lib: Libs, bs: seq<Basic>, i: nat, s: Port)
    requires 0 < i <= |bs|
    ensures PortBefore(lib, bs, i, s) == PortBefore(lib, bs[1..], i - 1, Exec(lib, bs[0], s).port)
  {
    if i > 1 {
      PortBeforeShift(lib, bs, i - 1, s);
    }
  }

  /** Command i of an attempt that runs all of bs, and what it reported. */
  function ReportOf(lib: Libs, bs: seq<Basic>, i: nat, s: Port): Outcome
    requires i < |bs|
  {
    Exec(lib, bs[i], PortBefore(lib, bs, i, s)).outcome
  }

  lemma ReportShift(lib: Libs, bs: seq<Basic>, i: nat, s: Port)
    requires 0 < i < |bs|
    ensures ReportOf(lib, bs, i, s) == ReportOf(lib, bs[1..], i - 1, Exec(lib, bs[0], s).port)
  {
    PortBeforeShift(lib, bs, i, s);
  }

  /** Command i failed with outcome o, and every later one succeeded. */
  ghost predicate LastFailure(lib: Libs, bs: seq<Basic>, s: Port, i: int, o: Outcome) {
    0 <= i < |bs| && ReportOf(lib, bs, i, s).Failed? && o == ReportOf(lib, bs, i, s)
    && forall j :: i < j < |bs| ==> ReportOf(lib, bs, j, s).Done?
  }

  ghost predicate AllSucceeded(lib: Libs, bs: seq<Basic>, s: Port) {
    forall i :: 0 <= i < |bs| ==> ReportOf(lib, bs, i, s).Done?
  }

  lemma LastFailureCons(lib: Libs, bs: seq<Basic>, s: Port, i: int, o: Outcome)
    requires bs != [] && LastFailure(lib, bs[1..], Exec(lib, bs[0], s).port, i, o)
    ensures LastFailure(lib, bs, s, i + 1, o)
  {
    ReportShift(lib, bs, i + 1, s);
    forall j | i + 1 < j < |bs| ensures ReportOf(lib, bs, j, s).Done? {
      ReportShift(lib, bs, j, s);
    }
  }

  lemma AllSucceededCons(lib: Libs, bs: seq<Basic>, s: Port)
    requires bs != [] && AllSucceeded(lib, bs[1..], Exec(lib, bs[0], s).port)
    ensures forall j :: 0 < j < |bs| ==> ReportOf(lib, bs, j, s).Done?
  {
    forall j | 0 < j < |bs| ensures ReportOf(lib, bs, j, s).Done? {
      ReportShift(lib, bs, j, s);
    }
  }

  /** With every command run: outcome o is that of the last failure, or the one from before if all succeeded. */
  ghost predicate Reported(lib: Libs, bs: seq<Basic>, sofar: Outcome, s: Port, o: Outcome) {
    (o == sofar && AllSucceeded(lib, bs, s)) || exists i :: LastFailure(lib, bs, s, i, o)
  }

  lemma ReportedCons(lib: Libs, bs: seq<Basic>, sofar: Outcome, s: Port, o: Outcome)
    requires bs != [] && !Exec(lib, bs[0], s).outcome.Blocked?
    requires var r := Exec(lib, bs[0], s);
             Reported(lib, bs[1..], if r.outcome.Failed? then r.outcome else sofar, r.port, o)
    ensures Reported(lib, bs, sofar, s, o)
  {
    var r := Exec(lib, bs[0], s);
    assert ReportOf(lib, bs, 0, s) == r.outcome;
    if i :| LastFailure(lib, bs[1..], r.port, i, o) {
      LastFailureCons(lib, bs, s, i, o);
    } else {
      AllSucceededCons(lib, bs, s);
      if r.outcome.Failed? {
        assert LastFailure(lib, bs, s, 0, o);
      }
    }
  }

  /** An attempt that returns has run every command, and reports the error of the last one that failed; the
      stopping form reports the first. */
  lemma {:induction false} AttemptReportsLastError(lib: Libs, bs: seq<Basic>, sofar: Outcome, s: Port)
    requires !sofar.Blocked?
    requires !Attempt(lib, bs, sofar, s).outcome.Blocked?
    ensures var w := Attempt(lib, bs, sofar, s);
            && w.port == PortBefore(lib, bs, |bs|, s)
            && Reported(lib, bs, sofar, s, w.outcome)
  {
    if bs != [] {
      var r := Exec(lib, bs[0], s);
      var next := if r.outcome.Failed? then r.outcome else sofar;
      AttemptReportsLastError(lib, bs[1..], next, r.port);
      PortBeforeShift(lib, bs, |bs|, s);
      ReportedCons(lib, bs, sofar, s, Attempt(lib, bs, sofar, s).outcome);
    }
  }

  /** The except script runs every command from where the one before it stopped, whatever they report. */
  lemma {:induction false} RecoverRunsEverything(lib: Libs, es: seq<Basic>, s: Port)
    requires !Recover(lib, es, s).outcome.Blocked?
    ensures Recover(lib, es, s) == Ran(PortBefore(lib, es, |es|, s), Done)
  {
    if es != [] {
      RecoverRunsEverything(lib, es[1..], Exec(lib, es[0], s).port);
      PortBeforeShift(lib, es, |es|, s);
    }
  }

  /** A script name that the try block can run. */
  predicate Runnable(scripts: map<string, NamedScript>, name: string) {
    name in scripts && ParseSpec(scripts[name].content).Ok?
  }

  /** Without a runnable main script a try block fails and touches nothing. */
  lemma TryWithoutScript(lib: Libs, block: TryBlock, scripts: map<string, NamedScript>, s: Port)
    requires !Runnable(scripts, block.script)
    ensures Trying(lib, block, scripts, s).outcome.Failed? && Trying(lib, block, scripts, s).port == s
    ensures Trying(lib, block, scripts, s).outcome.error
            == if block.script !in scripts then NoScript(block.name, block.script)
               else BadScript(block.script, ParseSpec(scripts[block.script].content).error)
  {
  }

  /** The verdict of a try block with a runnable main script: at most two attempts; it succeeds if and only if
      in one of them every command did, and leaves the port as that attempt left it; it fails only after all
      of them failed, and then a runnable except script has run once, from where the last attempt stopped,
      and has not changed the verdict. */
  lemma TryVerdict(lib: Libs, block: TryBlock, scripts: map<string, NamedScript>, s: Port)
    requires Runnable(scripts, block.script)
    ensures var bs := ParseSpec(scripts[block.script].content).value;
            var first := Attempt(lib, bs, Done, s);
            var second := Attempt(lib, bs, Done, first.port);
            var last := if block.retry && first.outcome.Failed? then second else first;
            var recovers := block.except != "" && Runnable(scripts, block.except);
            var r := Trying(lib, block, scripts, s);
            && (r.outcome.Done? <==> StopAtFirst(lib, bs, s).outcome.Done?
                                     || (block.retry && first.outcome.Failed?
                                         && StopAtFirst(lib, bs, first.port).outcome.Done?))
            && (r.outcome.Done? ==> r == last)
            && (r.outcome.Failed? ==>
                  && first.outcome.Failed? && last.outcome.Failed?
                  && (block.except == "" || recovers ==> r.outcome.error == TryFailed(block.name, last.outcome.error))
                  && (block.except != "" && block.except !in scripts ==> r.outcome.error == NoExcept(block.name, block.except))
                  && (block.except != "" && block.except in scripts && !recovers ==>
                        r.outcome.error == BadExcept(block.except, ParseSpec(scripts[block.except].content).error))
                  && r.port == if recovers then Recover(lib, ParseSpec(scripts[block.except].content).value, last.port).port
                               else last.port)
            && (r.outcome.Blocked? ==> r.port.input == [])
  {
    StepSound(lib, Try(block, scripts), s);
    var bs := ParseSpec(scripts[block.script].content).value;
    var first := Attempt(lib, bs, Done, s);
    AttemptRefinesStopAtFirst(lib, bs, s);
    AttemptRefinesStopAtFirst(lib, bs, first.port);
    assert Attempts(lib, bs, 2, s) == if first.outcome.Failed? then Attempts(lib, bs, 1, first.port) else first;
    if Runnable(scripts, block.except) && Attempts(lib, bs, MaxAttempts(block), s).outcome.Failed? {
      RecoverSound(lib, ParseSpec(scripts[block.except].content).value, Attempts(lib, bs, MaxAttempts(block), s).port);
    }
  }
}
