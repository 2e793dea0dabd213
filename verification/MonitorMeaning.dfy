/** The meaning of a monitor: where it stops, and which lines it prints. */
module MonitorMeaning {
  import opened Wrappers
  import opened Text
  import opened Patterns
  import opened Live
  import opened ExpectMeaning

  /** The characters of a trace, timer events left out. */
  function Received(es: seq<Event>): string {
    if es == [] then ""
    else
      var last := es[|es| - 1];
      Received(es[..|es| - 1]) + if last.Char? then [last.c] else ""
  }

  function Newlines(text: string): nat {
    |Lines(text)| - 1
  }

  /** All lines but the last, without trailing carriage returns and newlines. */
  function Complete(lines: seq<string>): (ls: seq<string>)
    requires lines != []
    ensures |ls| == |lines| - 1
  {
    seq(|lines| - 1, i requires 0 <= i < |lines| - 1 => TrimLineEnd(lines[i]))
  }

  /** The complete lines of a text. */
  function PrintedLines(text: string): (ls: seq<string>)
    ensures |ls| == Newlines(text)
  {
    Complete(Lines(text))
  }

  lemma {:induction false} JoinAppend(ls: seq<string>, l: string)
    requires ls != []
    ensures Join(ls + [l]) == Join(ls) + [LF] + l
  {
    if |ls| > 1 {
      JoinAppend(ls[1..], l);
      assert (ls + [l])[1..] == ls[1..] + [l];
      assert Join(ls + [l]) == ls[0] + [LF] + (Join(ls[1..]) + [LF] + l);
    } else {
      assert (ls + [l])[1..] == [l];
    }
  }

  lemma {:induction false} JoinLonger(ls: seq<string>, last: string, c: char)
    ensures Join(ls + [last + [c]]) == Join(ls + [last]) + [c]
  {
    if ls != [] {
      JoinLonger(ls[1..], last, c);
      assert (ls + [last])[1..] == ls[1..] + [last];
      assert (ls + [last + [c]])[1..] == ls[1..] + [last + [c]];
    }
  }

  /** The lines of a text with one more character. */
  function MoreLines(ls: seq<string>, c: char): (r: seq<string>)
    requires ls != []
    ensures |r| == if c == LF then |ls| + 1 else |ls|
  {
    if c == LF then ls + [""] else ls[..|ls| - 1] + [ls[|ls| - 1] + [c]]
  }

  lemma MoreLinesAreLines(ls: seq<string>, c: char)
    requires ls != [] && forall i :: 0 <= i < |ls| ==> OneLine(ls[i])
    ensures forall i :: 0 <= i < |MoreLines(ls, c)| ==> OneLine(MoreLines(ls, c)[i])
  {
    forall i | 0 <= i < |MoreLines(ls, c)| ensures OneLine(MoreLines(ls, c)[i]) {
      assert c != LF && i == |ls| - 1 ==> OneLine(ls[i] + [c]);
    }
  }

  lemma JoinMoreLines(ls: seq<string>, c: char)
    requires ls != []
    ensures Join(MoreLines(ls, c)) == Join(ls) + [c]
  {
    if c == LF {
      JoinAppend(ls, "");
    } else {
      var init, last := ls[..|ls| - 1], ls[|ls| - 1];
      assert init + [last] == ls;
      JoinLonger(init, last, c);
    }
  }

  lemma LinesSnoc(t: string, c: char)
    ensures Lines(t + [c]) == MoreLines(Lines(t), c)
  {
    var ls := Lines(t);
    JoinLines(t);
    JoinMoreLines(ls, c);
    MoreLinesAreLines(ls, c);
    LinesOfJoin(MoreLines(ls, c));
  }

  lemma {:induction false} LastOfLines(t: string)
    ensures Lines(t)[Newlines(t)] == LastLine(t)
  {
    if t != [] {
      var u, c := t[..|t| - 1], t[|t| - 1];
      LastOfLines(u);
      LinesSnoc(u, c);
      assert u + [c] == t;
    }
  }

  lemma TrimDropsNewline(line: string)
    ensures TrimLineEnd(line + [LF]) == TrimLineEnd(line)
  {
    assert (line + [LF])[..|line|] == line;
  }

  /** With line limit n the monitor may stop after the first m events: at the timer that is armed for
      n = 0, once n lines are complete for n > 0, never for n < 0. */
  predicate StopsAt(n: int, es: seq<Event>, m: int) {
    0 < m <= |es| && if n == 0 then es[m - 1].Timer? else n > 0 && Newlines(Received(es[..m])) >= n
  }

  ghost predicate NoStopUpTo(n: int, es: seq<Event>, k: int) {
    forall m :: 0 < m <= k ==> !StopsAt(n, es, m)
  }

  /** A newline completes the current line; any other character continues it. */
  lemma PrintedSnoc(t: string, c: char)
    ensures PrintedLines(t + [c]) == PrintedLines(t) + if c == LF then [TrimLineEnd(LastLine(t) + [c])] else []
  {
    LinesSnoc(t, c);
    LastOfLines(t);
    TrimDropsNewline(LastLine(t));
    PrintedMore(Lines(t), c);
  }

  lemma PrintedMore(ls: seq<string>, c: char)
    requires ls != []
    ensures Complete(MoreLines(ls, c)) == Complete(ls) + if c == LF then [TrimLineEnd(ls[|ls| - 1])] else []
  {
    assert forall i :: 0 <= i < |ls| - 1 ==> MoreLines(ls, c)[i] == ls[i];
  }

  /** One more event extends the received text, and the printed lines when it is a newline. */
  lemma OneMoreEvent(es: seq<Event>, k: nat)
    requires k < |es|
    ensures var t, t' := Received(es[..k]), Received(es[..k + 1]);
            match es[k]
            case Timer => t' == t
            case Char(c) =>
              && t' == t + [c]
              && PrintedLines(t') == PrintedLines(t) + (if c == LF then [TrimLineEnd(LastLine(t) + [c])] else [])
              && LastLine(t') == if c == LF then "" else LastLine(t) + [c]
  {
    var t := Received(es[..k]);
    assert es[..k + 1][..k] == es[..k];
    if es[k].Char? {
      PrintedSnoc(t, es[k].c);
      LastLineStep(t, es[k].c);
    }
  }

  ghost predicate Observes(n: int, s: Port, r: Ran) {
    var used := Used(s, r);
    && 0 <= used <= |s.input|
    && r.port == s.(input := s.input[used..], log := s.log + PrintedLines(Received(s.input[..used])))
    && match r.outcome
       case Done => StopsAt(n, s.input, used) && NoStopUpTo(n, s.input, used - 1)
       case Blocked => used == |s.input| && NoStopUpTo(n, s.input, used)
       case Failed(_) => false
  }

  /** The port, and the state of the monitor loop, after k events. */
  function After(s: Port, k: nat): Port
    requires k <= |s.input|
  {
    s.(input := s.input[k..], log := s.log + PrintedLines(Received(s.input[..k])))
  }

  function WatchAfter(n: int, s: Port, k: nat): Ran
    requires k <= |s.input|
  {
    var t := Received(s.input[..k]);
    Watch(n, LastLine(t), Newlines(t), After(s, k))
  }

  lemma AfterStep(s: Port, k: nat)
    requires k < |s.input|
    ensures var line := LastLine(Received(s.input[..k]));
            After(s, k + 1) == After(s, k).(
              input := After(s, k).input[1..],
              log := if s.input[k] == Char(LF) then After(s, k).log + [TrimLineEnd(line + [LF])] else After(s, k).log)
  {
    var es := s.input;
    assert es[k..][1..] == es[k + 1..];
    OneMoreEvent(es, k);
  }

  lemma WatchStep(n: int, s: Port, k: nat)
    requires k < |s.input| && (n > 0 ==> Newlines(Received(s.input[..k])) < n)
    ensures WatchAfter(n, s, k) == if StopsAt(n, s.input, k + 1) then Ran(After(s, k + 1), Done) else WatchAfter(n, s, k + 1)
  {
    OneMoreEvent(s.input, k);
    AfterStep(s, k);
    var t, t' := Received(s.input[..k]), Received(s.input[..k + 1]);
    assert After(s, k).input[0] == s.input[k];
    assert Newlines(t') == if s.input[k] == Char(LF) then Newlines(t) + 1 else Newlines(t) by {
      assert |PrintedLines(t)| == Newlines(t) && |PrintedLines(t')| == Newlines(t');
    }
    WatchUnfold(n, LastLine(t), Newlines(t), After(s, k));
  }

  lemma WatchUnfold(n: int, buffer: string, count: nat, s: Port)
    requires s.input != []
    ensures var rest := s.(input := s.input[1..]);
            var logged := rest.(log := s.log + [TrimLineEnd(buffer + [LF])]);
            Watch(n, buffer, count, s)
            == if s.input[0].Timer? then (if n == 0 then Ran(rest, Done) else Watch(n, buffer, count, rest))
               else if s.input[0].c != LF then Watch(n, buffer + [s.input[0].c], count, rest)
               else if n > 0 && count + 1 >= n then Ran(logged, Done)
               else Watch(n, "", count + 1, logged)
  {
  }

  lemma NoStopSnoc(n: int, es: seq<Event>, k: nat)
    requires NoStopUpTo(n, es, k) && !StopsAt(n, es, k + 1)
    ensures NoStopUpTo(n, es, k + 1)
  {
    forall m | 0 < m <= k + 1 ensures !StopsAt(n, es, m) {
      assert m <= k || m == k + 1;
    }
  }

  lemma {:induction false} WatchFrom(n: int, s: Port, k: nat)
    requires k <= |s.input| && NoStopUpTo(n, s.input, k)
    ensures Observes(n, s, WatchAfter(n, s, k))
    decreases |s.input| - k
  {
    var es := s.input;
    if k == |es| {
      assert es[..k] == es;
    } else {
      assert n > 0 && k > 0 ==> !StopsAt(n, es, k);
      assert Received(es[..0]) == "" && Newlines("") == 0;
      WatchStep(n, s, k);
      if !StopsAt(n, es, k + 1) {
        NoStopSnoc(n, es, k);
        WatchFrom(n, s, k + 1);
      }
    }
  }

  /** The line limit of a readable monitor parameter. */
  function Limit(lib: Libs, value: string): Option<int> {
    if value == "" then Some(0)
    else match lib.classify(value)
         case Duration => Some(0)
         case Count(n) => Some(n)
         case Invalid => None
  }

  /** A monitor prints exactly the lines completed while it ran, whatever timer events the trace offers,
      and stops at the earliest moment it may. */
  lemma MonitorObserves(lib: Libs, value: string, s: Port)
    requires Limit(lib, value).Some?
    ensures Observes(Limit(lib, value).value, s, Monitoring(lib, value, s))
  {
    var n := Limit(lib, value).value;
    var z := Received(s.input[..0]);
    assert z == "" && Lines("") == [""] && PrintedLines(z) == [] && s.log + [] == s.log && s.input[0..] == s.input;
    WatchFrom(n, s, 0);
  }

  /** What is received, and how many newlines it has, one event at a time. */
  lemma ReceivedMeaning(es: seq<Event>, c: char)
    ensures Received([]) == "" && Newlines("") == 0
    ensures Received(es + [Timer]) == Received(es) && Received(es + [Char(c)]) == Received(es) + [c]
    ensures Newlines(Received(es + [Char(c)])) == Newlines(Received(es)) + if c == '\n' then 1 else 0
  {
    assert (es + [Timer])[..|es|] == es && (es + [Char(c)])[..|es|] == es;
    LinesSnoc(Received(es), c);
  }

  /** A logged line is a received line up to the carriage returns and newlines at its end. */
  lemma LoggedLineMeaning(text: string, i: nat)
    requires i < Newlines(text)
    ensures var line, logged := Lines(text)[i], PrintedLines(text)[i];
            && logged <= line && (forall k :: |logged| <= k < |line| ==> line[k] == '\r' || line[k] == '\n')
            && (logged != "" ==> logged[|logged| - 1] != '\r' && logged[|logged| - 1] != '\n')
  {
    TrimLineEndMeaning(Lines(text)[i]);
  }

  /** A monitor without a parameter, or for a duration, ends at the first timer event and nowhere else. */
  lemma TimedMonitorEndsAtTimer(lib: Libs, value: string, s: Port)
    requires value == "" || lib.classify(value).Duration?
    ensures var r := Monitoring(lib, value, s);
            && (r.outcome.Done? <==> exists i :: 0 <= i < |s.input| && s.input[i].Timer?)
            && (r.outcome.Done? ==> var used := |s.input| - |r.port.input|;
                                    0 < used <= |s.input| && s.input[used - 1].Timer? && AllChars(s.input[..used - 1]))
  {
    MonitorObserves(lib, value, s);
    var r := Monitoring(lib, value, s);
    var used := Used(s, r);
    forall i | 0 <= i < |s.input| && s.input[i].Timer? ensures StopsAt(0, s.input, i + 1) {
    }
    if r.outcome.Done? {
      assert s.input[used - 1].Timer?;
      forall i | 0 <= i < used - 1 ensures s.input[i].Char? {
        assert !StopsAt(0, s.input, i + 1);
      }
    }
  }

  /** A monitor for n > 0 lines returns if and only if n lines arrive, having printed exactly n. */
  lemma LineMonitorPrintsN(lib: Libs, value: string, s: Port)
    requires Limit(lib, value).Some? && Limit(lib, value).value > 0
    ensures var n := Limit(lib, value).value;
            var r := Monitoring(lib, value, s);
            && (r.outcome.Done? <==> Newlines(Received(s.input)) >= n)
            && (r.outcome.Done? ==> |r.port.log| == |s.log| + n)
  {
    MonitorObserves(lib, value, s);
    var n := Limit(lib, value).value;
    var r := Monitoring(lib, value, s);
    var es, used := s.input, Used(s, r);
    assert es[..|es|] == es;
    assert Received(es[..0]) == "" && Newlines("") == 0;
    if r.outcome.Done? {
      OneMoreEvent(es, used - 1);
      assert used > 1 ==> !StopsAt(n, es, used - 1);
      NewlinesGrow(es, used, |es|);
    } else if es != [] {
      assert !StopsAt(n, es, |es|);
    }
  }

  lemma OneMoreNewline(es: seq<Event>, k: nat)
    requires k < |es|
    ensures Newlines(Received(es[..k])) <= Newlines(Received(es[..k + 1]))
  {
    OneMoreEvent(es, k);
    assert |PrintedLines(Received(es[..k]))| <= |PrintedLines(Received(es[..k + 1]))|;
  }

  lemma {:induction false} NewlinesGrow(es: seq<Event>, i: nat, j: nat)
    requires i <= j <= |es|
    ensures Newlines(Received(es[..i])) <= Newlines(Received(es[..j]))
  {
    if i < j {
      NewlinesGrow(es, i, j - 1);
      OneMoreNewline(es, j - 1);
    }
  }

  /** With a negative count no trace makes a monitor return. */
  lemma NegativeCountNeverReturns(lib: Libs, value: string, s: Port)
    requires Limit(lib, value).Some? && Limit(lib, value).value < 0
    ensures Monitoring(lib, value, s).outcome == Blocked
  {
    MonitorObserves(lib, value, s);
  }

  /** When a monitor returns, read off its parameter and the trace. */
  lemma MonitorVerdict(lib: Libs, value: string, s: Port)
    ensures var r := Monitoring(lib, value, s);
            && (value == "" || lib.classify(value).Duration? ==>
                  (r.outcome.Done? <==> exists i :: 0 <= i < |s.input| && s.input[i].Timer?))
            && (value != "" && lib.classify(value).Count? ==>
                  var n := lib.classify(value).n;
                  && (n > 0 ==> (r.outcome.Done? <==> Newlines(Received(s.input)) >= n))
                  && (n > 0 && r.outcome.Done? ==> |r.port.log| == |s.log| + n)
                  && (n < 0 ==> r.outcome.Blocked?))
  {
    if value == "" || lib.classify(value).Duration? {
      TimedMonitorEndsAtTimer(lib, value, s);
    } else if lib.classify(value).Count? {
      if lib.classify(value).n > 0 {
        LineMonitorPrintsN(lib, value, s);
      } else if lib.classify(value).n < 0 {
        NegativeCountNeverReturns(lib, value, s);
      }
    }
  }
}
