/** The script language: commands, the parser, and a canonical printer that undoes it. */
module Script {
  import opened Wrappers
  import opened Text

  /** What parseScript produces. A try command never occurs inside a script text. */
  datatype Basic = Send(value: string) | Expect(value: string) | Monitor(value: string)

  /** The line number counts from 1 in the trimmed text. */
  datatype ParseError = InvalidCommand(lineNo: nat, line: string)

  const SEND := "send "
  const EXPECT := "expect "
  const MONITOR := "monitor "
  const BARE_MONITOR := "monitor"

  /** One non-blank trimmed line. */
  function ParseLine(line: string): Option<Basic> {
    if SEND <= line then Some(Send(line[|SEND|..]))
    else if EXPECT <= line then Some(Expect(line[|EXPECT|..]))
    else if MONITOR <= line then Some(Monitor(line[|MONITOR|..]))
    else if line == BARE_MONITOR then Some(Monitor(""))
    else None
  }

  /** What a line says: a keyword, one blank, and the value; monitor also stands alone. */
  lemma ParseLineMeaning(v: string, line: string)
    ensures ParseLine("send " + v) == Some(Send(v))
    ensures ParseLine("expect " + v) == Some(Expect(v))
    ensures ParseLine("monitor " + v) == Some(Monitor(v))
    ensures ParseLine("monitor") == Some(Monitor(""))
    ensures !("send " <= line) && !("expect " <= line) && !("monitor " <= line) && line != "monitor" ==>
              ParseLine(line) == None
  {
    var s, e, m := "send " + v, "expect " + v, "monitor " + v;
    assert s[5..] == v && e[7..] == v && m[8..] == v;
    assert s[0] == 's' && e[0] == 'e' && m[0] == 'm';
    assert "send "[0] == 's' && "expect "[0] == 'e' && "monitor"[0] == 'm';
  }

  /** Commands already read, in front of what the later lines give. */
  function After(bs: seq<Basic>, r: Result<seq<Basic>, ParseError>): Result<seq<Basic>, ParseError> {
    match r
    case Ok(cs) => Ok(bs + cs)
    case Err(e) => Err(e)
  }

  lemma AfterIsMonoid(bs: seq<Basic>, cs: seq<Basic>, r: Result<seq<Basic>, ParseError>)
    ensures After([], r) == r
    ensures After(bs, Ok([])) == Ok(bs)
    ensures After(bs, After(cs, r)) == After(bs + cs, r)
  {
    if r.Ok? {
      assert [] + r.value == r.value;
      assert bs + (cs + r.value) == bs + cs + r.value;
    }
    assert bs + [] == bs;
  }

  /** The lines from number lineNo + 1 on. */
  function ParseLines(lines: seq<string>, lineNo: nat): Result<seq<Basic>, ParseError> {
    if lines == [] then Ok([])
    else
      var line := TrimSpace(lines[0]);
      if line == "" then ParseLines(lines[1..], lineNo + 1)
      else
        match ParseLine(line)
        case None => Err(InvalidCommand(lineNo + 1, line))
        case Some(b) => After([b], ParseLines(lines[1..], lineNo + 1))
  }

  function ParseSpec(text: string): Result<seq<Basic>, ParseError> {
    ParseLines(Lines(TrimSpace(text)), 0)
  }

  /** What each line of a text says, nothing where it is blank. */
  function Said(text: string): (r: seq<Option<Basic>>)
    ensures var lines := Lines(TrimSpace(text));
            && |r| == |lines|
            && forall j :: 0 <= j < |lines| ==>
                 r[j] == if TrimSpace(lines[j]) == "" then None else ParseLine(TrimSpace(lines[j]))
  {
    var lines := Lines(TrimSpace(text));
    seq(|lines|, j requires 0 <= j < |lines| => if TrimSpace(lines[j]) == "" then None else ParseLine(TrimSpace(lines[j])))
  }

  /** How many of the first j lines say something. */
  function CommandsBefore(said: seq<Option<Basic>>, j: nat): nat
    requires j <= |said|
  {
    if j == 0 then 0 else CommandsBefore(said, j - 1) + if said[j - 1].Some? then 1 else 0
  }

  /** The commands are what the first n lines say, in their order. */
  ghost predicate ReadInOrder(said: seq<Option<Basic>>, n: nat, bs: seq<Basic>)
    requires n <= |said|
  {
    && |bs| == CommandsBefore(said, n)
    && forall j :: 0 <= j < n && said[j].Some? ==>
         CommandsBefore(said, j) < |bs| && said[j].value == bs[CommandsBefore(said, j)]
  }

  lemma ReadOneMore(said: seq<Option<Basic>>, n: nat, bs: seq<Basic>, b: Basic)
    requires n < |said| && ReadInOrder(said, n, bs) && said[n] == Some(b)
    ensures ReadInOrder(said, n + 1, bs + [b])
  {
  }

  /** The parser as written: one pass that appends to the command list. */
  method ParseScript(text: string) returns (r: Result<seq<Basic>, ParseError>)
    ensures r == ParseSpec(text)
    ensures r.Ok? ==> ReadInOrder(Said(text), |Said(text)|, r.value)
  {
    var commands: seq<Basic> := [];
    var lines := Lines(TrimSpace(text));
    var i := 0;
    assert lines[0..] == lines;
    AfterIsMonoid([], [], ParseLines(lines, 0));
    while i < |lines|
      invariant i <= |lines|
      invariant ParseSpec(text) == After(commands, ParseLines(lines[i..], i))
      invariant ReadInOrder(Said(text), i, commands)
    {
      assert lines[i..][1..] == lines[i + 1..];
      forall b ensures After(commands, After([b], ParseLines(lines[i + 1..], i + 1)))
                       == After(commands + [b], ParseLines(lines[i + 1..], i + 1))
      {
        AfterIsMonoid(commands, [b], ParseLines(lines[i + 1..], i + 1));
      }
      var line := TrimSpace(lines[i]);
      i := i + 1;
      if line == "" {
        continue;
      }
      ghost var before := commands;
      if SEND <= line {
        commands := commands + [Send(line[|SEND|..])];
      } else if EXPECT <= line {
        commands := commands + [Expect(line[|EXPECT|..])];
      } else if MONITOR <= line {
        commands := commands + [Monitor(line[|MONITOR|..])];
      } else if line == BARE_MONITOR {
        commands := commands + [Monitor("")];
      } else {
        return Err(InvalidCommand(i, line));
      }
      ReadOneMore(Said(text), i - 1, before, commands[|before|]);
      assert commands == before + [commands[|before|]];
    }
    AfterIsMonoid(commands, [], Ok([]));
    return Ok(commands);
  }

  /** A line the parser cannot read: not blank and not a command. */
  predicate Unreadable(raw: string) {
    TrimSpace(raw) != "" && ParseLine(TrimSpace(raw)).None?
  }

  predicate Readable(lines: seq<string>) {
    forall i :: 0 <= i < |lines| ==> !Unreadable(lines[i])
  }

  lemma ReadableCons(lines: seq<string>)
    requires lines != []
    ensures Readable(lines) <==> !Unreadable(lines[0]) && Readable(lines[1..])
  {
    assert forall i :: 0 < i < |lines| ==> lines[i] == lines[1..][i - 1];
    if Readable(lines) {
      forall i | 0 <= i < |lines[1..]| ensures !Unreadable(lines[1..][i]) {
        assert lines[1..][i] == lines[i + 1];
      }
    }
  }

  /** The first unreadable line is number n. */
  ghost predicate FirstUnreadable(lines: seq<string>, n: int, line: string) {
    0 <= n < |lines| && Unreadable(lines[n]) && line == TrimSpace(lines[n]) && Readable(lines[..n])
  }

  lemma FirstUnreadableCons(lines: seq<string>, n: int, line: string)
    requires lines != [] && !Unreadable(lines[0]) && FirstUnreadable(lines[1..], n, line)
    ensures FirstUnreadable(lines, n + 1, line)
  {
    assert lines[..n + 1][0] == lines[0] && lines[..n + 1][1..] == lines[1..][..n];
    ReadableCons(lines[..n + 1]);
  }

  lemma {:induction false} ParseLinesFailure(lines: seq<string>, lineNo: nat)
    ensures ParseLines(lines, lineNo).Ok? <==> Readable(lines)
    ensures ParseLines(lines, lineNo).Err? ==>
              var e := ParseLines(lines, lineNo).error;
              FirstUnreadable(lines, e.lineNo - lineNo - 1, e.line)
  {
    if lines != [] {
      ReadableCons(lines);
      ParseLinesFailure(lines[1..], lineNo + 1);
      if Unreadable(lines[0]) {
        assert Readable(lines[..0]);
        assert FirstUnreadable(lines, 0, TrimSpace(lines[0]));
      } else if ParseLines(lines, lineNo).Err? {
        var e := ParseLines(lines, lineNo).error;
        FirstUnreadableCons(lines, e.lineNo - lineNo - 2, e.line);
      }
    }
  }

  /** A text parses exactly when it has no unreadable line, and the error names the first of them. */
  lemma ParseFailsAtFirstUnreadable(text: string)
    ensures ParseSpec(text).Ok? <==> Readable(Lines(TrimSpace(text)))
    ensures ParseSpec(text).Err? ==>
              var e := ParseSpec(text).error;
              e.lineNo > 0 && FirstUnreadable(Lines(TrimSpace(text)), e.lineNo - 1, e.line)
  {
    ParseLinesFailure(Lines(TrimSpace(text)), 0);
  }

  // ---------- the canonical printer ----------

  /** A value that a line can carry: one line, not empty, no blank at the end. Leading blanks are kept. */
  predicate CarriedValue(v: string) {
    v != "" && OneLine(v) && !IsSpace(v[|v| - 1])
  }

  predicate WellFormed(b: Basic) {
    match b
    case Send(v) => CarriedValue(v)
    case Expect(v) => CarriedValue(v)
    case Monitor(v) => v == "" || CarriedValue(v)
  }

  function PrintLine(b: Basic): string {
    match b
    case Send(v) => SEND + v
    case Expect(v) => EXPECT + v
    case Monitor(v) => if v == "" then BARE_MONITOR else MONITOR + v
  }

  function PrintedLines(bs: seq<Basic>): (ls: seq<string>)
    ensures |ls| == |bs|
    ensures forall i :: 0 <= i < |bs| ==> ls[i] == PrintLine(bs[i])
  {
    seq(|bs|, i requires 0 <= i < |bs| => PrintLine(bs[i]))
  }

  function Print(bs: seq<Basic>): string {
    if bs == [] then "" else Join(PrintedLines(bs))
  }

  lemma PrintedValueShape(command: string, v: string)
    requires command in [SEND, EXPECT, MONITOR] && CarriedValue(v)
    ensures command + v != "" && OneLine(command + v) && Trimmed(command + v) && (command + v)[|command|..] == v
    ensures SEND <= command + v <==> command == SEND
    ensures EXPECT <= command + v <==> command == EXPECT
    ensures MONITOR <= command + v <==> command == MONITOR
  {
    assert SEND[0] == 's' && EXPECT[0] == 'e' && MONITOR[0] == 'm';
    assert (command + v)[0] == command[0];
    assert command <= command + v;
  }

  lemma PrintLineShape(b: Basic)
    requires WellFormed(b)
    ensures PrintLine(b) != "" && OneLine(PrintLine(b)) && Trimmed(PrintLine(b))
    ensures ParseLine(PrintLine(b)) == Some(b)
  {
    match b
    case Send(v) => PrintedValueShape(SEND, v);
    case Expect(v) => PrintedValueShape(EXPECT, v);
    case Monitor(v) =>
      if v != "" {
        PrintedValueShape(MONITOR, v);
      } else {
        assert SEND[0] == 's' && EXPECT[0] == 'e' && BARE_MONITOR[0] == 'm' && |MONITOR| > |BARE_MONITOR|;
      }
  }

  /** What a successfully parsed line can be. */
  lemma ParsedLineIsWellFormed(raw: string)
    requires OneLine(raw) && TrimSpace(raw) != "" && ParseLine(TrimSpace(raw)).Some?
    ensures WellFormed(ParseLine(TrimSpace(raw)).value)
  {
    var lo, hi := TrimSpaceShape(raw);
    var line := TrimSpace(raw);
    assert OneLine(line) by {
      forall c | c in line ensures c in raw {}
    }
    assert !IsSpace(line[|line| - 1]);
    assert SEND[|SEND| - 1] == ' ' && EXPECT[|EXPECT| - 1] == ' ' && MONITOR[|MONITOR| - 1] == ' ';
    assert SEND <= line ==> line[|SEND| - 1] == ' ';
    assert EXPECT <= line ==> line[|EXPECT| - 1] == ' ';
    assert MONITOR <= line ==> line[|MONITOR| - 1] == ' ';
  }

  lemma {:induction false} ParsedLinesAreWellFormed(lines: seq<string>, lineNo: nat)
    requires forall i :: 0 <= i < |lines| ==> OneLine(lines[i])
    requires ParseLines(lines, lineNo).Ok?
    ensures forall i :: 0 <= i < |ParseLines(lines, lineNo).value| ==> WellFormed(ParseLines(lines, lineNo).value[i])
  {
    if lines != [] {
      if TrimSpace(lines[0]) != "" {
        ParsedLineIsWellFormed(lines[0]);
      }
      ParsedLinesAreWellFormed(lines[1..], lineNo + 1);
    }
  }

  /** Every successful parse yields well-formed commands. */
  lemma ParseYieldsWellFormed(text: string)
    requires ParseSpec(text).Ok?
    ensures forall i :: 0 <= i < |ParseSpec(text).value| ==> WellFormed(ParseSpec(text).value[i])
  {
    JoinLines(TrimSpace(text));
    ParsedLinesAreWellFormed(Lines(TrimSpace(text)), 0);
  }

  lemma {:induction false} ParsePrintedLines(bs: seq<Basic>, lineNo: nat)
    requires forall i :: 0 <= i < |bs| ==> WellFormed(bs[i])
    ensures ParseLines(PrintedLines(bs), lineNo) == Ok(bs)
  {
    if bs != [] {
      PrintLineShape(bs[0]);
      TrimmedIsFixed(PrintLine(bs[0]));
      ParsePrintedLines(bs[1..], lineNo + 1);
      assert PrintedLines(bs)[1..] == PrintedLines(bs[1..]);
      assert PrintedLines(bs)[0] == PrintLine(bs[0]);
      assert [bs[0]] + bs[1..] == bs;
    }
  }

  lemma {:induction false} JoinEnds(ls: seq<string>)
    requires ls != [] && forall i :: 0 <= i < |ls| ==> ls[i] != "" && Trimmed(ls[i])
    ensures Join(ls) != "" && Trimmed(Join(ls))
  {
    if |ls| > 1 {
      JoinEnds(ls[1..]);
      assert Join(ls)[0] == ls[0][0];
      assert Join(ls)[|Join(ls)| - 1] == Join(ls[1..])[|Join(ls[1..])| - 1];
    }
  }

  /** Parsing a printed list of well-formed commands returns it. */
  lemma ParsePrint(bs: seq<Basic>)
    requires forall i :: 0 <= i < |bs| ==> WellFormed(bs[i])
    ensures ParseSpec(Print(bs)) == Ok(bs)
  {
    if bs == [] {
      assert Lines("") == [""];
    } else {
      forall i | 0 <= i < |bs|
        ensures PrintLine(bs[i]) != "" && OneLine(PrintLine(bs[i])) && Trimmed(PrintLine(bs[i]))
      {
        PrintLineShape(bs[i]);
      }
      JoinEnds(PrintedLines(bs));
      TrimmedIsFixed(Print(bs));
      LinesOfJoin(PrintedLines(bs));
      ParsePrintedLines(bs, 0);
    }
  }

  /** Printing what was parsed and parsing it again changes nothing, for every text that parses. */
  lemma ParsePrintParse(text: string)
    requires ParseSpec(text).Ok?
    ensures ParseSpec(Print(ParseSpec(text).value)) == ParseSpec(text)
  {
    ParseYieldsWellFormed(text);
    ParsePrint(ParseSpec(text).value);
  }
}
