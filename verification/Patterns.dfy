/** Expect patterns: their syntax, and the two matchers (on a live stream, on a captured line). */
module Patterns {
  import opened Wrappers
  import opened Text

  /** What a monitor parameter means to Go's duration and integer parsers, tried in that order. */
  datatype Span = Duration | Count(n: int) | Invalid

  /** The library calls whose inside is not modelled: the regular expression engine and the parsers of
      durations and integers. */
  datatype Libs = Libs(compiles: string -> bool, matches: (string, string) -> bool, classify: string -> Span)

  datatype Pattern = AnyCase(text: string) | LineStart(text: string) | Regex(source: string)

  datatype PatternError = TooShort | BadRegex(source: string) | BadFormat

  function ParsePattern(lib: Libs, value: string): Result<Pattern, PatternError> {
    if |value| < 2 then Err(TooShort)
    else
      var first, last, content := value[0], value[|value| - 1], value[1..|value| - 1];
      if first == '\'' && last == '\'' then Ok(AnyCase(content))
      else if first == '"' && last == '"' then Ok(LineStart(content))
      else if first == '/' && last == '/' then
        if lib.compiles(content) then Ok(Regex(content)) else Err(BadRegex(content))
      else Err(BadFormat)
  }

  function PrintPattern(p: Pattern): string {
    match p
    case AnyCase(t) => ['\''] + t + ['\'']
    case LineStart(t) => ['"'] + t + ['"']
    case Regex(src) => ['/'] + src + ['/']
  }

  /** A value is read as a pattern exactly when it is that pattern in its quotes, with a regular expression
      that compiles. */
  lemma ParsePatternExactly(lib: Libs, value: string, p: Pattern)
    ensures ParsePattern(lib, value) == Ok(p) <==> value == PrintPattern(p) && (p.Regex? ==> lib.compiles(p.source))
  {
    var text := match p case AnyCase(t) => t case LineStart(t) => t case Regex(src) => src;
    var printed := PrintPattern(p);
    assert printed[1..|printed| - 1] == text;
    if ParsePattern(lib, value) == Ok(p) {
      assert value == [value[0]] + value[1..|value| - 1] + [value[|value| - 1]];
      assert value[1..|value| - 1] == text;
    } else if value == printed {
      assert |value| == |text| + 2 && value[|value| - 1] == value[0];
    }
  }

  /** checkMatch: the text since the expect began, and its current line. */
  predicate LiveMatch(lib: Libs, p: Pattern, buffer: string, line: string) {
    match p
    case AnyCase(t) => Contains(ToLower(buffer), ToLower(t))
    case LineStart(t) => t <= TrimSpace(line)
    case Regex(src) => lib.matches(src, line)
  }

  /** checkDryRunMatch: one captured line. */
  predicate DryMatch(lib: Libs, p: Pattern, line: string) {
    match p
    case AnyCase(t) => Contains(ToLower(line), ToLower(t))
    case LineStart(t) => t <= TrimSpace(line)
    case Regex(src) => lib.matches(src, line)
  }

  /** How a value is read, for each pair of quotes. */
  lemma ParsePatternMeaning(lib: Libs, t: string, v: string)
    ensures ParsePattern(lib, "'" + t + "'") == Ok(AnyCase(t))
    ensures ParsePattern(lib, "\"" + t + "\"") == Ok(LineStart(t))
    ensures ParsePattern(lib, "/" + t + "/") == if lib.compiles(t) then Ok(Regex(t)) else Err(BadRegex(t))
    ensures |v| < 2 ==> ParsePattern(lib, v) == Err(TooShort)
    ensures |v| >= 2 && !(v[0] == v[|v| - 1] && (v[0] == '\'' || v[0] == '"' || v[0] == '/')) ==>
              ParsePattern(lib, v) == Err(BadFormat)
  {
    var single, double, slashed := "'" + t + "'", "\"" + t + "\"", "/" + t + "/";
    assert single[1..|single| - 1] == t && double[1..|double| - 1] == t && slashed[1..|slashed| - 1] == t;
  }

  /** A captured line matches exactly when it matches live as all that was received. */
  lemma DryMatchIsLiveOnLine(lib: Libs, p: Pattern, line: string)
    ensures DryMatch(lib, p, line) <==> LiveMatch(lib, p, line, line)
  {
  }

  /** A single-quoted text matches wherever it occurs in all that was received, in letters of either case; a
      regular expression is asked about the current line. */
  lemma LiveMatchMeaning(lib: Libs, t: string, buffer: string, line: string)
    ensures LiveMatch(lib, AnyCase(t), buffer, line) <==> exists i :: OccursAt(buffer, t, i)
    ensures LiveMatch(lib, Regex(t), buffer, line) <==> lib.matches(t, line)
    ensures LiveMatch(lib, LineStart(t), buffer, line) <==> exists lo, hi, trimmed :: TrimmedFrom(line, trimmed, lo, hi) && t <= trimmed
  {
    FoldedSearch(buffer, t);
    TrimSpaceMeaning(line, TrimSpace(line));
    forall trimmed, lo, hi | TrimmedFrom(line, trimmed, lo, hi) ensures trimmed == TrimSpace(line) {
      TrimSpaceMeaning(line, trimmed);
    }
  }

  /** A double-quoted text without blanks at its ends matches exactly when only blanks come before it on the line. */
  lemma LineStartMeaning(lib: Libs, t: string, buffer: string, line: string)
    requires t != "" && !Blanks([t[0]]) && !Blanks([t[|t| - 1]])
    ensures LiveMatch(lib, LineStart(t), buffer, line)
            <==> exists lo :: 0 <= lo <= |line| && Blanks(line[..lo]) && t <= line[lo..]
  {
    var lo', hi' := TrimSpaceIsTrimmed(line);
    if t <= TrimSpace(line) {
      assert t <= line[lo'..];
    }
    if lo :| 0 <= lo <= |line| && Blanks(line[..lo]) && t <= line[lo..] {
      PrefixOfTrimmed(line, t, lo, lo', hi');
    }
  }

  lemma PrefixOfTrimmed(line: string, t: string, lo: nat, lo': nat, hi': nat)
    requires t != "" && !Blanks([t[0]]) && !Blanks([t[|t| - 1]])
    requires lo <= |line| && Blanks(line[..lo]) && t <= line[lo..] && TrimmedFrom(line, TrimSpace(line), lo', hi')
    ensures lo == lo' && t <= TrimSpace(line)
  {
    var end := lo + |t|;
    assert line[lo] == t[0] && line[end - 1] == t[|t| - 1];
    BlanksOutside(line, TrimSpace(line), lo', hi');
    assert lo' <= lo && end <= hi';
    assert line[lo'] == TrimSpace(line)[0];
    assert forall k :: 0 <= k < lo ==> line[..lo][k] == line[k];
  }

  /** A captured line that matches also matches live, once it is the current line of a longer text. */
  lemma DryMatchIsLive(lib: Libs, p: Pattern, u: string, line: string)
    requires DryMatch(lib, p, line)
    ensures LiveMatch(lib, p, u + line, line)
  {
    if p.AnyCase? {
      ContainsFoldedInside(u, line, "", p.text);
      assert u + line + "" == u + line;
    }
  }
}
