/** Text as the Go programs see it: a string is a sequence of bytes below 128, one character each.
    The functions are the ones of Go's strings package that the serial interpreter calls. */
module Text {

  const CR: char := '\r'
  const LF: char := '\n'

  // ---------- trimming ----------

  predicate IsSpace(c: char) {
    c as int == 32 || 9 <= c as int <= 13
  }

  function TrimLeft(s: string): string {
    if s != [] && IsSpace(s[0]) then TrimLeft(s[1..]) else s
  }

  function TrimRight(s: string): string {
    if s != [] && IsSpace(s[|s| - 1]) then TrimRight(s[..|s| - 1]) else s
  }

  function TrimSpace(s: string): string {
    TrimRight(TrimLeft(s))
  }

  /** strings.TrimRight(s, "\r\n"). */
  function TrimLineEnd(s: string): string {
    if s != [] && s[|s| - 1] in [CR, LF] then TrimLineEnd(s[..|s| - 1]) else s
  }

  /** No white space at either end. */
  ghost predicate Trimmed(s: string) {
    s == [] || (!IsSpace(s[0]) && !IsSpace(s[|s| - 1]))
  }

  lemma {:induction false} TrimLeftShape(s: string) returns (k: nat)
    ensures k <= |s| && TrimLeft(s) == s[k..]
    ensures TrimLeft(s) != [] ==> !IsSpace(TrimLeft(s)[0])
    ensures forall i :: 0 <= i < k ==> IsSpace(s[i])
  {
    if s != [] && IsSpace(s[0]) {
      var j := TrimLeftShape(s[1..]);
      k := j + 1;
      assert s[1..][j..] == s[k..];
      forall i | 0 <= i < k ensures IsSpace(s[i]) {
        if i > 0 { assert s[i] == s[1..][i - 1]; }
      }
    } else {
      k := 0;
    }
  }

  lemma {:induction false} TrimRightShape(s: string) returns (k: nat)
    ensures k <= |s| && TrimRight(s) == s[..k]
    ensures k > 0 ==> !IsSpace(s[k - 1])
    ensures forall i :: k <= i < |s| ==> IsSpace(s[i])
  {
    if s != [] && IsSpace(s[|s| - 1]) {
      k := TrimRightShape(s[..|s| - 1]);
      assert s[..|s| - 1][..k] == s[..k];
    } else {
      k := |s|;
      assert s == s[..k];
    }
  }

  /** Trimming leaves a contiguous part of the text that is blank at neither end. */
  lemma TrimSpaceShape(s: string) returns (lo: nat, hi: nat)
    ensures lo <= hi <= |s| && TrimSpace(s) == s[lo..hi] && Trimmed(TrimSpace(s))
    ensures forall i :: 0 <= i < lo || hi <= i < |s| ==> IsSpace(s[i])
  {
    lo := TrimLeftShape(s);
    var k := TrimRightShape(TrimLeft(s));
    hi := lo + k;
    assert TrimLeft(s)[..k] == s[lo..hi];
    forall i | 0 <= i < lo || hi <= i < |s| ensures IsSpace(s[i]) {
      if i >= hi { assert s[i] == TrimLeft(s)[i - lo]; }
    }
  }

  predicate Blanks(s: string) {
    forall i :: 0 <= i < |s| ==> s[i] == ' ' || '\t' <= s[i] <= '\r'
  }

  /** t is what is left of s without the blanks at both ends. */
  ghost predicate TrimmedFrom(s: string, t: string, lo: int, hi: int) {
    && 0 <= lo <= hi <= |s| && t == s[lo..hi] && Blanks(s[..lo]) && Blanks(s[hi..])
    && (t != "" ==> !Blanks([t[0]]) && !Blanks([t[|t| - 1]]))
  }

  lemma BlanksAreSpaces(s: string)
    ensures Blanks(s) <==> forall i :: 0 <= i < |s| ==> IsSpace(s[i])
  {
    if forall i :: 0 <= i < |s| ==> IsSpace(s[i]) {
      forall i | 0 <= i < |s| ensures s[i] == ' ' || '\t' <= s[i] <= '\r' { assert IsSpace(s[i]); }
    }
  }

  lemma SpaceIsBlank(c: char)
    ensures Blanks([c]) <==> IsSpace(c)
  {
    BlanksAreSpaces([c]);
    assert [c][0] == c;
  }

  lemma TrimSpaceIsTrimmed(s: string) returns (lo: nat, hi: nat)
    ensures TrimmedFrom(s, TrimSpace(s), lo, hi)
  {
    lo, hi := TrimSpaceShape(s);
    var t := TrimSpace(s);
    BlanksAreSpaces(s[..lo]);
    BlanksAreSpaces(s[hi..]);
    if t != "" {
      SpaceIsBlank(t[0]);
      SpaceIsBlank(t[|t| - 1]);
    }
  }

  lemma BlanksOutside(s: string, t: string, lo: nat, hi: nat)
    requires TrimmedFrom(s, t, lo, hi)
    ensures forall k :: 0 <= k < lo || hi <= k < |s| ==> Blanks([s[k]])
  {
    forall k | 0 <= k < lo || hi <= k < |s| ensures Blanks([s[k]]) {
      assert k < lo ==> s[..lo][k] == s[k];
      assert hi <= k ==> s[hi..][k - hi] == s[k];
    }
  }

  lemma TrimmedFromIsUnique(s: string, t: string, lo: nat, hi: nat, t': string, lo': nat, hi': nat)
    requires TrimmedFrom(s, t, lo, hi) && TrimmedFrom(s, t', lo', hi') && t' != ""
    ensures lo <= lo' && hi' <= hi && t != ""
  {
    assert t'[0] == s[lo'] && t'[|t'| - 1] == s[hi' - 1];
    BlanksOutside(s, t, lo, hi);
  }

  /** The trimmed text is the only one of that shape. */
  lemma TrimSpaceMeaning(s: string, t: string)
    ensures TrimSpace(s) == t <==> exists lo, hi :: TrimmedFrom(s, t, lo, hi)
  {
    var lo', hi' := TrimSpaceIsTrimmed(s);
    var t' := TrimSpace(s);
    if lo, hi :| TrimmedFrom(s, t, lo, hi) {
      if t' != "" { TrimmedFromIsUnique(s, t, lo, hi, t', lo', hi'); }
      if t != "" { TrimmedFromIsUnique(s, t', lo', hi', t, lo, hi); }
    }
  }

  /** What a logged line loses: the carriage returns and newlines at its end. */
  lemma {:induction false} TrimLineEndMeaning(s: string)
    ensures var t := TrimLineEnd(s);
            && t <= s && (forall i :: |t| <= i < |s| ==> s[i] == '\r' || s[i] == '\n')
            && (t != "" ==> t[|t| - 1] != '\r' && t[|t| - 1] != '\n')
  {
    if s != "" && s[|s| - 1] in [CR, LF] {
      TrimLineEndMeaning(s[..|s| - 1]);
    }
  }

  lemma TrimmedIsFixed(s: string)
    requires Trimmed(s)
    ensures TrimSpace(s) == s
  {
  }

  // ---------- case folding and search ----------

  function LowerChar(c: char): char {
    if 'A' <= c <= 'Z' then (c as int + 32) as char else c
  }

  function ToLower(s: string): (r: string)
    ensures |r| == |s|
    ensures forall i :: 0 <= i < |s| ==> r[i] == LowerChar(s[i])
  {
    seq(|s|, i requires 0 <= i < |s| => LowerChar(s[i]))
  }

  predicate Contains(s: string, sub: string) {
    exists i :: 0 <= i <= |s| && sub <= s[i..]
  }

  /** The same letter, in either case; any other character only itself. */
  predicate SameLetter(c: char, d: char) {
    || c == d
    || ('A' <= c <= 'Z' && d as int == c as int + 32)
    || ('A' <= d <= 'Z' && c as int == d as int + 32)
  }

  predicate OccursAt(text: string, sub: string, i: int) {
    0 <= i && i + |sub| <= |text| && forall j :: 0 <= j < |sub| ==> SameLetter(text[i + j], sub[j])
  }

  lemma FoldedAt(text: string, sub: string, i: nat)
    requires i <= |text|
    ensures ToLower(sub) <= ToLower(text)[i..] <==> OccursAt(text, sub, i)
  {
    var low, rest := ToLower(sub), ToLower(text)[i..];
    if low <= rest {
      forall j | 0 <= j < |sub| ensures SameLetter(text[i + j], sub[j]) {
        assert low[j] == rest[j];
      }
    }
    if OccursAt(text, sub, i) {
      assert forall j :: 0 <= j < |sub| ==> low[j] == rest[j];
    }
  }

  /** Searching folded texts is searching with letters of either case. */
  lemma FoldedSearch(text: string, sub: string)
    ensures Contains(ToLower(text), ToLower(sub)) <==> exists i :: OccursAt(text, sub, i)
  {
    if i :| 0 <= i <= |ToLower(text)| && ToLower(sub) <= ToLower(text)[i..] {
      FoldedAt(text, sub, i);
    }
    if i :| OccursAt(text, sub, i) {
      FoldedAt(text, sub, i);
    }
  }

  lemma ContainsInside(u: string, s: string, v: string, sub: string)
    requires Contains(s, sub)
    ensures Contains(u + s + v, sub)
  {
    var i :| 0 <= i <= |s| && sub <= s[i..];
    assert (u + s + v)[|u| + i..] == s[i..] + v;
  }

  lemma LowerConcat(a: string, b: string)
    ensures ToLower(a + b) == ToLower(a) + ToLower(b)
  {
  }

  /** Case-insensitive search survives adding text on either side. */
  lemma ContainsFoldedInside(u: string, s: string, v: string, sub: string)
    requires Contains(ToLower(s), ToLower(sub))
    ensures Contains(ToLower(u + s + v), ToLower(sub))
  {
    LowerConcat(u, s);
    LowerConcat(u + s, v);
    ContainsInside(ToLower(u), ToLower(s), ToLower(v), ToLower(sub));
  }

  // ---------- lines ----------

  predicate OneLine(s: string) {
    LF !in s
  }

  /** strings.Split(s, "\n"). */
  function Lines(s: string): (ls: seq<string>)
    ensures |ls| >= 1
  {
    if s == [] then [""]
    else
      var rest := Lines(s[1..]);
      if s[0] == LF then [""] + rest else [[s[0]] + rest[0]] + rest[1..]
  }

  function Join(ls: seq<string>): string
    requires ls != []
  {
    if |ls| == 1 then ls[0] else ls[0] + [LF] + Join(ls[1..])
  }

  lemma {:induction false} JoinLines(s: string)
    ensures Join(Lines(s)) == s
    ensures forall i :: 0 <= i < |Lines(s)| ==> OneLine(Lines(s)[i])
  {
    if s != [] {
      JoinLines(s[1..]);
      var rest := Lines(s[1..]);
      if s[0] == LF {
        assert Lines(s)[1..] == rest;
      } else {
        assert Lines(s)[1..] == rest[1..];
        assert Lines(s)[0] == [s[0]] + rest[0];
        if |rest| > 1 {
          assert Join(Lines(s)) == [s[0]] + (rest[0] + [LF] + Join(rest[1..]));
        }
      }
    }
  }

  /** Split at the first newline. */
  lemma {:induction false} LinesOfLineThenRest(l: string, s: string)
    requires OneLine(l)
    ensures Lines(l + [LF] + s) == [l] + Lines(s)
  {
    var t := l + [LF] + s;
    if l == [] {
      assert t[1..] == s;
    } else {
      LinesOfLineThenRest(l[1..], s);
      assert t[1..] == l[1..] + [LF] + s;
      assert t[0] == l[0];
      assert [l[0]] + l[1..] == l;
    }
  }

  lemma {:induction false} LinesOfOneLine(l: string)
    requires OneLine(l)
    ensures Lines(l) == [l]
  {
    if l != [] {
      LinesOfOneLine(l[1..]);
      assert [l[0]] + l[1..] == l;
    }
  }

  lemma {:induction false} LinesOfJoin(ls: seq<string>)
    requires ls != []
    requires forall i :: 0 <= i < |ls| ==> OneLine(ls[i])
    ensures Lines(Join(ls)) == ls
  {
    if |ls| == 1 {
      LinesOfOneLine(ls[0]);
    } else {
      LinesOfJoin(ls[1..]);
      LinesOfLineThenRest(ls[0], Join(ls[1..]));
    }
  }

  /** The text after the last newline, or all of it when there is none. */
  function LastLine(s: string): string {
    if s == [] || s[|s| - 1] == LF then "" else LastLine(s[..|s| - 1]) + [s[|s| - 1]]
  }

  lemma {:induction false} LastLineAfterNewline(w: string, l: string)
    requires OneLine(l)
    ensures LastLine(w + [LF] + l) == l
  {
    var t := w + [LF] + l;
    if l != [] {
      LastLineAfterNewline(w, l[..|l| - 1]);
      assert t[..|t| - 1] == w + [LF] + l[..|l| - 1];
    }
  }

  lemma {:induction false} LastLineOfOneLine(l: string)
    requires OneLine(l)
    ensures LastLine(l) == l
  {
    if l != [] {
      LastLineOfOneLine(l[..|l| - 1]);
    }
  }

  /** Lines end at newline characters, and the last line begins after the last of them. */
  lemma LinesMeaning(before: string, l: string, s: string)
    requires '\n' !in l
    ensures Lines(l) == [l] && Lines(l + "\n" + s) == [l] + Lines(s)
    ensures LastLine(l) == l && LastLine(before + "\n" + l) == l
  {
    LinesOfOneLine(l);
    LinesOfLineThenRest(l, s);
    LastLineOfOneLine(l);
    LastLineAfterNewline(before, l);
    assert [LF] == "\n";
  }

  lemma LastLineStep(s: string, c: char)
    ensures LastLine(s + [c]) == if c == LF then "" else LastLine(s) + [c]
  {
    assert (s + [c])[..|s|] == s;
  }

  // ---------- replacement ----------

  /** strings.ReplaceAll(s, old, by) for a non-empty old. */
  function ReplaceAll(s: string, pat: string, rep: string): string
    requires pat != []
  {
    if |s| < |pat| then s
    else if s[..|pat|] == pat then rep + ReplaceAll(s[|pat|..], pat, rep)
    else [s[0]] + ReplaceAll(s[1..], pat, rep)
  }
}
