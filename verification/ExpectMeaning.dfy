/** The meaning of a live expect without a loop: the shortest non-empty prefix on which the pattern holds. */
module ExpectMeaning {
  import opened Wrappers
  import opened Text
  import opened Patterns
  import opened Live

  predicate AllChars(es: seq<Event>) {
    forall i :: 0 <= i < |es| ==> es[i].Char?
  }

  function TextOf(es: seq<Event>): (t: string)
    requires AllChars(es)
    ensures |t| == |es| && forall i :: 0 <= i < |es| ==> t[i] == es[i].c
  {
    seq(|es|, i requires 0 <= i < |es| => es[i].c)
  }

  /** The pattern holds on text, read as everything since the expect began. */
  predicate Shows(lib: Libs, p: Pattern, text: string) {
    text != "" && LiveMatch(lib, p, text, LastLine(text))
  }

  /** Receiving the first n events completes a match. */
  predicate HitAt(lib: Libs, p: Pattern, es: seq<Event>, n: int) {
    0 < n <= |es| && AllChars(es[..n]) && Shows(lib, p, TextOf(es[..n]))
  }

  ghost predicate NoHitUpTo(lib: Libs, p: Pattern, es: seq<Event>, n: int) {
    forall m :: 0 < m <= n ==> !HitAt(lib, p, es, m)
  }

  /** How many events a handler took from the front of the input. */
  function Used(s: Port, r: Ran): int {
    |s.input| - |r.port.input|
  }

  /** The port after an expect differs only in the input, which lost a prefix. */
  predicate TookPrefix(s: Port, r: Ran) {
    0 <= Used(s, r) <= |s.input| && r.port == s.(input := s.input[Used(s, r)..])
  }

  ghost predicate Meets(lib: Libs, p: Pattern, value: string, s: Port, r: Ran) {
    var used := Used(s, r);
    TookPrefix(s, r) &&
    match r.outcome
    case Done => HitAt(lib, p, s.input, used) && NoHitUpTo(lib, p, s.input, used - 1)
    case Failed(e) => e == TimedOut(value) && used > 0 && s.input[used - 1].Timer?
                      && AllChars(s.input[..used - 1]) && NoHitUpTo(lib, p, s.input, used - 1)
    case Blocked => used == |s.input| && AllChars(s.input) && NoHitUpTo(lib, p, s.input, |s.input|)
  }

  /** Taking n events and stopping there. */
  function Took(s: Port, n: nat, o: Outcome): Ran
    requires n <= |s.input|
  {
    Ran(s.(input := s.input[n..]), o)
  }

  lemma TookMeets(lib: Libs, p: Pattern, value: string, s: Port, n: nat, o: Outcome)
    requires n <= |s.input|
    requires match o
             case Done => HitAt(lib, p, s.input, n) && NoHitUpTo(lib, p, s.input, n - 1)
             case Failed(e) => e == TimedOut(value) && n > 0 && s.input[n - 1].Timer?
                               && AllChars(s.input[..n - 1]) && NoHitUpTo(lib, p, s.input, n - 1)
             case Blocked => n == |s.input| && AllChars(s.input) && NoHitUpTo(lib, p, s.input, n)
    ensures Meets(lib, p, value, s, Took(s, n, o))
  {
    assert Used(s, Took(s, n, o)) == n;
  }

  /** The loop after k characters, none of which completed a match. */
  function AwaitAfter(lib: Libs, p: Pattern, value: string, s: Port, k: nat): Ran
    requires k <= |s.input| && AllChars(s.input[..k])
  {
    Await(lib, p, value, TextOf(s.input[..k]), s.(input := s.input[k..]))
  }

  lemma AwaitRound(lib: Libs, p: Pattern, value: string, s: Port, k: nat)
    requires k <= |s.input| && AllChars(s.input[..k])
    ensures k == |s.input| ==> AwaitAfter(lib, p, value, s, k) == Took(s, k, Blocked)
    ensures k < |s.input| && s.input[k].Timer? ==> AwaitAfter(lib, p, value, s, k) == Took(s, k + 1, Failed(TimedOut(value)))
    ensures k < |s.input| && s.input[k].Char? ==>
              AllChars(s.input[..k + 1])
              && AwaitAfter(lib, p, value, s, k)
                 == if HitAt(lib, p, s.input, k + 1) then Took(s, k + 1, Done) else AwaitAfter(lib, p, value, s, k + 1)
  {
    var es := s.input;
    if k < |es| {
      assert es[k..][0] == es[k] && es[k..][1..] == es[k + 1..];
      if es[k].Char? {
        assert es[..k + 1] == es[..k] + [es[k]];
        assert TextOf(es[..k + 1]) == TextOf(es[..k]) + [es[k].c];
      }
    }
  }

  lemma NoHitSnoc(lib: Libs, p: Pattern, es: seq<Event>, k: nat)
    requires NoHitUpTo(lib, p, es, k) && !HitAt(lib, p, es, k + 1)
    ensures NoHitUpTo(lib, p, es, k + 1)
  {
    forall m | 0 < m <= k + 1 ensures !HitAt(lib, p, es, m) {
      assert m <= k || m == k + 1;
    }
  }

  lemma {:induction false} AwaitFrom(lib: Libs, p: Pattern, value: string, s: Port, k: nat)
    requires k <= |s.input| && AllChars(s.input[..k]) && NoHitUpTo(lib, p, s.input, k)
    ensures Meets(lib, p, value, s, AwaitAfter(lib, p, value, s, k))
    decreases |s.input| - k
  {
    AwaitRound(lib, p, value, s, k);
    if k == |s.input| {
      assert s.input[..k] == s.input;
      TookMeets(lib, p, value, s, k, Blocked);
    } else if s.input[k].Timer? {
      TookMeets(lib, p, value, s, k + 1, Failed(TimedOut(value)));
    } else if HitAt(lib, p, s.input, k + 1) {
      TookMeets(lib, p, value, s, k + 1, Done);
    } else {
      NoHitSnoc(lib, p, s.input, k);
      AwaitFrom(lib, p, value, s, k + 1);
    }
  }

  /** An expect with a readable pattern consumes exactly the shortest non-empty prefix of characters on
      which the pattern holds, the line being the text after the last newline since the expect began. It
      fails exactly when a timer fires before any such prefix is complete, and otherwise still waits. */
  lemma ExpectIsShortestPrefix(lib: Libs, value: string, s: Port)
    requires ParsePattern(lib, value).Ok?
    ensures Meets(lib, ParsePattern(lib, value).value, value, s, Expecting(lib, value, s))
  {
    assert TextOf(s.input[..0]) == "" && s.input[0..] == s.input;
    AwaitFrom(lib, ParsePattern(lib, value).value, value, s, 0);
  }

  /** A timer before any match: nothing can match later. */
  lemma NoHitPastTimer(lib: Libs, p: Pattern, es: seq<Event>, t: nat, m: int)
    requires t < |es| && es[t].Timer? && t < m
    ensures !HitAt(lib, p, es, m)
  {
    if m <= |es| {
      assert es[..m][t] == es[t];
    }
  }

  /** The verdict of an expect, read off the trace: it succeeds if and only if some prefix of characters
      shows the pattern, and fails if and only if none does and the trace has a timer event. */
  lemma ExpectVerdict(lib: Libs, value: string, s: Port)
    requires ParsePattern(lib, value).Ok?
    ensures var p := ParsePattern(lib, value).value;
            var o := Expecting(lib, value, s).outcome;
            && (o.Done? <==> exists n :: HitAt(lib, p, s.input, n))
            && (o.Failed? <==> !(exists n :: HitAt(lib, p, s.input, n)) && !AllChars(s.input))
  {
    var p, es := ParsePattern(lib, value).value, s.input;
    ExpectIsShortestPrefix(lib, value, s);
    var r := Expecting(lib, value, s);
    if r.outcome.Failed? {
      var t := Used(s, r) - 1;
      forall n ensures !HitAt(lib, p, es, n) {
        if n > t { NoHitPastTimer(lib, p, es, t, n); }
      }
    }
  }

  /** A successful expect ends no later than any prefix that shows the pattern. */
  lemma ExpectEndsBy(lib: Libs, value: string, p: Pattern, s: Port, n: int)
    requires ParsePattern(lib, value) == Ok(p) && HitAt(lib, p, s.input, n)
    ensures var r := Expecting(lib, value, s);
            r.outcome == Done && TookPrefix(s, r) && 0 < Used(s, r) <= n && HitAt(lib, p, s.input, Used(s, r))
  {
    ExpectVerdict(lib, value, s);
    ExpectIsShortestPrefix(lib, value, s);
  }

  // ---------- expects for one letter ----------

  /** Searching short lower-case texts for one letter. */
  lemma Searches(text: string, letter: string, found: bool)
    requires |letter| == 1 && 1 <= |text| <= 2
    requires forall c :: c in text + letter ==> 'a' <= c <= 'z'
    requires found <==> letter[0] in text
    ensures Contains(ToLower(text), ToLower(letter)) == found
  {
    assert ToLower(text) == text && ToLower(letter) == letter by {
      forall i | 0 <= i < |text| ensures LowerChar(text[i]) == text[i] { assert text[i] in text + letter; }
      assert letter[0] in text + letter;
    }
    if found {
      var i :| 0 <= i < |text| && text[i] == letter[0];
      assert letter <= text[i..];
    } else {
      forall i | 0 <= i <= |text| ensures !(letter <= text[i..]) {
        assert i < |text| ==> text[i..][0] == text[i];
      }
    }
  }

  function Quoted(c: char): string {
    ['\'', c, '\'']
  }

  lemma QuotedIsSearch(lib: Libs, c: char)
    ensures ParsePattern(lib, Quoted(c)) == Ok(AnyCase([c]))
  {
    assert Quoted(c)[1..2] == [c];
  }

  lemma LetterComesSecond(lib: Libs, d: char, c: char, s: Port)
    requires 'a' <= c <= 'z' && 'a' <= d <= 'z' && d != c
    requires |s.input| > 1 && s.input[0] == Char(d) && s.input[1] == Char(c)
    ensures Await(lib, AnyCase([c]), Quoted(c), "", s) == Ran(s.(input := s.input[2..]), Done)
  {
    Searches([d], [c], false);
    Searches([d, c], [c], true);
    assert "" + [d] == [d] && [d] + [c] == [d, c];
    var rest := s.(input := s.input[1..]);
    assert rest.input[0] == Char(c) && rest.input[1..] == s.input[2..];
    assert Await(lib, AnyCase([c]), Quoted(c), [d], rest) == Ran(s.(input := s.input[2..]), Done);
    assert !LiveMatch(lib, AnyCase([c]), [d], LastLine([d]));
  }

  lemma LetterComesFirst(lib: Libs, c: char, s: Port)
    requires 'a' <= c <= 'z' && s.input != [] && s.input[0] == Char(c)
    ensures Await(lib, AnyCase([c]), Quoted(c), "", s) == Ran(s.(input := s.input[1..]), Done)
  {
    Searches([c], [c], true);
    assert "" + [c] == [c];
  }

  /** An expect for one letter, on a trace that shows it first or second or times out at once. */
  lemma ExpectLetter(lib: Libs, c: char, s: Port)
    requires 'a' <= c <= 'z' && s.input != []
    ensures s.input[0] == Timer ==>
              Expecting(lib, Quoted(c), s) == Ran(s.(input := s.input[1..]), Failed(TimedOut(Quoted(c))))
    ensures s.input[0] == Char(c) ==> Expecting(lib, Quoted(c), s) == Ran(s.(input := s.input[1..]), Done)
    ensures |s.input| > 1 && s.input[0].Char? && s.input[0].c != c && 'a' <= s.input[0].c <= 'z' && s.input[1] == Char(c) ==>
              Expecting(lib, Quoted(c), s) == Ran(s.(input := s.input[2..]), Done)
  {
    QuotedIsSearch(lib, c);
    if s.input[0] == Char(c) {
      LetterComesFirst(lib, c, s);
    } else if |s.input| > 1 && s.input[0].Char? && 'a' <= s.input[0].c <= 'z' && s.input[1] == Char(c) {
      LetterComesSecond(lib, s.input[0].c, c, s);
    }
  }
}
