/** The value of a send command: quoting and escape decoding. */
module SendValue {
  import opened Text

  const ESC: char := '\\'

  /** The two successive replacements, as written. */
  function Decode(s: string): string {
    ReplaceAll(ReplaceAll(s, [ESC, 'r'], [CR]), [ESC, 'n'], [LF])
  }

  /** What is transmitted for the value of a send command. */
  function Format(value: string): string {
    if |value| >= 2 then
      var first, last, content := value[0], value[|value| - 1], value[1..|value| - 1];
      if first == '\'' && last == '\'' then content + [CR]
      else if first == '"' && last == '"' then Decode(content)
      else value
    else value
  }

  /** What the quotes of a value mean: single ones add a carriage return, double ones decode, and a value that is
      not in a matching pair is sent as it is. */
  lemma FormatMeaning(t: string, v: string)
    ensures Format("'" + t + "'") == t + "\r"
    ensures Format("\"" + t + "\"") == Decode(t)
    ensures Unquoted(v) ==> Format(v) == v
  {
    var single, double := "'" + t + "'", "\"" + t + "\"";
    assert single[1..|single| - 1] == t && double[1..|double| - 1] == t;
  }

  predicate Unquoted(v: string) {
    |v| < 2 || !((v[0] == '\'' && v[|v| - 1] == '\'') || (v[0] == '"' && v[|v| - 1] == '"'))
  }

  /** One left-to-right pass that reads both escapes at once. */
  function DecodeOnce(s: string): string {
    if |s| < 2 then s
    else if s[0] == ESC && s[1] == 'r' then [CR] + DecodeOnce(s[2..])
    else if s[0] == ESC && s[1] == 'n' then [LF] + DecodeOnce(s[2..])
    else [s[0]] + DecodeOnce(s[1..])
  }

  /** After its first replacement a text starts as it did, up to an escaped carriage return. */
  lemma FirstPassHead(s: string)
    requires s != [] && !([ESC, 'r'] <= s)
    ensures var t := ReplaceAll(s, [ESC, 'r'], [CR]);
            t != [] && t[0] == s[0]
            && (|s| >= 2 && s[1] == 'n' <==> |t| >= 2 && t[1] == 'n')
  {
    if |s| >= 2 {
      var r := ReplaceAll(s[1..], [ESC, 'r'], [CR]);
      assert s[..2] == [ESC, 'r'] <==> [ESC, 'r'] <= s;
      assert ReplaceAll(s, [ESC, 'r'], [CR]) == [s[0]] + r;
      assert |s[1..]| >= 2 && s[1..][..2] == [ESC, 'r'] ==> r[0] == CR;
    }
  }

  /** The two replacements in a row equal the single pass, on every text. */
  lemma {:induction false} DecodeIsOnePass(s: string)
    ensures Decode(s) == DecodeOnce(s)
  {
    var t := ReplaceAll(s, [ESC, 'r'], [CR]);
    if |s| < 2 {
    } else if s[..2] == [ESC, 'r'] {
      DecodeIsOnePass(s[2..]);
      assert t == [CR] + ReplaceAll(s[2..], [ESC, 'r'], [CR]);
      assert t[1..] == ReplaceAll(s[2..], [ESC, 'r'], [CR]);
    } else if s[..2] == [ESC, 'n'] {
      FirstPassHead(s);
      DecodeIsOnePass(s[2..]);
      var u := ReplaceAll(s[2..], [ESC, 'r'], [CR]);
      assert s[1..][0] == 'n' && s[1..][1..] == s[2..];
      assert ReplaceAll(s[1..], [ESC, 'r'], [CR]) == ['n'] + u;
      assert t == [ESC] + (['n'] + u);
      assert t[..2] == [ESC, 'n'] && t[2..] == u;
    } else {
      assert [ESC, 'r'] <= s <==> s[..2] == [ESC, 'r'];
      FirstPassHead(s);
      DecodeIsOnePass(s[1..]);
      var u := ReplaceAll(s[1..], [ESC, 'r'], [CR]);
      assert t == [s[0]] + u && t[1..] == u;
      assert |t| >= 2 ==> (t[..2] == [ESC, 'n'] <==> s[..2] == [ESC, 'n']);
    }
  }

  /** What decoding does at the front of a text, which determines it on every text. */
  lemma DecodeMeaning(c: char, s: string)
    ensures Decode("") == ""
    ensures Decode("\\r" + s) == "\r" + Decode(s) && Decode("\\n" + s) == "\n" + Decode(s)
    ensures !(c == '\\' && s != "" && (s[0] == 'r' || s[0] == 'n')) ==> Decode([c] + s) == [c] + Decode(s)
  {
    var r, n, other := "\\r" + s, "\\n" + s, [c] + s;
    DecodeIsOnePass("");
    DecodeIsOnePass(s);
    DecodeIsOnePass(r);
    DecodeIsOnePass(n);
    DecodeIsOnePass(other);
    assert r[0] == '\\' && r[1] == 'r' && r[2..] == s;
    assert n[0] == '\\' && n[1] == 'n' && n[2..] == s;
    assert other[0] == c && other[1..] == s && (s != "" ==> other[1] == s[0]);
  }

  /** Writes line breaks as escapes and leaves every other character alone. */
  function Encode(s: string): string {
    if s == [] then []
    else (if s[0] == CR then [ESC, 'r'] else if s[0] == LF then [ESC, 'n'] else [s[0]]) + Encode(s[1..])
  }

  /** A backslash directly followed by r or n. */
  predicate LooksEscaped(s: string) {
    exists i :: 0 <= i < |s| - 1 && s[i] == ESC && s[i + 1] in ['r', 'n']
  }

  lemma LooksEscapedStep(s: string)
    requires s != []
    ensures LooksEscaped(s) <==> (|s| >= 2 && s[0] == ESC && s[1] in ['r', 'n']) || LooksEscaped(s[1..])
  {
    if LooksEscaped(s) {
      var i :| 0 <= i < |s| - 1 && s[i] == ESC && s[i + 1] in ['r', 'n'];
      if i > 0 { assert s[1..][i - 1] == ESC && s[1..][i - 1 + 1] in ['r', 'n']; }
    }
    if LooksEscaped(s[1..]) {
      var i :| 0 <= i < |s[1..]| - 1 && s[1..][i] == ESC && s[1..][i + 1] in ['r', 'n'];
      assert s[i + 1] == ESC && s[i + 1 + 1] in ['r', 'n'];
    }
  }

  lemma EncodeHead(s: string)
    requires s != []
    ensures Encode(s) != []
    ensures s[0] !in [CR, LF] ==> Encode(s)[0] == s[0]
    ensures s[0] in [CR, LF] ==> Encode(s)[0] == ESC
  {
  }

  lemma DecodeEncodeStep(s: string)
    requires s != []
    ensures |s| >= 2 && s[0] == ESC && s[1] in ['r', 'n'] ==>
              |DecodeOnce(Encode(s))| == 1 + |DecodeOnce(Encode(s[2..]))|
    ensures !(|s| >= 2 && s[0] == ESC && s[1] in ['r', 'n']) ==>
              DecodeOnce(Encode(s)) == [s[0]] + DecodeOnce(Encode(s[1..]))
  {
    var e := Encode(s);
    if s[0] == CR || s[0] == LF {
      assert e[2..] == Encode(s[1..]);
    } else {
      assert e[0] == s[0] && e[1..] == Encode(s[1..]);
      if |s| == 1 {
        assert Encode(s[1..]) == [];
      } else {
        EncodeHead(s[1..]);
        assert e[1] == Encode(s[1..])[0];
        if s[0] == ESC && s[1] in ['r', 'n'] {
          assert s[1..][1..] == s[2..];
          assert e[2..] == Encode(s[2..]);
        }
      }
    }
  }

  lemma {:induction false} DecodeEncoded(s: string)
    ensures |DecodeOnce(Encode(s))| <= |s|
    ensures DecodeOnce(Encode(s)) == s <==> !LooksEscaped(s)
    ensures LooksEscaped(s) ==> |DecodeOnce(Encode(s))| < |s|
  {
    if s != [] {
      DecodeEncodeStep(s);
      LooksEscapedStep(s);
      if |s| >= 2 && s[0] == ESC && s[1] in ['r', 'n'] {
        DecodeEncoded(s[2..]);
      } else {
        DecodeEncoded(s[1..]);
        assert [s[0]] + s[1..] == s;
      }
    }
  }

  /** A double-quoted value transmits the text it encodes exactly when that text has no backslash
      directly followed by r or n. */
  lemma QuotedSendTransmits(s: string)
    ensures Format(['"'] + Encode(s) + ['"']) == s <==> !LooksEscaped(s)
  {
    var v := ['"'] + Encode(s) + ['"'];
    assert v[1..|v| - 1] == Encode(s);
    DecodeIsOnePass(Encode(s));
    DecodeEncoded(s);
  }
}
