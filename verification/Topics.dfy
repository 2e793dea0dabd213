/** Topic names and filters, section 4.7 of OASIS MQTT 3.1.1. */
module Topics {

  const SEPARATOR: char := '/'

  /** The levels of a topic name or filter; a level may be empty. */
  function Levels(topic: string): (ls: seq<string>)
    ensures |ls| >= 1
  {
    if topic == "" then [""]
    else
      var rest := Levels(topic[1..]);
      if topic[0] == SEPARATOR then [""] + rest else [[topic[0]] + rest[0]] + rest[1..]
  }

  /** Level by level: + stands for one level, # for any number of them at the end, parent included. */
  predicate LevelsMatch(filter: seq<string>, name: seq<string>) {
    if filter == ["#"] then true
    else if filter == [] || name == [] then filter == [] && name == []
    else (filter[0] == "+" || filter[0] == name[0]) && LevelsMatch(filter[1..], name[1..])
  }

  /** Filters that begin with a wildcard do not match names that begin with $ (section 4.7.2). */
  predicate Matches(filter: string, name: string) {
    && LevelsMatch(Levels(filter), Levels(name))
    && !(filter != "" && filter[0] in ['+', '#'] && name != "" && name[0] == '$')
  }

  predicate WildcardFree(topic: string) {
    '+' !in topic && '#' !in topic
  }

  lemma {:induction false} LevelsWildcardFree(topic: string)
    requires WildcardFree(topic)
    ensures forall i :: 0 <= i < |Levels(topic)| ==> WildcardFree(Levels(topic)[i])
  {
    if topic != "" {
      LevelsWildcardFree(topic[1..]);
      var rest := Levels(topic[1..]);
      if topic[0] != SEPARATOR {
        assert Levels(topic)[0] == [topic[0]] + rest[0];
        assert topic[0] in topic;
      }
    }
  }

  /** A name is determined by its levels. */
  lemma {:induction false} LevelsInjective(a: string, b: string)
    requires Levels(a) == Levels(b)
    ensures a == b
  {
    if a != "" && b != "" {
      var ra, rb := Levels(a[1..]), Levels(b[1..]);
      LevelHead(a);
      LevelHead(b);
      if a[0] == SEPARATOR {
        assert Levels(a)[1..] == ra && Levels(b)[1..] == rb;
      } else {
        assert Levels(a)[0][1..] == ra[0] && Levels(b)[0][1..] == rb[0];
        assert ra == [ra[0]] + Levels(a)[1..] && rb == [rb[0]] + Levels(b)[1..];
      }
      LevelsInjective(a[1..], b[1..]);
      assert a == [a[0]] + a[1..] && b == [b[0]] + b[1..];
    } else if a != "" {
      LevelHead(a);
    } else if b != "" {
      LevelHead(b);
    }
  }

  lemma LevelHead(a: string)
    requires a != ""
    ensures a[0] == SEPARATOR <==> Levels(a)[0] == ""
    ensures a[0] == SEPARATOR ==> |Levels(a)| > 1
    ensures a[0] != SEPARATOR ==> Levels(a)[0][0] == a[0]
  {
  }

  /** Levels of a name put together from two parts. */
  lemma {:induction false} LevelsOfParts(a: string, b: string)
    ensures Levels(a + [SEPARATOR] + b) == Levels(a) + Levels(b)
  {
    var t := a + [SEPARATOR] + b;
    if a == "" {
      assert t[0] == SEPARATOR && t[1..] == b;
    } else {
      LevelsOfParts(a[1..], b);
      assert t[0] == a[0] && t[1..] == a[1..] + [SEPARATOR] + b;
      FirstLevels(a[0], Levels(a[1..]), Levels(b));
    }
  }

  /** Putting a character in front changes only the first level. */
  lemma FirstLevels(c: char, rest: seq<string>, more: seq<string>)
    requires rest != []
    ensures [""] + (rest + more) == [""] + rest + more
    ensures [[c] + (rest + more)[0]] + (rest + more)[1..] == [[c] + rest[0]] + rest[1..] + more
  {
  }

  lemma {:induction false} PlainLevelsMatch(filter: seq<string>, name: seq<string>)
    requires forall i :: 0 <= i < |filter| ==> WildcardFree(filter[i])
    ensures LevelsMatch(filter, name) <==> filter == name
  {
    if filter != [] {
      assert filter[0] != "+" && filter[0] != "#" by {
        assert '+' in "+" && '#' in "#";
      }
      if name != [] {
        PlainLevelsMatch(filter[1..], name[1..]);
        assert filter == [filter[0]] + filter[1..] && name == [name[0]] + name[1..];
      }
    }
  }

  /** A filter without wildcards matches only itself. */
  lemma PlainMatches(filter: string, name: string)
    requires WildcardFree(filter)
    ensures Matches(filter, name) <==> name == filter
  {
    LevelsWildcardFree(filter);
    PlainLevelsMatch(Levels(filter), Levels(name));
    if Levels(filter) == Levels(name) {
      LevelsInjective(filter, name);
    }
  }

  lemma {:induction false} PlusLevelsMatch(base: seq<string>, name: seq<string>)
    requires forall i :: 0 <= i < |base| ==> WildcardFree(base[i])
    ensures LevelsMatch(base + ["+"], name) <==> |name| == |base| + 1 && name[..|base|] == base
  {
    var filter := base + ["+"];
    if base == [] {
      assert filter[0] == "+" && filter[1..] == [] && filter == ["+"];
      if name != [] {
        assert LevelsMatch([], name[1..]) <==> name[1..] == [];
        assert LevelsMatch(filter, name) <==> LevelsMatch(filter[1..], name[1..]);
        assert name[..0] == [];
      }
    } else {
      assert base[0] != "+" && base[0] != "#" by {
        assert '+' in "+" && '#' in "#";
      }
      assert filter[0] == base[0] && filter[1..] == base[1..] + ["+"];
      if name != [] {
        PlusLevelsMatch(base[1..], name[1..]);
        if |name| == |base| + 1 {
          assert name[..|base|] == [name[0]] + name[1..][..|base| - 1];
          assert base == [base[0]] + base[1..];
        }
      }
    }
  }

  /** Everything exactly one level below a base: base/x where x has no separator. */
  predicate OneBelow(base: string, name: string) {
    base + [SEPARATOR] <= name && SEPARATOR !in name[|base| + 1..]
  }

  lemma {:induction false} OneLevel(x: string)
    ensures |Levels(x)| == 1 <==> SEPARATOR !in x
  {
    if x != "" {
      OneLevel(x[1..]);
      assert x == [x[0]] + x[1..];
    }
  }

  /** A name whose first levels are those of base continues base after a separator. */
  lemma {:induction false} LevelsSplit(base: string, name: string)
    requires |Levels(name)| > |Levels(base)| && Levels(name)[..|Levels(base)|] == Levels(base)
    ensures base + [SEPARATOR] <= name
    decreases |base| + |name|
  {
    if base == "" {
      assert Levels(name)[0] == Levels(base)[0] == "";
      if name != "" { LevelHead(name); }
    } else {
      assert Levels(name)[0] == Levels(base)[0];
      LevelHead(base);
      if name != "" { LevelHead(name); }
      var rb, rn := Levels(base[1..]), Levels(name[1..]);
      assert name[0] == base[0];
      if base[0] == SEPARATOR {
        assert rn[..|rb|] == Levels(name)[1..][..|rb|] == Levels(name)[..|rb| + 1][1..] == rb;
      } else {
        assert Levels(name)[0][1..] == rn[0] && Levels(base)[0][1..] == rb[0];
        assert rn[..|rb|] == [rn[0]] + Levels(name)[..|rb|][1..];
        assert rb == [rb[0]] + Levels(base)[1..];
      }
      LevelsSplit(base[1..], name[1..]);
      assert name == [name[0]] + name[1..] && base + [SEPARATOR] == [base[0]] + (base[1..] + [SEPARATOR]);
    }
  }

  lemma OneBelowMeaning(base: string, name: string)
    ensures OneBelow(base, name) <==> exists rest :: '/' !in rest && name == base + "/" + rest
  {
    assert base + [SEPARATOR] == base + "/";
    if OneBelow(base, name) {
      assert name == base + "/" + name[|base| + 1..];
    }
    if rest :| '/' !in rest && name == base + "/" + rest {
      assert name[|base| + 1..] == rest;
    }
  }

  /** The filter base/+ matches exactly the names one level below base (section 4.7.1.3). */
  lemma PlusMatches(base: string, name: string)
    requires WildcardFree(base) && base != ""
    ensures Matches(base + "/+", name) <==> OneBelow(base, name)
    ensures OneBelow(base, name) <==> exists rest :: '/' !in rest && name == base + "/" + rest
  {
    OneBelowMeaning(base, name);
    assert base + "/+" == base + [SEPARATOR] + "+";
    LevelsOfParts(base, "+");
    assert Levels("+") == ["+"] by {
      assert "+"[1..] == "" && Levels("") == [""] && [""][1..] == [];
      assert ['+'] + "" == "+";
    }
    LevelsWildcardFree(base);
    PlusLevelsMatch(Levels(base), Levels(name));
    assert base[0] in base && (base + "/+")[0] == base[0];
    if |Levels(name)| == |Levels(base)| + 1 && Levels(name)[..|Levels(base)|] == Levels(base) {
      LevelsSplit(base, name);
    }
    if base + [SEPARATOR] <= name {
      var x := name[|base| + 1..];
      assert name == base + [SEPARATOR] + x;
      LevelsOfParts(base, x);
      OneLevel(x);
    }
  }
}
