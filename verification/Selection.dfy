/** Choosing what to run from a configuration, and resolving the scripts a try block refers to. */
module Selection {
  import opened Wrappers
  import opened Script
  import opened Live
  import Patterns

  datatype Config = Config(scripts: seq<NamedScript>, tries: seq<TryBlock>)

  datatype SelectError =
    | UnnamedTry
    | NoSuchScript(block: string, script: string)
    | NoSuchExcept(block: string, script: string)
    | NothingToRun
    | NotAvailable(name: string, available: set<string>)

  type ScriptMap = map<string, NamedScript>

  const MARKER := "__TRY_BLOCK__"

  function Decimal(n: nat): string {
    (if n < 10 then "" else Decimal(n / 10)) + [(n % 10 + '0' as int) as char]
  }

  /** The name invented for the unnamed script at index i. */
  function InventedName(i: nat): string {
    "script" + Decimal(i + 1)
  }

  function WithName(script: NamedScript, i: nat): NamedScript {
    if script.name == "" then script.(name := InventedName(i)) else script
  }

  /** The number that a string of digits reads as. */
  function Reading(s: string): int {
    if s == "" then 0 else 10 * Reading(s[..|s| - 1]) + (s[|s| - 1] as int - '0' as int)
  }

  /** Decimal writes a number in digits, without leading zeros. */
  lemma {:induction false} DecimalMeaning(n: nat)
    ensures var s := Decimal(n);
            && Reading(s) == n && s != "" && (forall i :: 0 <= i < |s| ==> '0' <= s[i] <= '9')
            && (s[0] == '0' ==> n == 0 && s == "0")
  {
    var s := Decimal(n);
    if n >= 10 {
      DecimalMeaning(n / 10);
      assert s[..|s| - 1] == Decimal(n / 10);
    } else {
      assert Reading("") == 0 && s[..0] == "";
    }
  }

  // ---------- what selectScripts means ----------

  /** Script k is called name: by its own name, or as script1, script2 and so on by its position. */
  predicate Carries(scripts: seq<NamedScript>, k: int, name: string) {
    0 <= k < |scripts| && name == if scripts[k].name == "" then "script" + Decimal(k + 1) else scripts[k].name
  }

  predicate LastCarrier(scripts: seq<NamedScript>, n: int, k: int, name: string) {
    0 <= k < n && Carries(scripts, k, name) && forall m :: k < m < n ==> !Carries(scripts, m, name)
  }

  predicate NamesEarlierTry(config: Config, n: nat, name: string)
    requires n <= |config.tries|
  {
    exists j :: 0 <= j < n && config.tries[j].name == name
  }

  /** Some script, or one of the first n try blocks, is called name. */
  ghost predicate Available(config: Config, n: nat, name: string)
    requires n <= |config.tries|
  {
    (exists k :: Carries(config.scripts, k, name)) || NamesEarlierTry(config, n, name)
  }

  /** A name stands for the marker of the try block of that name, else for the last script of that name. */
  ghost predicate StandsFor(config: Config, n: nat, name: string, s: NamedScript)
    requires n <= |config.tries|
  {
    if NamesEarlierTry(config, n, name) then s == NamedScript(name, "__TRY_BLOCK__" + name)
    else exists k :: LastCarrier(config.scripts, |config.scripts|, k, name)
                     && s == NamedScript(name, config.scripts[k].content)
  }

  ghost predicate Acceptable(config: Config, i: nat)
    requires i < |config.tries|
  {
    var block := config.tries[i];
    block.name != "" && Available(config, i, block.script) && (block.except != "" ==> Available(config, i, block.except))
  }

  ghost predicate AcceptableUpTo(config: Config, n: nat)
    requires n <= |config.tries|
  {
    forall i :: 0 <= i < n ==> Acceptable(config, i)
  }

  /** What the error about try block i says. */
  ghost predicate Rejects(config: Config, i: nat, e: SelectError)
    requires i < |config.tries|
  {
    var block := config.tries[i];
    match e
    case UnnamedTry => block.name == ""
    case NoSuchScript(name, script) =>
      block.name != "" && name == block.name && script == block.script && !Available(config, i, block.script)
    case NoSuchExcept(name, script) =>
      && block.name != "" && Available(config, i, block.script)
      && name == block.name && script == block.except && block.except != "" && !Available(config, i, block.except)
    case _ => false
  }

  /** What the result of a selection says: the scripts asked for, in their order, or the only one there is first; or
      the first thing that is wrong. */
  ghost predicate Selected(config: Config, names: seq<string>, r: Result<seq<NamedScript>, SelectError>) {
    var all := |config.tries|;
    match r
    case Ok(picked) =>
      && AcceptableUpTo(config, all)
      && if names != [] then
           |picked| == |names| && forall i :: 0 <= i < |names| ==> StandsFor(config, all, names[i], picked[i])
         else if config.scripts != [] then
           var first := config.scripts[0];
           picked == [NamedScript(if first.name == "" then "script1" else first.name, first.content)]
         else
           all > 0 && picked == [NamedScript(config.tries[0].name, "__TRY_BLOCK__" + config.tries[0].name)]
    case Err(NothingToRun) => config.scripts == [] && config.tries == []
    case Err(NotAvailable(name, available)) =>
      && AcceptableUpTo(config, all)
      && (forall x :: x in available <==> Available(config, all, x))
      && exists i :: 0 <= i < |names| && names[i] == name && FirstUnavailable(config, names, i)
    case Err(e) => exists i :: 0 <= i < all && AcceptableUpTo(config, i) && Rejects(config, i, e)
  }

  ghost predicate FirstUnavailable(config: Config, names: seq<string>, i: int) {
    && 0 <= i < |names| && !Available(config, |config.tries|, names[i])
    && forall j :: 0 <= j < i ==> Available(config, |config.tries|, names[j])
  }

  // ---------- what selectScripts computes ----------

  /** The first n scripts under their own or invented names; a later script replaces an earlier one. */
  function ScriptsByName(scripts: seq<NamedScript>, n: nat): ScriptMap
    requires n <= |scripts|
  {
    if n == 0 then map[]
    else
      var script := WithName(scripts[n - 1], n - 1);
      ScriptsByName(scripts, n - 1)[script.name := script]
  }

  function Virtual(block: TryBlock): NamedScript {
    NamedScript(block.name, MARKER + block.name)
  }

  function Check(block: TryBlock, known: ScriptMap): Option<SelectError> {
    if block.name == "" then Some(UnnamedTry)
    else if block.script !in known then Some(NoSuchScript(block.name, block.script))
    else if block.except != "" && block.except !in known then Some(NoSuchExcept(block.name, block.except))
    else None
  }

  /** The scripts and the first n try blocks, each block checked against what came before it. */
  function Known(config: Config, n: nat): Result<ScriptMap, SelectError>
    requires n <= |config.tries|
  {
    if n == 0 then Ok(ScriptsByName(config.scripts, |config.scripts|))
    else
      match Known(config, n - 1)
      case Err(e) => Err(e)
      case Ok(known) =>
        var block := config.tries[n - 1];
        match Check(block, known)
        case Some(e) => Err(e)
        case None => Ok(known[block.name := Virtual(block)])
  }

  function FirstOnly(config: Config): seq<NamedScript> {
    if config.scripts != [] then [WithName(config.scripts[0], 0)]
    else if config.tries != [] then [Virtual(config.tries[0])]
    else []
  }

  function Pick(known: ScriptMap, names: seq<string>): Result<seq<NamedScript>, SelectError> {
    if names == [] then Ok([])
    else
      var last := names[|names| - 1];
      match Pick(known, names[..|names| - 1])
      case Err(e) => Err(e)
      case Ok(picked) => if last in known then Ok(picked + [known[last]]) else Err(NotAvailable(last, known.Keys))
  }

  function SelectSpec(config: Config, names: seq<string>): Result<seq<NamedScript>, SelectError> {
    match Known(config, |config.tries|)
    case Err(e) => Err(e)
    case Ok(known) =>
      if known == map[] then Err(NothingToRun)
      else if names == [] then Ok(FirstOnly(config))
      else Pick(known, names)
  }

  lemma {:induction false} ScriptValue(scripts: seq<NamedScript>, n: nat, name: string)
    requires n <= |scripts|
    ensures name in ScriptsByName(scripts, n) <==> exists k :: 0 <= k < n && Carries(scripts, k, name)
    ensures name in ScriptsByName(scripts, n) ==>
              exists k :: LastCarrier(scripts, n, k, name) && ScriptsByName(scripts, n)[name] == NamedScript(name, scripts[k].content)
  {
    if n > 0 {
      ScriptValue(scripts, n - 1, name);
      if Carries(scripts, n - 1, name) {
        assert LastCarrier(scripts, n, n - 1, name);
      } else if k :| LastCarrier(scripts, n - 1, k, name) && name in ScriptsByName(scripts, n - 1)
                     && ScriptsByName(scripts, n - 1)[name] == NamedScript(name, scripts[k].content) {
        assert LastCarrier(scripts, n, k, name);
      }
    }
  }

  lemma {:induction false} KnownValue(config: Config, n: nat, name: string)
    requires n <= |config.tries| && Known(config, n).Ok?
    ensures name in Known(config, n).value <==> Available(config, n, name)
    ensures name in Known(config, n).value ==> StandsFor(config, n, name, Known(config, n).value[name])
  {
    if n == 0 {
      ScriptValue(config.scripts, |config.scripts|, name);
    } else {
      KnownValue(config, n - 1, name);
      var last := config.tries[n - 1].name;
      assert NamesEarlierTry(config, n, name) <==> NamesEarlierTry(config, n - 1, name) || name == last;
    }
  }

  lemma CheckMeaning(config: Config, i: nat)
    requires i < |config.tries| && Known(config, i).Ok?
    ensures Check(config.tries[i], Known(config, i).value).None? <==> Acceptable(config, i)
    ensures Check(config.tries[i], Known(config, i).value).Some? ==>
              Rejects(config, i, Check(config.tries[i], Known(config, i).value).value)
  {
    KnownValue(config, i, config.tries[i].script);
    KnownValue(config, i, config.tries[i].except);
  }

  lemma {:induction false} KnownMeaning(config: Config, n: nat)
    requires n <= |config.tries|
    ensures Known(config, n).Ok? <==> AcceptableUpTo(config, n)
    ensures Known(config, n).Err? ==>
              exists i :: 0 <= i < n && AcceptableUpTo(config, i) && Rejects(config, i, Known(config, n).error)
  {
    if n > 0 {
      KnownMeaning(config, n - 1);
      if Known(config, n - 1).Ok? {
        CheckMeaning(config, n - 1);
        assert Known(config, n).Err? ==> AcceptableUpTo(config, n - 1) && Rejects(config, n - 1, Known(config, n).error);
      } else {
        var i :| 0 <= i < n - 1 && AcceptableUpTo(config, i) && Rejects(config, i, Known(config, n - 1).error);
        assert Rejects(config, i, Known(config, n).error);
      }
    }
  }

  /** The scripts picked are those of the names, in their order; or the first unknown name is reported. */
  lemma {:induction false} PickMeaning(known: ScriptMap, names: seq<string>)
    ensures Pick(known, names).Ok? ==>
              && |Pick(known, names).value| == |names|
              && forall i :: 0 <= i < |names| ==> names[i] in known && Pick(known, names).value[i] == known[names[i]]
    ensures Pick(known, names).Err? ==>
              exists i :: 0 <= i < |names| && names[i] !in known && (forall j :: 0 <= j < i ==> names[j] in known)
                          && Pick(known, names).error == NotAvailable(names[i], known.Keys)
  {
    if names != [] {
      var init, last := names[..|names| - 1], names[|names| - 1];
      PickMeaning(known, init);
      if Pick(known, init).Err? {
        var i :| 0 <= i < |init| && init[i] !in known && (forall j :: 0 <= j < i ==> init[j] in known)
                 && Pick(known, init).error == NotAvailable(init[i], known.Keys);
        assert names[i] !in known && forall j :: 0 <= j < i ==> names[j] == init[j];
      } else if last !in known {
        assert forall j :: 0 <= j < |init| ==> names[j] == init[j];
      }
    }
  }

  lemma KnownIsEmpty(config: Config, known: ScriptMap)
    requires Known(config, |config.tries|) == Ok(known)
    ensures known == map[] <==> config.scripts == [] && config.tries == []
  {
    if config.scripts != [] {
      var name := WithName(config.scripts[0], 0).name;
      assert Carries(config.scripts, 0, name);
      KnownValue(config, |config.tries|, name);
    } else if config.tries != [] {
      assert config.tries[0].name == config.tries[0].name;
      KnownValue(config, |config.tries|, config.tries[0].name);
    }
  }

  lemma PickedIsSelected(config: Config, names: seq<string>, known: ScriptMap)
    requires Known(config, |config.tries|) == Ok(known) && names != []
    ensures Selected(config, names, Pick(known, names))
  {
    var all := |config.tries|;
    KnownMeaning(config, all);
    PickMeaning(known, names);
    forall x ensures x in known <==> Available(config, all, x) {
      KnownValue(config, all, x);
    }
    match Pick(known, names)
    case Ok(picked) =>
      forall i | 0 <= i < |names| ensures StandsFor(config, all, names[i], picked[i]) {
        KnownValue(config, all, names[i]);
      }
    case Err(e) =>
      var i :| 0 <= i < |names| && names[i] !in known && (forall j :: 0 <= j < i ==> names[j] in known)
               && e == NotAvailable(names[i], known.Keys);
      assert FirstUnavailable(config, names, i);
  }

  /** The specification of the loops means what Selected says, on every configuration and request. */
  lemma SelectionMeaning(config: Config, names: seq<string>)
    ensures Selected(config, names, SelectSpec(config, names))
  {
    KnownMeaning(config, |config.tries|);
    match Known(config, |config.tries|)
    case Err(e) =>
    case Ok(known) =>
      KnownIsEmpty(config, known);
      if names != [] && known != map[] {
        PickedIsSelected(config, names, known);
      } else if known != map[] && config.scripts != [] {
        assert Decimal(1) == "1" && InventedName(0) == "script1";
      }
  }

  lemma {:induction false} KnownFailure(config: Config, n: nat, m: nat)
    requires n <= m <= |config.tries| && Known(config, n).Err?
    ensures Known(config, m) == Known(config, n)
  {
    if n < m { KnownFailure(config, n, m - 1); }
  }

  lemma {:induction false} PickFailure(known: ScriptMap, names: seq<string>, n: nat)
    requires n <= |names| && Pick(known, names[..n]).Err?
    ensures Pick(known, names) == Pick(known, names[..n])
    decreases |names|
  {
    if n < |names| {
      assert names[..|names| - 1][..n] == names[..n];
      PickFailure(known, names[..|names| - 1], n);
    } else {
      assert names[..n] == names;
    }
  }

  method SelectScripts(config: Config, names: seq<string>) returns (r: Result<seq<NamedScript>, SelectError>)
    ensures r == SelectSpec(config, names)
    ensures Selected(config, names, r)
  {
    SelectionMeaning(config, names);
    var scriptMap: ScriptMap := map[];
    for i := 0 to |config.scripts|
      invariant scriptMap == ScriptsByName(config.scripts, i)
    {
      var script := config.scripts[i];
      var name := script.name;
      if name == "" {
        name := InventedName(i);
        script := script.(name := name);
      }
      scriptMap := scriptMap[name := script];
    }
    for i := 0 to |config.tries|
      invariant Known(config, i) == Ok(scriptMap)
    {
      var block := config.tries[i];
      if Known(config, i + 1).Err? { KnownFailure(config, i + 1, |config.tries|); }
      if block.name == "" {
        return Err(UnnamedTry);
      }
      if block.script !in scriptMap {
        return Err(NoSuchScript(block.name, block.script));
      }
      if block.except != "" {
        if block.except !in scriptMap {
          return Err(NoSuchExcept(block.name, block.except));
        }
      }
      scriptMap := scriptMap[block.name := NamedScript(block.name, MARKER + block.name)];
    }
    if scriptMap == map[] {
      return Err(NothingToRun);
    }
    if names == [] {
      if config.scripts != [] {
        var script := config.scripts[0];
        if script.name == "" {
          assert Decimal(1) == "1" && InventedName(0) == "script1";
          script := script.(name := "script1");
        }
        return Ok([script]);
      }
      if config.tries != [] {
        return Ok([NamedScript(config.tries[0].name, MARKER + config.tries[0].name)]);
      }
    }
    var selected: seq<NamedScript> := [];
    for i := 0 to |names|
      invariant Pick(scriptMap, names[..i]) == Ok(selected)
    {
      assert names[..i + 1][..i] == names[..i];
      if Pick(scriptMap, names[..i + 1]).Err? { PickFailure(scriptMap, names, i + 1); }
      if names[i] in scriptMap {
        selected := selected + [scriptMap[names[i]]];
      } else {
        return Err(NotAvailable(names[i], scriptMap.Keys));
      }
    }
    assert names[..|names|] == names;
    return Ok(selected);
  }

  // ---------- what parseTryBlock computes ----------

  /** The scripts that a try block can run: only those with a name of their own. */
  function RuntimeScripts(scripts: seq<NamedScript>, n: nat): ScriptMap
    requires n <= |scripts|
  {
    if n == 0 then map[]
    else if scripts[n - 1].name == "" then RuntimeScripts(scripts, n - 1)
    else RuntimeScripts(scripts, n - 1)[scripts[n - 1].name := scripts[n - 1]]
  }

  /** block is the first try block of that name. */
  predicate FirstTry(config: Config, name: string, block: TryBlock) {
    exists i :: (
      && 0 <= i < |config.tries| && config.tries[i] == block && block.name == name
      && forall j :: 0 <= j < i ==> config.tries[j].name != name)
  }

  method ParseTryBlock(config: Config, name: string) returns (r: Option<Command>)
    ensures r.None? <==> forall i :: 0 <= i < |config.tries| ==> config.tries[i].name != name
    ensures r.Some? ==> r.value.Try? && FirstTry(config, name, r.value.block)
    ensures r.Some? ==> r.value.scripts == RuntimeScripts(config.scripts, |config.scripts|)
  {
    var k := 0;
    while k < |config.tries| && config.tries[k].name != name
      invariant k <= |config.tries| && forall j :: 0 <= j < k ==> config.tries[j].name != name
    {
      k := k + 1;
    }
    if k == |config.tries| {
      return None;
    }
    var scriptMap: ScriptMap := map[];
    for i := 0 to |config.scripts|
      invariant scriptMap == RuntimeScripts(config.scripts, i)
    {
      if config.scripts[i].name == "" {
        continue;
      }
      scriptMap := scriptMap[config.scripts[i].name := config.scripts[i]];
    }
    return Some(Try(config.tries[k], scriptMap));
  }

  // ---------- does the check protect the run? ----------

  predicate IsReference(block: TryBlock, r: string) {
    r == block.script || (block.except != "" && r == block.except)
  }

  /** Some script carries this name in the configuration itself. */
  predicate Declared(config: Config, name: string) {
    name != "" && exists i :: 0 <= i < |config.scripts| && config.scripts[i].name == name
  }

  predicate Invented(config: Config, name: string) {
    exists i :: 0 <= i < |config.scripts| && config.scripts[i].name == "" && InventedName(i) == name
  }

  lemma {:induction false} ScriptNames(scripts: seq<NamedScript>, n: nat, name: string)
    requires n <= |scripts|
    ensures name in ScriptsByName(scripts, n) <==> exists i :: 0 <= i < n && WithName(scripts[i], i).name == name
    ensures name in RuntimeScripts(scripts, n) <==> name != "" && exists i :: 0 <= i < n && scripts[i].name == name
  {
    if n > 0 {
      ScriptNames(scripts, n - 1, name);
    }
  }

  lemma {:induction false} KnownNames(config: Config, n: nat, name: string)
    requires n <= |config.tries| && Known(config, n).Ok?
    ensures name in Known(config, n).value <==>
              name in ScriptsByName(config.scripts, |config.scripts|) || NamesEarlierTry(config, n, name)
    ensures !NamesEarlierTry(config, n, name) && name in Known(config, n).value ==>
              Known(config, n).value[name] == ScriptsByName(config.scripts, |config.scripts|)[name]
  {
    if n > 0 {
      KnownNames(config, n - 1, name);
      if NamesEarlierTry(config, n, name) && !NamesEarlierTry(config, n - 1, name) {
        assert config.tries[n - 1].name == name;
      }
    }
  }

  /** An accepted configuration has checked every reference against the names known before its block. */
  lemma {:induction false} ReferencesChecked(config: Config, n: nat, i: nat)
    requires i < n <= |config.tries| && Known(config, n).Ok?
    ensures Known(config, i).Ok? && Check(config.tries[i], Known(config, i).value).None?
  {
    if i < n - 1 {
      ReferencesChecked(config, n - 1, i);
    }
  }

  /** In an accepted configuration a reference of a try block fails at run time exactly when no script
      declares it, and then the check was satisfied by the invented name of an unnamed script or by the name
      of an earlier try block. */
  lemma ReferenceFailsExactlyWhen(config: Config, names: seq<string>, i: nat, r: string)
    requires SelectSpec(config, names).Ok? && i < |config.tries| && IsReference(config.tries[i], r)
    ensures r !in RuntimeScripts(config.scripts, |config.scripts|) <==>
              !Declared(config, r) && (Invented(config, r) || NamesEarlierTry(config, i, r))
  {
    ReferencesChecked(config, |config.tries|, i);
    KnownNames(config, i, r);
    ScriptNames(config.scripts, |config.scripts|, r);
    if r in ScriptsByName(config.scripts, |config.scripts|) {
      var k :| 0 <= k < |config.scripts| && WithName(config.scripts[k], k).name == r;
      assert config.scripts[k].name == "" ==> InventedName(k) == r;
    }
  }

  /** Every script has a name of its own, and no reference is the name of a try block. */
  predicate Disciplined(config: Config) {
    && (forall i :: 0 <= i < |config.scripts| ==> config.scripts[i].name != "")
    && (forall i, j :: 0 <= i < |config.tries| && 0 <= j < |config.tries| ==>
          !IsReference(config.tries[i], config.tries[j].name))
  }

  lemma {:induction false} SameScripts(scripts: seq<NamedScript>, n: nat)
    requires n <= |scripts| && forall i :: 0 <= i < |scripts| ==> scripts[i].name != ""
    ensures RuntimeScripts(scripts, n) == ScriptsByName(scripts, n)
  {
    if n > 0 { SameScripts(scripts, n - 1); }
  }

  /** In a disciplined configuration that is accepted, every reference of every try block resolves at run
      time, to the very script that the check saw, the last one where names repeat. */
  lemma ReferencesResolve(config: Config, names: seq<string>, i: nat, r: string)
    requires Disciplined(config) && SelectSpec(config, names).Ok?
    requires i < |config.tries| && IsReference(config.tries[i], r)
    ensures var atRun := RuntimeScripts(config.scripts, |config.scripts|);
            var checked := Known(config, |config.tries|).value;
            r in atRun && r in checked && atRun[r] == checked[r]
    ensures exists k :: 0 <= k < |config.scripts| && config.scripts[k] == RuntimeScripts(config.scripts, |config.scripts|)[r]
              && config.scripts[k].name == r && forall m :: k < m < |config.scripts| ==> config.scripts[m].name != r
  {
    ReferencesChecked(config, |config.tries|, i);
    KnownNames(config, i, r);
    KnownNames(config, |config.tries|, r);
    SameScripts(config.scripts, |config.scripts|);
    LastWins(config.scripts, |config.scripts|, r);
  }

  lemma {:induction false} LastWins(scripts: seq<NamedScript>, n: nat, name: string)
    requires n <= |scripts| && name in RuntimeScripts(scripts, n)
    ensures exists k :: 0 <= k < n && scripts[k] == RuntimeScripts(scripts, n)[name] && scripts[k].name == name
              && forall m :: k < m < n ==> scripts[m].name != name
  {
    if n > 0 {
      if scripts[n - 1].name != name || name == "" {
        LastWins(scripts, n - 1, name);
        var k :| 0 <= k < n - 1 && scripts[k] == RuntimeScripts(scripts, n - 1)[name] && scripts[k].name == name
                 && forall m :: k < m < n - 1 ==> scripts[m].name != name;
        ScriptNames(scripts, n, name);
        assert scripts[k] == RuntimeScripts(scripts, n)[name];
        assert forall m :: k < m < n ==> scripts[m].name != name;
      } else {
        assert scripts[n - 1] == RuntimeScripts(scripts, n)[name];
      }
    }
  }

  /** Hence no try command built from such a configuration fails for want of a script. */
  lemma TryNeverLacksScript(config: Config, names: seq<string>, i: nat, lib: Patterns.Libs, s: Port)
    requires Disciplined(config) && SelectSpec(config, names).Ok? && i < |config.tries|
    ensures var o := Step(lib, Try(config.tries[i], RuntimeScripts(config.scripts, |config.scripts|)), s).outcome;
            o.Failed? ==> !o.error.NoScript? && !o.error.NoExcept?
  {
    var block, scripts := config.tries[i], RuntimeScripts(config.scripts, |config.scripts|);
    ReferencesResolve(config, names, i, block.script);
    if block.except != "" {
      ReferencesResolve(config, names, i, block.except);
    }
  }

  /** Without that discipline the check accepts blocks that cannot run: here the only script is unnamed, and
      the block refers to it by its invented name. */
  lemma AcceptedButUnresolved(content: string)
    ensures var block := TryBlock("t", InventedName(0), "", false);
            var config := Config([NamedScript("", content)], [block]);
            SelectSpec(config, ["t"]).Ok? && block.script !in RuntimeScripts(config.scripts, |config.scripts|)
  {
    var block := TryBlock("t", InventedName(0), "", false);
    var config := Config([NamedScript("", content)], [block]);
    var m := ScriptsByName(config.scripts, 1);
    assert ScriptsByName(config.scripts, 0) == map[];
    assert block.script in m;
    assert Known(config, 0) == Ok(m);
    assert Known(config, 1) == Ok(m["t" := Virtual(block)]);
    assert "t" in m["t" := Virtual(block)];
    assert ["t"][..0] == [];
    assert Pick(m["t" := Virtual(block)], []).Ok?;
  }
}
