/** The command runner's output: the tail of everything that commands have printed. */
module OutputTail {

  const MAX_OUTPUT := 10240

  const LATEST := "latest"
  const NOTHING_YET := "No commands executed yet."

  /** The last min(|text|, MAX_OUTPUT) characters. */
  function Tail(text: string): string {
    if |text| > MAX_OUTPUT then text[|text| - MAX_OUTPUT..] else text
  }

  /** part is the last n characters of text, or all of them if there are fewer. */
  predicate LastOf(text: string, part: string, n: nat) {
    |part| == (if |text| < n then |text| else n) && part == text[|text| - |part|..]
  }

  function All(texts: seq<string>): string {
    if texts == [] then "" else All(texts[..|texts| - 1]) + texts[|texts| - 1]
  }

  /** Cutting the old text first does not change the new tail. */
  lemma TailOfTail(whole: string, text: string)
    ensures Tail(Tail(whole) + text) == Tail(whole + text)
  {
    var kept := Tail(whole) + text;
    assert kept == (whole + text)[|whole| - |Tail(whole)|..];
  }

  lemma AllSnoc(texts: seq<string>, text: string)
    ensures All(texts + [text]) == All(texts) + text
  {
    assert (texts + [text])[..|texts|] == texts;
  }

  lemma TailIsLast(text: string)
    ensures LastOf(text, Tail(text), 10240)
  {
  }

  /** Output kept so far, or nothing, with more text: the tail of it is the tail of everything. */
  lemma NextTail(appended: seq<string>, kept: string, text: string, output: string)
    requires kept == (if appended == [] then "" else Tail(All(appended))) && output == kept + text
    ensures All(appended + [text]) == All(appended) + text
    ensures Tail(output) == Tail(All(appended + [text])) && LastOf(All(appended + [text]), Tail(output), 10240)
  {
    AllSnoc(appended, text);
    TailOfTail(All(appended), text);
    TailIsLast(All(appended + [text]));
  }

  class Outputs {
    var commandOutputs: map<string, string>
    ghost var appended: seq<string>

    /** What is kept is the tail of all text appended so far. */
    ghost predicate Valid()
      reads this
    {
      if appended == [] then LATEST !in commandOutputs
      else LATEST in commandOutputs && commandOutputs[LATEST] == Tail(All(appended))
    }

    constructor ()
      ensures Valid() && appended == []
    {
      commandOutputs, appended := map[], [];
    }

    method AppendOutput(text: string)
      requires Valid()
      modifies this
      ensures Valid() && appended == old(appended) + [text]
      ensures commandOutputs - {"latest"} == old(commandOutputs) - {"latest"}
      ensures All(appended) == All(old(appended)) + text
      ensures "latest" in commandOutputs && LastOf(All(appended), commandOutputs["latest"], 10240)
    {
      var output := if LATEST in commandOutputs then commandOutputs[LATEST] + text else text;
      NextTail(appended, if LATEST in commandOutputs then commandOutputs[LATEST] else "", text, output);
      commandOutputs := commandOutputs[LATEST := output];
      if |output| > MAX_OUTPUT {
        commandOutputs := commandOutputs[LATEST := output[|output| - MAX_OUTPUT..]];
      }
      assert commandOutputs[LATEST] == Tail(output);
      appended := appended + [text];
    }

    method GetLatestOutput() returns (output: string)
      requires Valid()
      ensures appended == [] ==> output == "No commands executed yet."
      ensures appended != [] ==> LastOf(All(appended), output, 10240)
    {
      TailIsLast(All(appended));
      if LATEST in commandOutputs {
        return commandOutputs[LATEST];
      }
      return NOTHING_YET;
    }
  }
}
