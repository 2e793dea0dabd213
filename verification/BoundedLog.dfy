/** The dashboard's MQTT log: the newest entries first, cut to a configured size. */
module BoundedLog {

  datatype Entry = Entry(time: string, topic: string, payload: string)

  const DEFAULT_SIZE := 20

  function Capacity(size: int): nat {
    if size <= 0 then DEFAULT_SIZE else size
  }

  /** Put in front, then trim. */
  function Push(log: seq<Entry>, entry: Entry, size: int): seq<Entry> {
    var longer := [entry] + log;
    if |longer| > Capacity(size) then longer[..Capacity(size)] else longer
  }

  /** The last min(n, cap) entries of a history of n, the newest first. */
  function Newest(history: seq<Entry>, cap: nat): seq<Entry> {
    if history == [] || cap == 0 then []
    else [history[|history| - 1]] + Newest(history[..|history| - 1], cap - 1)
  }

  lemma {:induction false} NewestLength(history: seq<Entry>, cap: nat)
    ensures |Newest(history, cap)| == if |history| < cap then |history| else cap
  {
    if history != [] && cap > 0 {
      NewestLength(history[..|history| - 1], cap - 1);
    }
  }

  lemma {:induction false} NewestAt(history: seq<Entry>, cap: nat, i: nat)
    requires i < |Newest(history, cap)|
    ensures i < |history| && Newest(history, cap)[i] == history[|history| - 1 - i]
  {
    NewestLength(history, cap);
    if i > 0 {
      NewestAt(history[..|history| - 1], cap - 1, i - 1);
    }
  }

  /** The shape of the newest entries, and that nothing else has it. */
  lemma NewestShape(history: seq<Entry>, cap: nat)
    ensures |Newest(history, cap)| == if |history| < cap then |history| else cap
    ensures forall i :: 0 <= i < |Newest(history, cap)| ==> Newest(history, cap)[i] == history[|history| - 1 - i]
  {
    NewestLength(history, cap);
    forall i | 0 <= i < |Newest(history, cap)| ensures Newest(history, cap)[i] == history[|history| - 1 - i] {
      NewestAt(history, cap, i);
    }
  }

  lemma PushRefines(history: seq<Entry>, entry: Entry, size: int)
    ensures Push(Newest(history, Capacity(size)), entry, size) == Newest(history + [entry], Capacity(size))
  {
    NewestShape(history, Capacity(size));
    NewestShape(history + [entry], Capacity(size));
  }

  function PushAll(log: seq<Entry>, entries: seq<Entry>, size: int): seq<Entry> {
    if entries == [] then log else Push(PushAll(log, entries[..|entries| - 1], size), entries[|entries| - 1], size)
  }

  /** The last entries of a history, the newest first: at most size of them, or 20 if size is not positive. */
  ghost predicate NewestFirst(log: seq<Entry>, history: seq<Entry>, size: int) {
    var cap := if size <= 0 then 20 else size;
    && |log| == (if |history| < cap then |history| else cap)
    && forall i :: 0 <= i < |log| ==> log[i] == history[|history| - 1 - i]
  }

  /** After any sequence of entries the log is the newest part of all of them, for any configured size. */
  lemma {:induction false} LogIsNewestOfHistory(entries: seq<Entry>, size: int)
    ensures PushAll([], entries, size) == Newest(entries, Capacity(size))
    ensures NewestFirst(PushAll([], entries, size), entries, size)
  {
    NewestShape(entries, Capacity(size));
    if entries != [] {
      LogIsNewestOfHistory(entries[..|entries| - 1], size);
      PushRefines(entries[..|entries| - 1], entries[|entries| - 1], size);
      assert entries == entries[..|entries| - 1] + [entries[|entries| - 1]];
    }
  }
}
