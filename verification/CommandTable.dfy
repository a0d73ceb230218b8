/** The server's table of commands: positions are the command ids, and free positions are reused. */
module CommandTable {
  import opened Wrappers

  /** The least free position, or the length of the table. */
  function FirstFree<T>(commands: seq<Option<T>>): (id: nat)
    ensures id <= |commands|
    ensures forall k | 0 <= k < id :: commands[k].Some?
    ensures id < |commands| ==> commands[id].None?
  {
    if commands == [] || commands[0].None? then 0 else 1 + FirstFree(commands[1..])
  }

  function Place<T>(commands: seq<Option<T>>, unit: T): seq<Option<T>> {
    var id := FirstFree(commands);
    if id < |commands| then commands[id := Some(unit)] else commands + [Some(unit)]
  }

  function Clear<T>(commands: seq<Option<T>>, id: nat): seq<Option<T>> {
    if id < |commands| then commands[id := None] else commands
  }

  class Table<T> {
    var commands: seq<Option<T>>

    constructor ()
      ensures commands == []
    {
      commands := [];
    }

    /** Stores the command and answers its id. */
    method Add(unit: T) returns (id: nat)
      modifies this
      ensures id == FirstFree(old(commands))
      ensures commands == Place(old(commands), unit)
      ensures id < |commands| && commands[id] == Some(unit)
    {
      id := 0;
      while id < |commands|
        invariant id <= |commands| && commands == old(commands)
        invariant forall k | 0 <= k < id :: commands[k].Some?
      {
        if commands[id].None? {
          FirstFreeUnique(commands, id);
          commands := commands[id := Some(unit)];
          return;
        }
        id := id + 1;
      }
      FirstFreeUnique(commands, id);
      commands := commands + [Some(unit)];
    }

    /** The last step of `StopJob`, after its workers have parked. */
    method Reset(id: nat)
      modifies this
      ensures commands == Clear(old(commands), id)
    {
      if id < |commands| {
        commands := commands[id := None];
      }
    }
  }

  lemma FirstFreeUnique<T>(commands: seq<Option<T>>, id: nat)
    requires id <= |commands|
    requires forall k | 0 <= k < id :: commands[k].Some?
    requires id < |commands| ==> commands[id].None?
    ensures FirstFree(commands) == id
  {
  }

  // ---------- Histories ----------

  datatype TableOp<T> = Insert(unit: T) | Delete(id: nat)

  function Apply<T>(commands: seq<Option<T>>, op: TableOp<T>): seq<Option<T>> {
    match op case Insert(unit) => Place(commands, unit) case Delete(id) => Clear(commands, id)
  }

  /** The table after a history, oldest operation first. */
  function After<T>(ops: seq<TableOp<T>>): seq<Option<T>> {
    if ops == [] then [] else Apply(After(ops[..|ops| - 1]), ops[|ops| - 1])
  }

  function Live<T>(commands: seq<Option<T>>): nat {
    if commands == [] then 0
    else Live(commands[..|commands| - 1]) + if commands[|commands| - 1].Some? then 1 else 0
  }

  /** The greatest number of commands that were live at once. */
  function Peak<T>(ops: seq<TableOp<T>>): nat {
    if ops == [] then 0
    else
      var before, now := Peak(ops[..|ops| - 1]), Live(After(ops));
      if now > before then now else before
  }

  lemma {:induction false} LiveUpdate<T>(commands: seq<Option<T>>, id: nat, entry: Option<T>)
    requires id < |commands|
    ensures Live(commands[id := entry]) + (if commands[id].Some? then 1 else 0) ==
            Live(commands) + if entry.Some? then 1 else 0
  {
    var last := |commands| - 1;
    if id == last {
      assert commands[id := entry][..last] == commands[..last];
    } else {
      LiveUpdate(commands[..last], id, entry);
      assert commands[id := entry][..last] == commands[..last][id := entry];
    }
  }

  lemma {:induction false} LiveBound<T>(commands: seq<Option<T>>)
    ensures Live(commands) <= |commands|
    ensures Live(commands) == |commands| <==> forall k | 0 <= k < |commands| :: commands[k].Some?
  {
    if commands != [] {
      LiveBound(commands[..|commands| - 1]);
    }
  }

  lemma PlaceCounts<T>(commands: seq<Option<T>>, unit: T)
    ensures Live(Place(commands, unit)) == Live(commands) + 1
    ensures |Place(commands, unit)| == if Live(commands) < |commands| then |commands| else |commands| + 1
  {
    hide Live;
    var id := FirstFree(commands);
    LiveBound(commands);
    if id < |commands| {
      LiveUpdate(commands, id, Some(unit));
    } else {
      LiveAppend(commands, unit);
    }
  }

  lemma LiveAppend<T>(commands: seq<Option<T>>, unit: T)
    ensures Live(commands + [Some(unit)]) == Live(commands) + 1
  {
    assert (commands + [Some(unit)])[..|commands|] == commands;
  }

  /** The table is never longer than it once had to be. */
  lemma {:induction false} LengthIsPeak<T>(ops: seq<TableOp<T>>)
    ensures |After(ops)| == Peak(ops)
  {
    hide Live, Place, Clear;
    if ops != [] {
      var before := After(ops[..|ops| - 1]);
      LengthIsPeak(ops[..|ops| - 1]);
      LiveBound(before);
      match ops[|ops| - 1]
      case Insert(unit) =>
        PlaceCounts(before, unit);
      case Delete(id) =>
        ClearCounts(before, id);
    }
  }

  lemma ClearCounts<T>(commands: seq<Option<T>>, id: nat)
    ensures |Clear(commands, id)| == |commands|
    ensures Live(Clear(commands, id)) <= Live(commands)
  {
    hide Live;
    if id < |commands| {
      LiveUpdate(commands, id, None);
    }
  }

  /** A live command keeps its id and contents under every operation but its own deletion, and a
      new command never takes a live id. */
  lemma {:induction false} LiveCommandsStay<T>(before: seq<TableOp<T>>, after: seq<TableOp<T>>, id: nat)
    requires id < |After(before)| && After(before)[id].Some?
    requires Delete(id) !in after
    ensures id < |After(before + after)| && After(before + after)[id] == After(before)[id]
    decreases |after|
  {
    hide FirstFree;
    if after == [] {
      assert before + after == before;
    } else {
      var init, op := after[..|after| - 1], after[|after| - 1];
      assert (before + after)[..|before + after| - 1] == before + init;
      LiveCommandsStay(before, init, id);
      var commands := After(before + init);
      FreeIsFree(commands);
      assert op != Delete(id);
    }
  }

  lemma FreeIsFree<T>(commands: seq<Option<T>>)
    ensures FirstFree(commands) < |commands| ==> commands[FirstFree(commands)].None?
  {
  }
}
