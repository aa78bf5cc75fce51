/**
 * The table command generators addTable$ and selectTable$. A generator is a
 * suspended computation: each resumption either yields one command and
 * suspends again, or finishes. Driving it to completion gives the ordered
 * command sequence that is dispatched. The command constructors themselves
 * (selectEndTable, selectEndMemo, addTable, selectTable) are kept abstract:
 * a command records which constructor built it and with which arguments.
 */
module TableCommandGen {
  import opened Wrappers
  import opened EngineStore

  datatype Command =
    | SelectEndTable
    | SelectEndMemo
    | AddTable(store: Store)
    | SelectTable(store: Store, ctrlKey: bool, tableId: string)

  /** A generator suspended before the yield numbered `resumeAt` of its body. */
  datatype Generator =
    | AddTableRun(store: Store, resumeAt: nat)
    | SelectTableRun(store: Store, ctrlKey: bool, tableId: string, resumeAt: nat)

  /** What one call of `next()` produces: the yielded command and the generator after it. */
  datatype Yield = Yield(command: Command, rest: Generator)

  /** An upper bound on the yields a generator still has to give. */
  function Pending(g: Generator): nat {
    match g
    case AddTableRun(_, at) => if at < 3 then 3 - at else 0
    case SelectTableRun(_, _, _, at) => if at < 2 then 2 - at else 0
  }

  /** Resume the generator body up to its next `yield`, or to its end. */
  function Resume(g: Generator): (y: Option<Yield>)
    ensures y.Some? ==> Pending(y.value.rest) < Pending(g)
  {
    match g
    case AddTableRun(store, at) =>
      if at == 0 then Some(Yield(SelectEndTable, AddTableRun(store, 1)))
      else if at == 1 then Some(Yield(SelectEndMemo, AddTableRun(store, 2)))
      else if at == 2 then Some(Yield(AddTable(store), AddTableRun(store, 3)))
      else None
    case SelectTableRun(store, ctrlKey, tableId, at) =>
      if at == 0 then Some(Yield(SelectTable(store, ctrlKey, tableId), SelectTableRun(store, ctrlKey, tableId, 1)))
      else if at == 1 && !ctrlKey then Some(Yield(SelectEndMemo, SelectTableRun(store, ctrlKey, tableId, 2)))
      else None
  }

  /** Every command the generator yields from here on, in yield order. */
  function Drain(g: Generator): (cmds: seq<Command>)
    ensures |cmds| <= Pending(g)
    decreases Pending(g)
  {
    match Resume(g)
    case None => []
    case Some(y) => [y.command] + Drain(y.rest)
  }

  /** The commands of the first `n` resumptions, as a driver that stops early sees them. */
  function Take(g: Generator, n: nat): seq<Command>
    decreases n
  {
    if n == 0 then []
    else match Resume(g)
      case None => []
      case Some(y) => [y.command] + Take(y.rest, n - 1)
  }

  /** Stopping a generator early has seen a prefix of what draining it would dispatch. */
  lemma {:induction false} TakeIsPrefix(g: Generator, n: nat)
    ensures Take(g, n) <= Drain(g)
    decreases n
  {
    if n > 0 {
      match Resume(g) {
        case None =>
        case Some(y) => TakeIsPrefix(y.rest, n - 1);
      }
    }
  }

  /**
   * addTable$: the table selection is cleared, then the memo selection, then
   * the table is added; exactly these three, in this order.
   */
  function AddTableCommands(store: Store): (cmds: seq<Command>)
    ensures |cmds| == 3
    ensures cmds[0] == SelectEndTable && cmds[1] == SelectEndMemo && cmds[2] == AddTable(store)
  {
    var g := AddTableRun(store, 0);
    assert Drain(AddTableRun(store, 3)) == [];
    assert Drain(AddTableRun(store, 2)) == [AddTable(store)];
    assert Drain(AddTableRun(store, 1)) == [SelectEndMemo, AddTable(store)];
    Drain(g)
  }

  /**
   * selectTable$: the table is selected first, with the arguments as given; only
   * a selection without the ctrl key then clears the memo selection.
   */
  function SelectTableCommands(store: Store, ctrlKey: bool, tableId: string): (cmds: seq<Command>)
    ensures |cmds| == if ctrlKey then 1 else 2
    ensures cmds[0] == SelectTable(store, ctrlKey, tableId)
    ensures !ctrlKey ==> cmds[1] == SelectEndMemo
  {
    var g := SelectTableRun(store, ctrlKey, tableId, 0);
    assert Drain(SelectTableRun(store, ctrlKey, tableId, 2)) == [];
    assert Drain(SelectTableRun(store, ctrlKey, tableId, 1)) == if ctrlKey then [] else [SelectEndMemo];
    Drain(g)
  }
}
