/**
 * The table-driven finite state machine that runs a built DFA: a current
 * state (1 after construction and after `reset`), the state before the last
 * input, and two tables it only reads.  A table lookup with a negative
 * index counts from the end, and one with an index out of range raises
 * `IndexError`, which `None` stands for here.
 */
module Fsa {
  import opened Wrappers
  import opened RegularExpression
  import opened DfaModel

  /** `Reader.EOF`, the symbol a reader hands out past the end of its text. */
  const EOF: int := -1

  /** The list lookup `s[k]`: `None` when `k` is out of range, negative `k` counting from the end. */
  function PyIndex<T>(s: seq<T>, k: int): (r: Option<T>)
    ensures r.Some? <==> -|s| <= k < |s|
    ensures 0 <= k < |s| ==> r == Some(s[k])
    ensures -|s| <= k < 0 ==> r == Some(s[|s| + k])
  {
    if 0 <= k < |s| then Some(s[k])
    else if -|s| <= k < 0 then Some(s[|s| + k])
    else None
  }

  /** `table[state][symbol]`, `None` when either lookup raises `IndexError`. */
  function Cell(table: seq<seq<int>>, state: int, symbol: int): Option<int> {
    match PyIndex(table, state)
    case None => None
    case Some(row) => PyIndex(row, symbol)
  }

  /** The state `input(symbol)` moves `state` to, `None` when one of its two lookups raises. */
  function Transit(table: seq<seq<int>>, accept: seq<int>, state: int, symbol: int): Option<int> {
    if PyIndex(accept, state).None? then None else Cell(table, state, symbol)
  }

  class FiniteStateMachine {
    const transitionTable: seq<seq<int>>
    const acceptTable: seq<int>
    var currentState: int
    /** `None` until the first input after construction or `reset`. */
    var lastState: Option<int>

    /** `FiniteStateMachine(transition_table, accept_table)`: starts in state 1. */
    constructor(transitionTable: seq<seq<int>>, acceptTable: seq<int>)
      ensures this.transitionTable == transitionTable && this.acceptTable == acceptTable
      ensures currentState == 1 && lastState == None
    {
      this.transitionTable := transitionTable;
      this.acceptTable := acceptTable;
      currentState := 1;
      lastState := None;
    }

    /**
     * `input(symbol)`: moves to the table cell of the current state and
     * `symbol`, remembers the state it left and returns that state's accept
     * entry.  When a lookup raises (`r == None`), nothing has changed yet.
     */
    method Input(symbol: int) returns (r: Option<int>)
      modifies this
      ensures var next := Transit(transitionTable, acceptTable, old(currentState), symbol);
        if next.Some? then
          && r == PyIndex(acceptTable, old(currentState)) && r.Some?
          && currentState == next.value && lastState == Some(old(currentState))
        else
          r.None? && currentState == old(currentState) && lastState == old(lastState)
    {
      var row := PyIndex(transitionTable, currentState);
      if row.None? {
        return None;
      }
      var now := PyIndex(row.value, symbol);
      if now.None? {
        return None;
      }
      r := PyIndex(acceptTable, currentState);
      if r.None? {
        return None;
      }
      lastState := Some(currentState);
      currentState := now.value;
    }

    /**
     * The end of the input as `token_stream` evidently means it to act (its
     * branch for `EOF` returns right after the machine stops): the machine
     * stops, remembering the state it leaves, and returns that state's
     * accept entry.  When that lookup raises (`r == None`), nothing changes.
     */
    method Finish() returns (r: Option<int>)
      modifies this
      ensures r == PyIndex(acceptTable, old(currentState))
      ensures r.Some? ==> currentState == 0 && lastState == Some(old(currentState))
      ensures r.None? ==> currentState == old(currentState) && lastState == old(lastState)
    {
      r := PyIndex(acceptTable, currentState);
      if r.Some? {
        lastState := Some(currentState);
        currentState := 0;
      }
    }

    /** `stop()`: the machine is in the dead state 0. */
    predicate Stop()
      reads this
    {
      currentState == 0
    }

    /** `reset()`: back to state 1, no state left yet. */
    method Reset()
      modifies this
      ensures currentState == 1 && lastState == None
    {
      currentState := 1;
      lastState := None;
    }
  }

  /**
   * The tables of a built DFA, read as `input` reads them: a symbol below
   * the width moves to the `Next` state, `EOF` (index -1) reads the last
   * column, that of the largest symbol, and every other symbol raises.
   */
  lemma {:induction false} TableCells(ds: seq<DState>, width: nat, i: nat, c: int)
    requires EdgesFit(ds, width) && i <= |ds| && width > 0 && c >= EOF
    ensures 0 <= c < width ==> Cell(Table(ds, width), i, c) == Some(Next(ds, i, c))
    ensures c == EOF ==> Cell(Table(ds, width), i, c) == Some(Next(ds, i, width - 1))
    ensures c >= width ==> Cell(Table(ds, width), i, c).None?
  {
    TableMeaning(ds, width);
  }

  /**
   * Once stopped, a machine over a built DFA's tables stays stopped: row 0
   * sends every symbol, `EOF` included, back to 0.
   */
  lemma {:induction false} DeadRow(ds: seq<DState>, width: nat, c: int)
    requires EdgesFit(ds, width) && width > 0 && EOF <= c < width
    ensures Transit(Table(ds, width), Accepts(ds), 0, c) == Some(0)
  {
    TableCells(ds, width, 0, c);
  }
}
