/**
 * The subset construction of `DFAModel`: epsilon closures memoised per NFA
 * state, moves, a worklist of DFA states deduplicated by signature, and the
 * dense transition and accept tables whose row 0 is the dead state.  The
 * builder reads a frozen NFA graph: nothing in the construction changes the
 * NFA.
 */
module DfaModel {
  import opened Wrappers
  import opened RegularExpression
  import opened NfaModel

  // ---------------------------------------------------------------------------
  // Sets of NFA states
  // ---------------------------------------------------------------------------

  /** The addresses of the states of `g`. */
  ghost function Addresses(g: Graph): set<nat> {
    Below(|g|)
  }

  /** The numbers below `n`. */
  ghost function Below(n: nat): (r: set<nat>)
    ensures forall i: nat :: i in r <==> i < n
  {
    if n == 0 then {}
    else
      var r := Below(n - 1) + {n - 1};
      assert forall i: nat :: i < n ==> i in r by {
        forall i: nat | i < n ensures i in r {
          if i < n - 1 { assert i in Below(n - 1); }
        }
      }
      r
  }

  /** Every member of `T` is a state of `g`. */
  ghost predicate InGraph(g: Graph, T: set<nat>) {
    forall s :: s in T ==> s < |g|
  }

  lemma {:induction false} SubsetCard<T>(A: set<T>, B: set<T>)
    requires A <= B
    ensures |A| <= |B|
    decreases |B|
  {
    if A != {} {
      var x :| x in A;
      SubsetCard(A - {x}, B - {x});
    }
  }

  /** Growing `S` inside `A` shrinks what is left of `A`. */
  lemma {:induction false} StrictlyCloser<T>(A: set<T>, S: set<T>, S': set<T>)
    requires S < S' <= A
    ensures |A - S'| < |A - S|
  {
    assert exists x :: x in S' && x !in S;
    var x :| x in S' && x !in S;
    SubsetCard(A - S', (A - S) - {x});
  }

  /** Adding a state of `g` that `S` lacks brings `S` closer to all of `g`. */
  lemma {:induction false} Closer(g: Graph, S: set<nat>, S': set<nat>, x: nat)
    requires InGraph(g, S') && S <= S' && x in S' && x !in S
    ensures |Addresses(g) - S'| < |Addresses(g) - S|
  {
    StrictlyCloser(Addresses(g), S, S');
  }

  // ---------------------------------------------------------------------------
  // Epsilon closure
  // ---------------------------------------------------------------------------

  /** No epsilon edge leaves `S`. */
  ghost predicate EpsilonClosed(g: Graph, S: set<nat>) {
    forall s, e :: s in S && s < |g| && e in g[s].outEdges && e.symbol == None ==> e.target in S
  }

  /** `p` lists the states after `s` of a run of epsilon edges of `g` from `s` to `t`. */
  ghost predicate EpsilonWalk(g: Graph, s: nat, p: seq<nat>, t: nat)
    decreases |p|
  {
    if p == [] then s == t
    else s < |g| && Edge(None, p[0]) in g[s].outEdges && EpsilonWalk(g, p[0], p[1..], t)
  }

  /** Epsilon edges lead from some state of `S` to `t`. */
  ghost predicate EpsilonReach(g: Graph, S: set<nat>, t: nat) {
    exists s, p :: s in S && EpsilonWalk(g, s, p, t)
  }

  /** The epsilon closure of `S`: every state of `g` that epsilon edges lead to from `S`, `S` included. */
  ghost function Closure(g: Graph, S: set<nat>): (c: set<nat>)
    ensures InGraph(g, c)
    ensures InGraph(g, S) ==> S <= c
  {
    assert forall s :: s in S && s < |g| ==> EpsilonReach(g, S, s) by {
      forall s | s in S && s < |g| ensures EpsilonReach(g, S, s) {
        assert EpsilonWalk(g, s, [], s);
      }
    }
    set t: nat | t < |g| && EpsilonReach(g, S, t)
  }

  /** An epsilon walk extends by one more epsilon edge. */
  lemma {:induction false} WalkExtend(g: Graph, s: nat, p: seq<nat>, t: nat, u: nat)
    requires EpsilonWalk(g, s, p, t) && t < |g| && Edge(None, u) in g[t].outEdges
    ensures EpsilonWalk(g, s, p + [u], u)
    decreases |p|
  {
    if p == [] {
      assert EpsilonWalk(g, u, [], u);
      assert p + [u] == [u];
    } else {
      WalkExtend(g, p[0], p[1..], t, u);
      assert (p + [u])[1..] == p[1..] + [u];
    }
  }

  /** The closure is closed under epsilon edges. */
  lemma {:induction false} ClosureClosed(g: Graph, S: set<nat>)
    requires WellFormedGraph(g)
    ensures EpsilonClosed(g, Closure(g, S))
  {
    var C := Closure(g, S);
    forall s, e | s in C && s < |g| && e in g[s].outEdges && e.symbol == None
      ensures e.target in C
    {
      var x, p :| x in S && EpsilonWalk(g, x, p, s);
      assert e == Edge(None, e.target);
      WalkExtend(g, x, p, s, e.target);
      assert e.target < |g|;
    }
  }

  /** The closure lies inside every epsilon-closed superset of `S`: it is the least one. */
  lemma {:induction false} ClosureLeast(g: Graph, S: set<nat>, C: set<nat>)
    requires S <= C && EpsilonClosed(g, C)
    ensures Closure(g, S) <= C
  {
    forall t | t in Closure(g, S) ensures t in C {
      var x, p :| x in S && EpsilonWalk(g, x, p, t);
      WalkInside(g, C, x, p, t);
    }
  }

  /** An epsilon walk that starts in an epsilon-closed set stays in it. */
  lemma {:induction false} WalkInside(g: Graph, C: set<nat>, s: nat, p: seq<nat>, t: nat)
    requires EpsilonClosed(g, C) && s in C && EpsilonWalk(g, s, p, t)
    ensures t in C
    decreases |p|
  {
    if p != [] {
      assert Edge(None, p[0]) in g[s].outEdges;
      WalkInside(g, C, p[0], p[1..], t);
    }
  }

  /** A set that is already epsilon-closed is its own closure. */
  lemma {:induction false} ClosureOfClosed(g: Graph, S: set<nat>)
    requires InGraph(g, S) && EpsilonClosed(g, S)
    ensures Closure(g, S) == S
  {
    ClosureLeast(g, S, S);
  }

  /** Closing a larger set gives a larger closure. */
  lemma {:induction false} ClosureMono(g: Graph, A: set<nat>, B: set<nat>)
    requires WellFormedGraph(g) && InGraph(g, B) && A <= B
    ensures Closure(g, A) <= Closure(g, B)
  {
    ClosureClosed(g, B);
    ClosureLeast(g, A, Closure(g, B));
  }

  lemma {:induction false} UnionClosed(g: Graph, X: set<nat>, Y: set<nat>)
    requires EpsilonClosed(g, X) && EpsilonClosed(g, Y)
    ensures EpsilonClosed(g, X + Y)
  {
  }

  /** The closure of a union is the union of the closures, which makes a per-state cache sound. */
  lemma {:induction false} ClosureUnion(g: Graph, A: set<nat>, B: set<nat>)
    requires WellFormedGraph(g) && InGraph(g, A) && InGraph(g, B)
    ensures Closure(g, A + B) == Closure(g, A) + Closure(g, B)
  {
    ClosureMono(g, A, A + B);
    ClosureMono(g, B, A + B);
    ClosureClosed(g, A);
    ClosureClosed(g, B);
    UnionClosed(g, Closure(g, A), Closure(g, B));
    ClosureLeast(g, A + B, Closure(g, A) + Closure(g, B));
    SubsetAntisym(Closure(g, A + B), Closure(g, A), Closure(g, B));
  }

  lemma {:induction false} SubsetAntisym(C: set<nat>, X: set<nat>, Y: set<nat>)
    requires C <= X + Y && X <= C && Y <= C
    ensures C == X + Y
  {
  }

  /** Closing twice adds nothing. */
  lemma {:induction false} ClosureIdempotent(g: Graph, S: set<nat>)
    requires WellFormedGraph(g)
    ensures Closure(g, Closure(g, S)) == Closure(g, S)
  {
    ClosureClosed(g, S);
    ClosureOfClosed(g, Closure(g, S));
  }

  // ---------------------------------------------------------------------------
  // Moves, input symbols, signatures, accepting token
  // ---------------------------------------------------------------------------

  /** Some state of `T` has an edge labelled `a` to `t`. */
  ghost predicate MovesTo(g: Graph, T: set<nat>, a: Code, t: nat) {
    exists s :: s in T && s < |g| && Edge(Some(a), t) in g[s].outEdges
  }

  /** `move(T, a)`: the states of `g` that an edge labelled `a` leaving `T` leads to. */
  ghost function Move(g: Graph, T: set<nat>, a: Code): (m: set<nat>)
    ensures InGraph(g, m)
  {
    set t: nat | t < |g| && MovesTo(g, T, a, t)
  }

  /** The input symbols of `T`: the labels of the symbol edges leaving it. */
  ghost function Inputs(g: Graph, T: set<nat>): set<Code> {
    set s, a | s in T && s < |g| && a in Labels(g[s]) :: a
  }

  /** The labels of the symbol edges leaving one NFA state. */
  ghost function Labels(st: NState): set<Code> {
    set e | e in st.outEdges && e.symbol.Some? :: e.symbol.value
  }

  /** Only an input symbol moves anywhere. */
  lemma {:induction false} MoveOnInputs(g: Graph, T: set<nat>, a: Code)
    ensures a !in Inputs(g, T) ==> Move(g, T, a) == {}
  {
    forall t | t in Move(g, T, a) ensures a in Inputs(g, T) {
      var x :| x in T && x < |g| && Edge(Some(a), t) in g[x].outEdges;
      LabelOf(g[x], a, t);
    }
  }

  lemma {:induction false} LabelOf(st: NState, a: Code, t: nat)
    requires Edge(Some(a), t) in st.outEdges
    ensures a in Labels(st)
  {
    var e := Edge(Some(a), t);
    assert e in st.outEdges && e.symbol.Some? && e.symbol.value == a;
  }

  /** `_cal_signature`: the state indices of a set of NFA states. */
  function Signature(g: Graph, T: set<nat>): set<int>
    requires InGraph(g, T)
  {
    set s | s in T :: g[s].stateIndex
  }

  /** Distinct addresses carry distinct state indices. */
  ghost predicate DistinctIndices(g: Graph) {
    forall x, y :: 0 <= x < |g| && 0 <= y < |g| && g[x].stateIndex == g[y].stateIndex ==> x == y
  }

  /**
   * What `DFAModel` needs of its NFA, a well-formed graph whose states carry
   * distinct indices, as the class holds it: the statement itself at depth 0,
   * one definition further away at each further depth (see `Kept`).
   */
  ghost predicate GraphOk(g: Graph, depth: nat)
    decreases depth, g
  {
    if depth > 0 then GraphOk(g, depth - 1) else WellFormedGraph(g) && DistinctIndices(g)
  }

  lemma {:induction false} OpenGraph(g: Graph, depth: nat)
    requires GraphOk(g, depth)
    ensures WellFormedGraph(g) && DistinctIndices(g)
    decreases depth
  {
    if depth > 0 {
      OpenGraph(g, depth - 1);
    }
  }

  lemma {:induction false} CloseGraph(g: Graph, depth: nat)
    requires WellFormedGraph(g) && DistinctIndices(g)
    ensures GraphOk(g, depth)
    decreases depth
  {
    if depth > 0 {
      CloseGraph(g, depth - 1);
    }
  }

  /**
   * With distinct state indices, equal signatures mean equal sets: keying
   * DFA states by signature keys them by their NFA states.
   */
  lemma {:induction false} SignatureInjective(g: Graph, T1: set<nat>, T2: set<nat>)
    requires DistinctIndices(g) && InGraph(g, T1) && InGraph(g, T2)
    ensures Signature(g, T1) == Signature(g, T2) <==> T1 == T2
  {
    if Signature(g, T1) == Signature(g, T2) {
      forall s | s in T1 ensures s in T2 {
        assert g[s].stateIndex in Signature(g, T2);
      }
      forall s | s in T2 ensures s in T1 {
        assert g[s].stateIndex in Signature(g, T1);
      }
    }
  }

  /** The least token index among the accepting states of `T` below address `n`, or -1. */
  function AcceptBelow(g: Graph, T: set<nat>, n: nat): int
    requires n <= |g|
  {
    if n == 0 then -1
    else
      var r := AcceptBelow(g, T, n - 1);
      var k := g[n - 1].tokenIndex;
      if n - 1 !in T || k == -1 then r
      else if r == -1 || k < r then k
      else r
  }

  lemma {:induction false} AcceptBelowMeaning(g: Graph, T: set<nat>, n: nat)
    requires n <= |g|
    ensures var r := AcceptBelow(g, T, n);
      && (r == -1 <==> forall s :: s in T && s < n ==> g[s].tokenIndex == -1)
      && (r != -1 ==> exists s :: s in T && s < n && g[s].tokenIndex == r)
      && forall s :: s in T && s < n && g[s].tokenIndex != -1 ==> r <= g[s].tokenIndex
  {
    if n > 0 {
      AcceptBelowMeaning(g, T, n - 1);
    }
  }

  /**
   * `_get_accept_state`: the least token index among the accepting states
   * of `T` (those whose index is not -1), or -1 when none of them accepts.
   */
  function AcceptIndex(g: Graph, T: set<nat>): int {
    AcceptBelow(g, T, |g|)
  }

  /**
   * The accepting token of a set of NFA states is -1 exactly when none of
   * them accepts, and otherwise the token index of one of them that no
   * other accepting member's index undercuts: the rule listed first wins.
   */
  lemma {:induction false} AcceptIndexMeaning(g: Graph, T: set<nat>)
    ensures var r := AcceptIndex(g, T);
      && (r == -1 <==> forall s :: s in T && s < |g| ==> g[s].tokenIndex == -1)
      && (r != -1 ==> exists s :: s in T && s < |g| && g[s].tokenIndex == r)
      && forall s :: s in T && s < |g| && g[s].tokenIndex != -1 ==> r <= g[s].tokenIndex
  {
    AcceptBelowMeaning(g, T, |g|);
  }

  /** Some member of a non-empty set. */
  ghost function Pick(U: set<nat>): (x: nat)
    requires U != {}
    ensures x in U
  {
    var x :| x in U; x
  }

  /** Every subset of `U`, for bounding the number of distinct sets of NFA states. */
  ghost function Powerset(U: set<nat>): (P: set<set<nat>>)
    ensures forall X :: X in P <==> X <= U
    decreases |U|
  {
    if U == {} then
      PowersetBase(U);
      {U}
    else
      var x := Pick(U);
      var P0 := Powerset(U - {x});
      PowersetStep(U, x, P0);
      P0 + Extended(P0, x)
  }

  /** Every member of `P` with `x` added. */
  ghost function Extended(P: set<set<nat>>, x: nat): set<set<nat>> {
    set X | X in P :: X + {x}
  }

  lemma {:induction false} PowersetBase(U: set<nat>)
    requires U == {}
    ensures forall X :: X in {U} <==> X <= U
  {
    forall X | X <= U ensures X == U {
      assert forall x :: x !in X;
    }
  }

  lemma {:induction false} PowersetStep(U: set<nat>, x: nat, P0: set<set<nat>>)
    requires x in U && forall X :: X in P0 <==> X <= U - {x}
    ensures forall X :: X in P0 + Extended(P0, x) <==> X <= U
  {
    forall X | X in P0 + Extended(P0, x) ensures X <= U {
      if X !in P0 {
        var Y :| Y in P0 && X == Y + {x};
      }
    }
    forall X | X <= U ensures X in P0 + Extended(P0, x) {
      if x in X {
        assert X - {x} in P0;
        assert X == (X - {x}) + {x};
      }
    }
  }

  // ---------------------------------------------------------------------------
  // DFA states and the builder
  // ---------------------------------------------------------------------------

  /** A `DFAEdge`: its input symbol and the index of the DFA state it leads to. */
  datatype DEdge = DEdge(symbol: Code, target: nat)

  /**
   * A `DFAState`: its token index, its state index, its edges in insertion
   * order, its NFA states and their signature.
   */
  datatype DState = DState(tokenIndex: int, stateIndex: nat, outEdges: seq<DEdge>,
                           nfaStates: set<nat>, signature: set<int>)

  /**
   * A `DFAModel` over the NFA `nfa` entered at `nfaInit`.  DFA state `i`
   * (counted from 1) is `dstates[i - 1]`; `states` maps a signature to the
   * index of its DFA state; `initState` is 0 until the model is built.
   */
  class DFAModel {
    const nfa: Graph
    const nfaInit: nat
    var closureCache: map<nat, set<nat>>
    var states: map<set<int>, nat>
    var dstates: seq<DState>
    var initState: nat
    var allSymbols: set<Code>
    var transitionTable: seq<seq<int>>
    var acceptTable: seq<int>
    /** For every DFA state but the first, the state and edge position that first led to it. */
    ghost var parent: seq<nat>
    ghost var via: seq<nat>
    /** The depth at which the methods hold their invariants (see `Kept`). */
    ghost const fold: nat

    /** The NFA is well formed and every cached closure is the closure of its state. */
    ghost predicate Valid()
      reads this`closureCache
    {
      && nfaInit < |nfa| && fold > 2 && GraphOk(nfa, fold)
      && forall s :: s in closureCache ==> s < |nfa| && closureCache[s] == Closure(nfa, {s})
    }

    /** `DFAModel(nfa_model)`: nothing built, nothing cached. */
    constructor(nfa: Graph, nfaInit: nat)
      requires WellFormedGraph(nfa) && nfaInit < |nfa| && DistinctIndices(nfa)
      ensures Valid() && this.nfa == nfa && this.nfaInit == nfaInit
      ensures closureCache == map[] && states == map[] && dstates == [] && initState == 0
      ensures allSymbols == {} && transitionTable == [] && acceptTable == []
    {
      this.nfa := nfa;
      this.nfaInit := nfaInit;
      closureCache := map[];
      states := map[];
      dstates := [];
      initState := 0;
      allSymbols := {};
      transitionTable := [];
      acceptTable := [];
      parent, via := [], [];
      fold := 3;
      new;
      CloseGraph(nfa, fold);
    }

    /**
     * The recursive `helper` of `_get_closure`: adds `state` and, depth
     * first, everything its epsilon edges lead to, unless `state` is
     * already in `res`.
     */
    method ClosureHelper(state: nat, res: set<nat>) returns (res': set<nat>)
      requires Valid() && state < |nfa| && InGraph(nfa, res)
      ensures InGraph(nfa, res') && res + {state} <= res' <= res + Closure(nfa, {state})
      ensures EdgesInto(nfa, res' - res, res')
      decreases |Addresses(nfa) - res|
    {
      if state in res {
        return res;
      }
      OpenGraph(nfa, fold);
      res' := res + {state};
      var next := nfa[state].CanEpsilonMoveStates();
      ghost var C := Closure(nfa, {state});
      ClosureClosed(nfa, {state});
      var k := 0;
      while k < |next|
        invariant 0 <= k <= |next|
        invariant InGraph(nfa, res') && res + {state} <= res' <= res + C
        invariant forall j :: 0 <= j < k ==> next[j] in res'
        invariant EdgesInto(nfa, res' - res - {state}, res')
      {
        assert Edge(None, next[k]) in nfa[state].outEdges;
        ClosureLeast(nfa, {next[k]}, C);
        Closer(nfa, res, res', state);
        ghost var before := res';
        res' := ClosureHelper(next[k], res');
        HelperStep(nfa, res, state, C, before, res', Closure(nfa, {next[k]}), next, k);
        k := k + 1;
      }
      HelperDone(nfa, res, state, next, res');
    }

    /**
     * `_get_closure(*states)`: the union of the closures of the given
     * states, each computed once and then served from the cache.
     */
    method GetClosure(T: set<nat>) returns (c: set<nat>)
      requires Valid() && InGraph(nfa, T)
      modifies this`closureCache
      ensures Valid() && c == Closure(nfa, T)
    {
      OpenGraph(nfa, fold);
      c := {};
      var rest := T;
      ghost var done: set<nat> := {};
      ClosureOfClosed(nfa, {});
      while rest != {}
        invariant Valid() && rest + done == T
        invariant c == Closure(nfa, done)
        decreases rest
      {
        var s :| s in rest;
        var cs := CachedClosure(s);
        ClosureUnion(nfa, done, {s});
        c := c + cs;
        done := done + {s};
        rest := rest - {s};
      }
    }

    /** One state of `_get_closure`: its closure, from the cache or computed and then cached. */
    method CachedClosure(s: nat) returns (cs: set<nat>)
      requires Valid() && s < |nfa|
      modifies this`closureCache
      ensures Valid() && cs == Closure(nfa, {s})
    {
      if s !in closureCache {
        var res := ClosureHelper(s, {});
        ClosureLeast(nfa, {s}, res);
        closureCache := closureCache[s := res];
      }
      cs := closureCache[s];
    }

    /** `_move_and_closure(T, a)`: the closure of the move of `T` on `a`. */
    method MoveAndClosure(T: set<nat>, a: Code) returns (c: set<nat>)
      requires Valid() && InGraph(nfa, T)
      modifies this`closureCache
      ensures Valid() && c == Closure(nfa, Move(nfa, T, a))
    {
      OpenGraph(nfa, fold);
      var newStates: set<nat> := {};
      var rest := T;
      ghost var done: set<nat> := {};
      while rest != {}
        invariant Valid() && rest + done == T && InGraph(nfa, done)
        invariant newStates == Move(nfa, done, a)
        decreases rest
      {
        var s :| s in rest;
        var ts := nfa[s].Lookup(Some(a));
        MoveAdd(nfa, done, s, a, ts);
        newStates := newStates + (set t | t in ts);
        done := done + {s};
        rest := rest - {s};
      }
      c := GetClosure(newStates);
    }

    /**
     * The `valid_inputs` loop of `_build_model` over the NFA states `T`:
     * the union of their input symbols.
     */
    method CollectInputs(T: set<nat>) returns (vi: set<Code>)
      requires Valid() && InGraph(nfa, T)
      ensures vi == Inputs(nfa, T)
    {
      OpenGraph(nfa, fold);
      vi := {};
      var rest := T;
      ghost var done: set<nat> := {};
      while rest != {}
        invariant rest + done == T && InGraph(nfa, done)
        invariant vi == Inputs(nfa, done)
        decreases rest
      {
        var s :| s in rest;
        var v := nfa[s].ValidInputs();
        InputsAdd(nfa, done, s);
        vi := vi + v;
        done := done + {s};
        rest := rest - {s};
      }
    }

    /**
     * One round of the `for symbol in valid_inputs` loop of `_build_model`
     * on DFA state `cur`: an empty move is passed over; otherwise `cur` gets
     * an edge on `a` (`convert_to`) to the DFA state registered under the
     * move's signature, created (`_create_dfa_state`) and pushed on the
     * worklist if there is none.
     */
    method TrySymbol(st: map<set<int>, nat>, ds: seq<DState>, ghost syms: set<Code>, ghost p: seq<nat>, ghost v: seq<nat>,
                     wait: seq<nat>, cur: nat, ghost seen: set<Code>, T: set<nat>, a: Code)
      returns (st': map<set<int>, nat>, ds': seq<DState>, ghost p': seq<nat>, ghost v': seq<nat>, wait': seq<nat>)
      requires Valid() && 1 <= cur <= |ds| && ds[cur - 1].nfaStates == T && a !in seen && a in Inputs(nfa, T)
      requires Kept(nfa, nfaInit, st, ds, syms, p, v, wait, cur, seen, fold)
      modifies this`closureCache
      ensures Valid() && Kept(nfa, nfaInit, st', ds', syms, p', v', wait', cur, seen + {a}, fold)
      ensures 1 <= cur <= |ds'| && ds'[cur - 1].nfaStates == T
      ensures |ds| <= |ds'| && |ds'| - |ds| == |wait'| - |wait|
    {
      CurrentInGraph(nfa, nfaInit, st, ds, syms, p, v, wait, cur, seen, T, fold);
      var M := MoveAndClosure(T, a);
      if M == {} {
        SkipStep(nfa, nfaInit, st, ds, syms, p, v, wait, cur, seen, T, a, M, fold);
        return st, ds, p, v, wait;
      }
      var sig := Signature(nfa, M);
      if sig in st {
        var t := st[sig];
        st', ds', p', v', wait' := st, AddEdgeTo(ds, cur, DEdge(a, t)), p, v, wait;
        ReuseStep(nfa, nfaInit, st, ds, syms, p, v, wait, cur, seen, T, a, M, sig, t, fold);
      } else {
        var d := NewState(nfa, st, M, sig);
        var n := d.stateIndex;
        ghost var k: nat := |ds[cur - 1].outEdges|;
        st', ds', wait' := st[sig := n], AddEdgeTo(ds + [d], cur, DEdge(a, n)), wait + [n];
        p', v' := p + [cur], v + [k];
        NewStep(nfa, nfaInit, st, ds, syms, p, v, wait, cur, seen, T, a, M, sig, d, k, fold);
      }
    }

    /**
     * The body of the worklist loop of `_build_model`: pop the last DFA
     * state, collect its input symbols into the symbols seen so far, then
     * try each of them.
     */
    /** DFA state 1, for the closure of the NFA's init, waiting to be processed. */
    method StartState() returns (d: DState)
      requires Valid()
      modifies this`closureCache
      ensures Valid() && d.stateIndex == 1 && d.nfaStates == Closure(nfa, {nfaInit})
      ensures Kept(nfa, nfaInit, map[d.signature := 1], [d], {}, [0], [0], [1], 0, {}, fold)
    {
      var start := GetClosure({nfaInit});
      var sig := Signature(nfa, start);
      d := NewState(nfa, map[], start, sig);
      InitStep(nfa, nfaInit, start, sig, d, fold);
    }

    /** The `while waiting_states` loop of `_build_model`: process states until none waits. */
    method Explore(st0: map<set<int>, nat>, ds0: seq<DState>, syms0: set<Code>, ghost p0: seq<nat>, ghost v0: seq<nat>,
                   wait0: seq<nat>)
      returns (st: map<set<int>, nat>, ds: seq<DState>, syms: set<Code>, ghost p: seq<nat>, ghost v: seq<nat>,
               wait: seq<nat>)
      requires Valid() && Kept(nfa, nfaInit, st0, ds0, syms0, p0, v0, wait0, 0, {}, fold)
      modifies this`closureCache
      ensures Valid() && Kept(nfa, nfaInit, st, ds, syms, p, v, wait, 0, {}, fold) && wait == []
    {
      st, ds, syms, p, v, wait := st0, ds0, syms0, p0, v0, wait0;
      ghost var bound := StateBound(nfa, fold);
      Bounded(nfa, nfaInit, st, ds, syms, p, v, wait, fold);
      while |wait| > 0
        invariant Valid() && Kept(nfa, nfaInit, st, ds, syms, p, v, wait, 0, {}, fold)
        invariant |ds| <= bound
        decreases bound - |ds|, |wait|
      {
        st, ds, syms, p, v, wait := ProcessState(st, ds, syms, p, v, wait);
        Bounded(nfa, nfaInit, st, ds, syms, p, v, wait, fold);
      }
    }

    method ProcessState(st: map<set<int>, nat>, ds: seq<DState>, syms: set<Code>, ghost p: seq<nat>, ghost v: seq<nat>,
                        wait: seq<nat>)
      returns (st': map<set<int>, nat>, ds': seq<DState>, syms': set<Code>, ghost p': seq<nat>, ghost v': seq<nat>,
               wait': seq<nat>)
      requires Valid() && |wait| > 0 && Kept(nfa, nfaInit, st, ds, syms, p, v, wait, 0, {}, fold)
      modifies this`closureCache
      ensures Valid() && Kept(nfa, nfaInit, st', ds', syms', p', v', wait', 0, {}, fold)
      ensures |ds| <= |ds'| && |ds'| - |ds| == |wait'| - |wait| + 1
    {
      var src := wait[|wait| - 1];
      var rest := wait[..|wait| - 1];
      StartStep(nfa, nfaInit, st, ds, syms, p, v, wait, fold);
      var T := ds[src - 1].nfaStates;
      var vi := CollectInputs(T);
      syms' := syms + vi;
      var todo := vi;
      ghost var seen: set<Code> := {};
      st', ds', p', v', wait' := st, ds, p, v, rest;
      Collected(nfa, nfaInit, st, ds, syms, p, v, rest, src, T, vi, fold);
      while todo != {}
        invariant Valid() && 1 <= src <= |ds'| && ds'[src - 1].nfaStates == T
        invariant todo + seen == Inputs(nfa, T) && todo !! seen
        invariant Kept(nfa, nfaInit, st', ds', syms', p', v', wait', src, seen, fold)
        invariant |ds| <= |ds'| && |ds'| - |ds| == |wait'| - |rest|
        decreases |todo|
      {
        var a :| a in todo;
        TakeOne(todo, seen, Inputs(nfa, T), a);
        st', ds', p', v', wait' := TrySymbol(st', ds', syms', p', v', wait', src, seen, T, a);
        seen := seen + {a};
        todo := todo - {a};
      }
      TakeNone(todo, seen, Inputs(nfa, T));
      FinishStep(nfa, nfaInit, st', ds', syms', p', v', wait', src, seen, T, fold);
    }

    /**
     * `_build_model`: the subset construction.  DFA state 1 holds the
     * closure of the NFA's init state; the worklist runs until every DFA
     * state has an edge for each of its symbols whose move is not empty.
     */
    method BuildModel()
      requires Valid() && states == map[] && dstates == [] && allSymbols == {}
      modifies this`closureCache, this`states, this`dstates, this`parent, this`via, this`allSymbols, this`initState
      ensures Valid() && initState == 1
      ensures Kept(nfa, nfaInit, states, dstates, allSymbols, parent, via, [], 0, {}, fold)
    {
      var d := StartState();
      var st, ds, syms, wait;
      ghost var p, v;
      st, ds, syms, p, v, wait := Explore(map[d.signature := 1], [d], {}, [0], [0], [1]);
      states, dstates, allSymbols, initState, parent, via := st, ds, syms, 1, p, v;
    }

    /**
     * `_build_transition_table`: `max(_all_symbols) + 1` columns (a
     * `ValueError` when no symbol was collected, reported as `ok == false`
     * with both tables left as they were), one row per DFA state plus row 0
     * for the dead state, all zeros; the accept table all -1; then the
     * recursive `helper` walks the DFA depth first from the initial state,
     * filling in each state's token and, edge by edge, its row.
     */
    method BuildTransitionTable() returns (ok: bool)
      requires Valid() && initState == 1
      requires Kept(nfa, nfaInit, states, dstates, allSymbols, parent, via, [], 0, {}, fold)
      modifies this`transitionTable, this`acceptTable
      ensures ok <==> allSymbols != {}
      ensures ok ==> Tables(dstates, allSymbols, transitionTable, acceptTable)
      ensures !ok ==> transitionTable == old(transitionTable) && acceptTable == old(acceptTable)
    {
      if allSymbols == {} {
        return false;
      }
      TableFacts(nfa, nfaInit, states, dstates, allSymbols, parent, via, fold);
      var width := MaxOf(allSymbols) + 1;
      SymbolsBelow(dstates, allSymbols, width);
      var table, accept := FillTables(dstates, width);
      assert Tables(dstates, allSymbols, table, accept);
      transitionTable, acceptTable := table, accept;
      assert Tables(dstates, allSymbols, transitionTable, acceptTable);
      return true;
    }

    /** `init()`: build the DFA, then its tables. */
    method Init() returns (ok: bool)
      requires Valid() && states == map[] && dstates == [] && allSymbols == {}
      modifies this`closureCache, this`states, this`dstates, this`parent, this`via, this`allSymbols, this`initState
      modifies this`transitionTable, this`acceptTable
      ensures Valid() && initState == 1 && Built(nfa, nfaInit, dstates, allSymbols)
      ensures ok <==> allSymbols != {}
      ensures ok ==> Tables(dstates, allSymbols, transitionTable, acceptTable)
    {
      BuildModel();
      BuiltOf(nfa, nfaInit, states, dstates, allSymbols, parent, via, fold);
      ok := BuildTransitionTable();
    }
  }

  /** The DFA state `_create_dfa_state` makes for `M`: numbered after the states registered so far, no edges yet. */
  function NewState(g: Graph, st: map<set<int>, nat>, M: set<nat>, sig: set<int>): (d: DState)
    ensures InGraph(g, M) && M != {} && sig == Signature(g, M) ==> StateOk(g, d, |st|)
    ensures d.outEdges == [] && d.nfaStates == M && d.signature == sig
  {
    DState(AcceptIndex(g, M), |st| + 1, [], M, sig)
  }

  /** Picking `a` out of the symbols left to try. */
  lemma {:induction false} TakeOne<T>(todo: set<T>, seen: set<T>, all: set<T>, a: T)
    requires todo + seen == all && todo !! seen && a in todo
    ensures a in all && a !in seen && |todo - {a}| < |todo|
    ensures (todo - {a}) + (seen + {a}) == all && (todo - {a}) !! (seen + {a})
  {
  }

  /** Nothing left to try: every symbol has been seen. */
  lemma {:induction false} TakeNone<T>(todo: set<T>, seen: set<T>, all: set<T>)
    requires todo + seen == all && todo == {}
    ensures all <= seen
  {
  }

  /** The state being processed holds states of the graph. */
  lemma {:induction false} CurrentInGraph(g: Graph, init: nat, st: map<set<int>, nat>, ds: seq<DState>, syms: set<Code>,
                       parent: seq<nat>, via: seq<nat>, wait: seq<nat>, cur: nat, seen: set<Code>, T: set<nat>, depth: nat)
    requires 1 <= cur <= |ds| && ds[cur - 1].nfaStates == T && Kept(g, init, st, ds, syms, parent, via, wait, cur, seen, depth)
    ensures InGraph(g, T)
  {
    Open(g, init, st, ds, syms, parent, via, wait, cur, seen, depth);
    assert StateOk(g, ds[cur - 1], cur - 1);
  }

  /** Every epsilon edge leaving `A` ends in `B`. */
  ghost predicate EdgesInto(g: Graph, A: set<nat>, B: set<nat>) {
    forall s, e :: s in A && s < |g| && e in g[s].outEdges && e.symbol == None ==> e.target in B
  }

  lemma {:induction false} EdgesIntoJoin(g: Graph, A1: set<nat>, A2: set<nat>, B1: set<nat>, B: set<nat>)
    requires EdgesInto(g, A1, B1) && B1 <= B && EdgesInto(g, A2, B)
    ensures EdgesInto(g, A1 + A2, B)
  {
  }

  /** One recursive call of the closure helper keeps its loop invariant. */
  lemma {:induction false} HelperStep(g: Graph, res: set<nat>, state: nat, C: set<nat>, before: set<nat>, after: set<nat>, Cn: set<nat>,
                    next: seq<nat>, k: nat)
    requires k < |next| && forall j :: 0 <= j < k ==> next[j] in before
    requires res + {state} <= before <= res + C && before + {next[k]} <= after <= before + Cn && Cn <= C
    requires EdgesInto(g, before - res - {state}, before) && EdgesInto(g, after - before, after)
    ensures res + {state} <= after <= res + C
    ensures EdgesInto(g, after - res - {state}, after)
    ensures forall j :: 0 <= j < k + 1 ==> next[j] in after
  {
    EdgesIntoJoin(g, before - res - {state}, after - before, before, after);
    assert after - res - {state} == (before - res - {state}) + (after - before);
  }

  /** Once every epsilon target of `state` is in, the states the helper added are closed. */
  lemma {:induction false} HelperDone(g: Graph, res: set<nat>, state: nat, next: seq<nat>, after: set<nat>)
    requires state < |g| && state in after && forall t :: t in next <==> Edge(None, t) in g[state].outEdges
    requires forall j :: 0 <= j < |next| ==> next[j] in after
    requires EdgesInto(g, after - res - {state}, after)
    ensures EdgesInto(g, after - res, after)
  {
    forall e | e in g[state].outEdges && e.symbol == None ensures e.target in after {
      assert e.target in next;
    }
    assert EdgesInto(g, {state}, after);
    EdgesIntoJoin(g, after - res - {state}, {state}, after, after);
    assert after - res <= (after - res - {state}) + {state};
  }

  /** Adding one state to a move adds the targets of its edges on that symbol. */
  lemma {:induction false} MoveAdd(g: Graph, D: set<nat>, s: nat, a: Code, ts: seq<nat>)
    requires WellFormedGraph(g) && s < |g| && forall t :: t in ts <==> Edge(Some(a), t) in g[s].outEdges
    ensures Move(g, D + {s}, a) == Move(g, D, a) + (set t | t in ts)
  {
    forall t | t in ts ensures t in Move(g, D + {s}, a) {
      assert Edge(Some(a), t) in g[s].outEdges;
      assert t < |g|;
      assert MovesTo(g, D + {s}, a, t);
    }
    forall t | t in Move(g, D + {s}, a) ensures t in Move(g, D, a) || t in ts {
      var x :| x in D + {s} && x < |g| && Edge(Some(a), t) in g[x].outEdges;
      if x != s { assert MovesTo(g, D, a, t); }
    }
    forall t | t in Move(g, D, a) ensures t in Move(g, D + {s}, a) {
      var x :| x in D && x < |g| && Edge(Some(a), t) in g[x].outEdges;
      assert MovesTo(g, D + {s}, a, t);
    }
  }

  // ---------------------------------------------------------------------------
  // What the worklist construction keeps
  // ---------------------------------------------------------------------------

  /** DFA state `i + 1` holds a non-empty set of NFA states, its signature and its accepting token. */
  ghost predicate StateOk(g: Graph, d: DState, i: nat) {
    && d.stateIndex == i + 1
    && InGraph(g, d.nfaStates) && d.nfaStates != {}
    && d.signature == Signature(g, d.nfaStates)
    && d.tokenIndex == AcceptIndex(g, d.nfaStates)
  }

  /** `states` maps the signature of every DFA state, and nothing else, to that state's index. */
  ghost predicate Registry(states: map<set<int>, nat>, ds: seq<DState>) {
    && |states| == |ds|
    && (forall i :: 0 <= i < |ds| ==> ds[i].signature in states && states[ds[i].signature] == i + 1)
    && (forall sig :: sig in states ==> 1 <= states[sig] <= |ds| && ds[states[sig] - 1].signature == sig)
  }

  ghost predicate StatesOk(g: Graph, ds: seq<DState>) {
    forall i :: 0 <= i < |ds| ==> StateOk(g, ds[i], i)
  }

  /** The sets of NFA states the DFA states stand for. */
  ghost function Configs(ds: seq<DState>): set<set<nat>> {
    set i | 0 <= i < |ds| :: ds[i].nfaStates
  }

  /** An edge on `a` leaving NFA states `T` leads to the DFA state holding the closure of their move on `a`. */
  ghost predicate EdgeOk(g: Graph, ds: seq<DState>, T: set<nat>, e: DEdge) {
    && 1 <= e.target <= |ds|
    && e.symbol in Inputs(g, T)
    && ds[e.target - 1].nfaStates == Closure(g, Move(g, T, e.symbol))
  }

  ghost predicate EdgesOk(g: Graph, ds: seq<DState>) {
    forall i, k :: 0 <= i < |ds| && 0 <= k < |ds[i].outEdges| ==> EdgeOk(g, ds, ds[i].nfaStates, ds[i].outEdges[k])
  }

  /** No two edges carry the same symbol. */
  ghost predicate SymbolsDistinct(es: seq<DEdge>) {
    forall j, k :: 0 <= j < k < |es| ==> es[j].symbol != es[k].symbol
  }

  ghost function EdgeSymbols(es: seq<DEdge>): set<Code> {
    set e | e in es :: e.symbol
  }

  /** The symbols on which a DFA state holding `T` gets an edge: those whose move closes to something. */
  ghost function Expected(g: Graph, T: set<nat>): set<Code>
  {
    set a | a in Inputs(g, T) && Closure(g, Move(g, T, a)) != {}
  }

  /**
   * The edges of one DFA state: none while it waits; once processed, one
   * per expected symbol; while it is being processed, one per expected
   * symbol among those `seen` so far.
   */
  ghost predicate EdgesDone(g: Graph, d: DState, waiting: bool, current: bool, seen: set<Code>) {
    if waiting then d.outEdges == []
    else
      && SymbolsDistinct(d.outEdges)
      && EdgeSymbols(d.outEdges) == (if current then Expected(g, d.nfaStates) * seen else Expected(g, d.nfaStates))
  }

  /** The worklist holds distinct DFA states, and every state's edges are as far along as its processing. */
  ghost predicate WorkOk(g: Graph, ds: seq<DState>, wait: seq<nat>, cur: nat, seen: set<Code>) {
    && (forall j :: 0 <= j < |wait| ==> 1 <= wait[j] <= |ds|)
    && (forall j, k :: 0 <= j < k < |wait| ==> wait[j] != wait[k])
    && (cur != 0 ==> 1 <= cur <= |ds| && cur !in wait)
    && forall i :: 0 <= i < |ds| ==> EdgesDone(g, ds[i], i + 1 in wait, i + 1 == cur, seen)
  }

  /** The input symbols of the DFA states no longer waiting: what `_all_symbols` has collected. */
  ghost function DoneInputs(g: Graph, ds: seq<DState>, wait: seq<nat>): set<Code> {
    set i, a | 0 <= i < |ds| && i + 1 !in wait && a in Inputs(g, ds[i].nfaStates) :: a
  }

  /** Every DFA state but the first is the target of an edge of an earlier state. */
  ghost predicate Linked(ds: seq<DState>, parent: seq<nat>, via: seq<nat>) {
    && |parent| == |ds| && |via| == |ds|
    && forall i :: 1 <= i < |ds| ==>
         && 1 <= parent[i] <= i
         && via[i] < |ds[parent[i] - 1].outEdges|
         && ds[parent[i] - 1].outEdges[via[i]].target == i + 1
  }

  /**
   * The state of `_build_model` between two steps: `wait` is the worklist,
   * `cur` the DFA state being processed (0 for none) and `seen` the symbols
   * of `cur` handled so far.
   */
  ghost predicate Progress(g: Graph, init: nat, states: map<set<int>, nat>, ds: seq<DState>, symbols: set<Code>,
                           parent: seq<nat>, via: seq<nat>, wait: seq<nat>, cur: nat, seen: set<Code>)
  {
    Building(g, init, states, ds, symbols, wait, cur, seen) && Linked(ds, parent, via)
  }

  /**
   * `Progress` as the methods of `DFAModel` pass it on: `Progress` itself at
   * depth 0, and at depth `n + 1` the same statement one definition further
   * away.  The methods hold it at the class's depth `fold`, which is positive
   * but not known to be any particular number, so that their proofs see it
   * as a whole; the step lemmas below take it apart (`Open`) and put it
   * back together (`Close`).
   */
  ghost predicate Kept(g: Graph, init: nat, states: map<set<int>, nat>, ds: seq<DState>, symbols: set<Code>,
                       parent: seq<nat>, via: seq<nat>, wait: seq<nat>, cur: nat, seen: set<Code>, depth: nat)
    decreases depth, g
  {
    if depth > 0 then Kept(g, init, states, ds, symbols, parent, via, wait, cur, seen, depth - 1)
    else Progress(g, init, states, ds, symbols, parent, via, wait, cur, seen)
  }

  lemma {:induction false} Open(g: Graph, init: nat, states: map<set<int>, nat>, ds: seq<DState>, symbols: set<Code>,
                                parent: seq<nat>, via: seq<nat>, wait: seq<nat>, cur: nat, seen: set<Code>, depth: nat)
    requires Kept(g, init, states, ds, symbols, parent, via, wait, cur, seen, depth)
    ensures Progress(g, init, states, ds, symbols, parent, via, wait, cur, seen)
    decreases depth
  {
    if depth > 0 {
      Open(g, init, states, ds, symbols, parent, via, wait, cur, seen, depth - 1);
    }
  }

  lemma {:induction false} Close(g: Graph, init: nat, states: map<set<int>, nat>, ds: seq<DState>, symbols: set<Code>,
                                 parent: seq<nat>, via: seq<nat>, wait: seq<nat>, cur: nat, seen: set<Code>, depth: nat)
    requires Progress(g, init, states, ds, symbols, parent, via, wait, cur, seen)
    ensures Kept(g, init, states, ds, symbols, parent, via, wait, cur, seen, depth)
    decreases depth
  {
    if depth > 0 {
      Close(g, init, states, ds, symbols, parent, via, wait, cur, seen, depth - 1);
    }
  }

  /** Everything `Progress` keeps except how the DFA states are linked. */
  ghost predicate Building(g: Graph, init: nat, states: map<set<int>, nat>, ds: seq<DState>, symbols: set<Code>,
                           wait: seq<nat>, cur: nat, seen: set<Code>)
  {
    && WellFormedGraph(g) && init < |g| && DistinctIndices(g)
    && StatesOk(g, ds) && Registry(states, ds)
    && |ds| >= 1 && ds[0].nfaStates == Closure(g, {init})
    && EdgesOk(g, ds)
    && WorkOk(g, ds, wait, cur, seen)
    && symbols == DoneInputs(g, ds, wait)
  }

  /** `convert_to(a, t)` on DFA state `i`: its edge list gains `e` at the end. */
  function AddEdgeTo(ds: seq<DState>, i: nat, e: DEdge): (ds': seq<DState>)
    requires 1 <= i <= |ds|
    ensures |ds'| == |ds| && ds'[i - 1].outEdges == ds[i - 1].outEdges + [e]
    ensures forall j :: 0 <= j < |ds| ==> ds'[j] == if j == i - 1 then ds[j].(outEdges := ds[j].outEdges + [e]) else ds[j]
  {
    ds[i - 1 := ds[i - 1].(outEdges := ds[i - 1].outEdges + [e])]
  }

  // ---------------------------------------------------------------------------
  // How each step of the construction keeps `Progress`
  // ---------------------------------------------------------------------------

  /** Adding an edge leaves the NFA states of the first DFA state alone. */
  lemma {:induction false} FirstKept(ds: seq<DState>, i: nat, e: DEdge)
    requires 1 <= i <= |ds|
    ensures AddEdgeTo(ds, i, e)[0].nfaStates == ds[0].nfaStates
  {
  }

  lemma {:induction false} RegistryAddEdge(st: map<set<int>, nat>, ds: seq<DState>, i: nat, e: DEdge)
    requires Registry(st, ds) && 1 <= i <= |ds|
    ensures Registry(st, AddEdgeTo(ds, i, e))
  {
  }

  lemma {:induction false} RegistryCreate(st: map<set<int>, nat>, ds: seq<DState>, d: DState, n: nat)
    requires Registry(st, ds) && d.signature !in st && n == |ds| + 1
    ensures Registry(st[d.signature := n], ds + [d])
  {
    var ds', st' := ds + [d], st[d.signature := n];
    assert |st'| == |st| + 1;
    RegistryCreateIndices(st, ds, d, st', ds');
    RegistryCreateKeys(st, ds, d, st', ds');
    assert Registry(st', ds');
  }

  lemma {:induction false} RegistryCreateIndices(st: map<set<int>, nat>, ds: seq<DState>, d: DState, st': map<set<int>, nat>, ds': seq<DState>)
    requires Registry(st, ds) && d.signature !in st && st' == st[d.signature := |ds| + 1] && ds' == ds + [d]
    ensures forall j :: 0 <= j < |ds'| ==> ds'[j].signature in st' && st'[ds'[j].signature] == j + 1
  {
    forall j | 0 <= j < |ds'| ensures ds'[j].signature in st' && st'[ds'[j].signature] == j + 1 {
      if j < |ds| {
        assert ds'[j] == ds[j] && ds[j].signature in st && ds[j].signature != d.signature;
      } else {
        assert ds'[j] == d;
      }
    }
  }

  lemma {:induction false} RegistryCreateKeys(st: map<set<int>, nat>, ds: seq<DState>, d: DState, st': map<set<int>, nat>, ds': seq<DState>)
    requires Registry(st, ds) && d.signature !in st && st' == st[d.signature := |ds| + 1] && ds' == ds + [d]
    ensures forall sig :: sig in st' ==> 1 <= st'[sig] <= |ds'| && ds'[st'[sig] - 1].signature == sig
  {
    forall sig | sig in st' ensures 1 <= st'[sig] <= |ds'| && ds'[st'[sig] - 1].signature == sig {
      if sig != d.signature {
        assert sig in st && st'[sig] == st[sig];
        assert ds'[st[sig] - 1] == ds[st[sig] - 1];
      }
    }
  }

  lemma {:induction false} StatesOkAddEdge(g: Graph, ds: seq<DState>, i: nat, e: DEdge)
    requires StatesOk(g, ds) && 1 <= i <= |ds|
    ensures StatesOk(g, AddEdgeTo(ds, i, e))
  {
    var ds' := AddEdgeTo(ds, i, e);
    forall j | 0 <= j < |ds| ensures StateOk(g, ds'[j], j) {
      assert StateOk(g, ds[j], j);
    }
  }

  lemma {:induction false} StatesOkCreate(g: Graph, ds: seq<DState>, d: DState)
    requires StatesOk(g, ds) && StateOk(g, d, |ds|)
    ensures StatesOk(g, ds + [d])
  {
    var ds' := ds + [d];
    forall j | 0 <= j < |ds'| ensures StateOk(g, ds'[j], j) {
      if j < |ds| { assert StateOk(g, ds[j], j); }
    }
  }

  lemma {:induction false} EdgesOkAddEdge(g: Graph, ds: seq<DState>, i: nat, e: DEdge)
    requires EdgesOk(g, ds) && 1 <= i <= |ds| && EdgeOk(g, ds, ds[i - 1].nfaStates, e)
    ensures EdgesOk(g, AddEdgeTo(ds, i, e))
  {
    var ds' := AddEdgeTo(ds, i, e);
    forall j, k | 0 <= j < |ds'| && 0 <= k < |ds'[j].outEdges|
      ensures EdgeOk(g, ds', ds'[j].nfaStates, ds'[j].outEdges[k])
    {
      if j == i - 1 && k == |ds[j].outEdges| {
      } else {
        assert EdgeOk(g, ds, ds[j].nfaStates, ds[j].outEdges[k]);
      }
    }
  }

  lemma {:induction false} EdgesOkCreate(g: Graph, ds: seq<DState>, d: DState)
    requires EdgesOk(g, ds) && d.outEdges == []
    ensures EdgesOk(g, ds + [d])
  {
    var ds' := ds + [d];
    forall j, k | 0 <= j < |ds'| && 0 <= k < |ds'[j].outEdges|
      ensures EdgeOk(g, ds', ds'[j].nfaStates, ds'[j].outEdges[k])
    {
      assert EdgeOk(g, ds, ds[j].nfaStates, ds[j].outEdges[k]);
    }
  }

  lemma {:induction false} WorkCreate(g: Graph, ds: seq<DState>, wait: seq<nat>, cur: nat, seen: set<Code>, d: DState, n: nat)
    requires WorkOk(g, ds, wait, cur, seen) && d.outEdges == [] && n == |ds| + 1
    ensures WorkOk(g, ds + [d], wait + [n], cur, seen)
  {
    var ds', wait' := ds + [d], wait + [n];
    forall i | 0 <= i < |ds'| ensures EdgesDone(g, ds'[i], i + 1 in wait', i + 1 == cur, seen) {
      if i < |ds| {
        assert EdgesDone(g, ds[i], i + 1 in wait, i + 1 == cur, seen);
        assert i + 1 in wait' <==> i + 1 in wait;
        EdgesDoneSame(g, ds[i], i + 1 in wait, i + 1 == cur, ds'[i], i + 1 in wait', i + 1 == cur, seen);
      } else {
        assert i + 1 in wait';
      }
    }
  }

  /** Adding the edge on a new expected symbol `a` to the state being processed. */
  lemma {:induction false} WorkAddEdge(g: Graph, ds: seq<DState>, wait: seq<nat>, cur: nat, seen: set<Code>, e: DEdge)
    requires WorkOk(g, ds, wait, cur, seen) && cur != 0
    requires e.symbol !in seen && e.symbol in Expected(g, ds[cur - 1].nfaStates)
    ensures WorkOk(g, AddEdgeTo(ds, cur, e), wait, cur, seen + {e.symbol})
  {
    var ds' := AddEdgeTo(ds, cur, e);
    assert cur !in wait;
    assert ds'[cur - 1] == ds[cur - 1].(outEdges := ds[cur - 1].outEdges + [e]);
    assert EdgesDone(g, ds[cur - 1], false, true, seen);
    EdgesDoneAdd(g, ds[cur - 1], seen, e);
    assert EdgesDone(g, ds'[cur - 1], false, true, seen + {e.symbol});
    forall i | 0 <= i < |ds'| ensures EdgesDone(g, ds'[i], i + 1 in wait, i + 1 == cur, seen + {e.symbol}) {
      if i + 1 == cur {
        EdgesDoneSame(g, ds'[cur - 1], false, true, ds'[i], i + 1 in wait, i + 1 == cur, seen + {e.symbol});
      } else {
        assert EdgesDone(g, ds[i], i + 1 in wait, false, seen);
        assert ds'[i] == ds[i];
        EdgesDoneOther(g, ds[i], i + 1 in wait, seen, seen + {e.symbol});
      }
    }
  }

  lemma {:induction false} EdgesDoneSame(g: Graph, d: DState, waiting: bool, current: bool,
                      d': DState, waiting': bool, current': bool, seen: set<Code>)
    requires EdgesDone(g, d, waiting, current, seen) && d' == d && waiting' == waiting && current' == current
    ensures EdgesDone(g, d', waiting', current', seen)
  {
  }

  /** The symbols seen so far matter only to the state being processed. */
  lemma {:induction false} EdgesDoneOther(g: Graph, d: DState, waiting: bool, seen: set<Code>, seen': set<Code>)
    requires EdgesDone(g, d, waiting, false, seen)
    ensures EdgesDone(g, d, waiting, false, seen')
  {
  }

  /** The state being processed gains its edge on one more expected symbol. */
  lemma {:induction false} EdgesDoneAdd(g: Graph, d: DState, seen: set<Code>, e: DEdge)
    requires EdgesDone(g, d, false, true, seen)
    requires e.symbol !in seen && e.symbol in Expected(g, d.nfaStates)
    ensures EdgesDone(g, d.(outEdges := d.outEdges + [e]), false, true, seen + {e.symbol})
  {
    var es := d.outEdges;
    EdgeSymbolsAppend(es, e);
    SymbolsDistinctAppend(es, e);
    MeetAdd(Expected(g, d.nfaStates), seen, e.symbol);
  }

  lemma {:induction false} EdgeSymbolsAppend(es: seq<DEdge>, e: DEdge)
    ensures EdgeSymbols(es + [e]) == EdgeSymbols(es) + {e.symbol}
  {
    assert forall x :: x in es + [e] <==> x in es || x == e;
  }

  lemma {:induction false} SymbolsDistinctAppend(es: seq<DEdge>, e: DEdge)
    requires SymbolsDistinct(es) && e.symbol !in EdgeSymbols(es)
    ensures SymbolsDistinct(es + [e])
  {
    forall j, k | 0 <= j < k < |es + [e]| ensures (es + [e])[j].symbol != (es + [e])[k].symbol {
      if k == |es| { assert es[j] in es; }
    }
  }

  lemma {:induction false} MeetAdd(E: set<Code>, S: set<Code>, a: Code)
    requires a in E
    ensures E * (S + {a}) == E * S + {a}
  {
  }

  /** A symbol whose move closes to nothing adds no edge. */
  lemma {:induction false} WorkSkip(g: Graph, ds: seq<DState>, wait: seq<nat>, cur: nat, seen: set<Code>, a: Code)
    requires WorkOk(g, ds, wait, cur, seen) && cur != 0
    requires a !in Expected(g, ds[cur - 1].nfaStates)
    ensures WorkOk(g, ds, wait, cur, seen + {a})
  {
    forall i | 0 <= i < |ds| ensures EdgesDone(g, ds[i], i + 1 in wait, i + 1 == cur, seen + {a}) {
      assert EdgesDone(g, ds[i], i + 1 in wait, i + 1 == cur, seen);
      if i + 1 == cur {
        assert Expected(g, ds[i].nfaStates) * (seen + {a}) == Expected(g, ds[i].nfaStates) * seen;
      }
    }
  }

  lemma {:induction false} DoneCreate(g: Graph, ds: seq<DState>, wait: seq<nat>, d: DState, n: nat)
    requires n == |ds| + 1
    ensures DoneInputs(g, ds + [d], wait + [n]) == DoneInputs(g, ds, wait)
  {
    var ds', wait' := ds + [d], wait + [n];
    forall a | a in DoneInputs(g, ds', wait') ensures a in DoneInputs(g, ds, wait) {
      var i :| 0 <= i < |ds'| && i + 1 !in wait' && a in Inputs(g, ds'[i].nfaStates);
      assert ds[i] == ds'[i];
    }
    forall a | a in DoneInputs(g, ds, wait) ensures a in DoneInputs(g, ds', wait') {
      var i :| 0 <= i < |ds| && i + 1 !in wait && a in Inputs(g, ds[i].nfaStates);
      assert ds[i] == ds'[i];
    }
  }

  lemma {:induction false} DoneAddEdge(g: Graph, ds: seq<DState>, wait: seq<nat>, i: nat, e: DEdge)
    requires 1 <= i <= |ds|
    ensures DoneInputs(g, AddEdgeTo(ds, i, e), wait) == DoneInputs(g, ds, wait)
  {
    var ds' := AddEdgeTo(ds, i, e);
    forall a | a in DoneInputs(g, ds', wait) ensures a in DoneInputs(g, ds, wait) {
      var j :| 0 <= j < |ds'| && j + 1 !in wait && a in Inputs(g, ds'[j].nfaStates);
      assert ds[j].nfaStates == ds'[j].nfaStates;
    }
    forall a | a in DoneInputs(g, ds, wait) ensures a in DoneInputs(g, ds', wait) {
      var j :| 0 <= j < |ds| && j + 1 !in wait && a in Inputs(g, ds[j].nfaStates);
      assert ds[j].nfaStates == ds'[j].nfaStates;
    }
  }

  lemma {:induction false} LinkedAddEdge(ds: seq<DState>, parent: seq<nat>, via: seq<nat>, i: nat, e: DEdge)
    requires Linked(ds, parent, via) && 1 <= i <= |ds|
    ensures Linked(AddEdgeTo(ds, i, e), parent, via)
  {
    var ds' := AddEdgeTo(ds, i, e);
    forall j | 1 <= j < |ds'| ensures ds'[parent[j] - 1].outEdges[via[j]] == ds[parent[j] - 1].outEdges[via[j]] {
    }
  }

  lemma {:induction false} LinkedCreate(ds: seq<DState>, parent: seq<nat>, via: seq<nat>, d: DState, cur: nat, a: Code, n: nat, k: nat)
    requires Linked(ds, parent, via) && 1 <= cur <= |ds| && n == |ds| + 1 && k == |ds[cur - 1].outEdges|
    ensures Linked(AddEdgeTo(ds + [d], cur, DEdge(a, n)), parent + [cur], via + [k])
  {
    var ds1, ds' := ds + [d], AddEdgeTo(ds + [d], cur, DEdge(a, n));
    var parent', via' := parent + [cur], via + [k];
    forall j | 1 <= j < |ds'|
      ensures 1 <= parent'[j] <= j && via'[j] < |ds'[parent'[j] - 1].outEdges| && ds'[parent'[j] - 1].outEdges[via'[j]].target == j + 1
    {
      if j < |ds| {
        assert ds'[parent[j] - 1].outEdges[via[j]] == ds[parent[j] - 1].outEdges[via[j]];
      }
    }
  }

  /** The first DFA state: the closure of the NFA's init state, waiting to be processed. */
  lemma {:induction false} InitStep(g: Graph, init: nat, T: set<nat>, sig: set<int>, d: DState, depth: nat)
    requires init < |g| && GraphOk(g, depth)
    requires T == Closure(g, {init}) && sig == Signature(g, T) && d == NewState(g, map[], T, sig)
    ensures d.stateIndex == 1
    ensures Kept(g, init, map[sig := d.stateIndex], [d], {}, [0], [0], [d.stateIndex], 0, {}, depth)
  {
    OpenGraph(g, depth);
    Initial(g, init, T, sig, d);
    Close(g, init, map[sig := d.stateIndex], [d], {}, [0], [0], [d.stateIndex], 0, {}, depth);
  }

  lemma {:induction false} Initial(g: Graph, init: nat, T: set<nat>, sig: set<int>, d: DState)
    requires WellFormedGraph(g) && init < |g| && DistinctIndices(g)
    requires T == Closure(g, {init}) && sig == Signature(g, T) && d == NewState(g, map[], T, sig)
    ensures d.stateIndex == 1
    ensures Progress(g, init, map[sig := d.stateIndex], [d], {}, [0], [0], [d.stateIndex], 0, {})
  {
    assert init in T;
    assert StateOk(g, d, 0);
    Single(g, d);
    assert [d][0].nfaStates == T;
  }

  /** A model holding one DFA state, still waiting, is in order. */
  lemma {:induction false} Single(g: Graph, d: DState)
    requires StateOk(g, d, 0) && d.outEdges == []
    ensures StatesOk(g, [d]) && Registry(map[d.signature := 1], [d]) && EdgesOk(g, [d])
    ensures WorkOk(g, [d], [1], 0, {}) && DoneInputs(g, [d], [1]) == {} && Linked([d], [0], [0])
  {
    assert EdgesDone(g, [d][0], true, false, {});
  }

  /** Popping `src` and collecting its input symbols makes it the state being processed. */
  lemma {:induction false} StartStep(g: Graph, init: nat, st: map<set<int>, nat>, ds: seq<DState>, syms: set<Code>,
                  parent: seq<nat>, via: seq<nat>, wait: seq<nat>, depth: nat)
    requires |wait| > 0 && Kept(g, init, st, ds, syms, parent, via, wait, 0, {}, depth)
    ensures 1 <= wait[|wait| - 1] <= |ds| && |wait[..|wait| - 1]| == |wait| - 1
    ensures InGraph(g, ds[wait[|wait| - 1] - 1].nfaStates)
    ensures Kept(g, init, st, ds, syms + Inputs(g, ds[wait[|wait| - 1] - 1].nfaStates), parent, via,
                 wait[..|wait| - 1], wait[|wait| - 1], {}, depth)
  {
    var src, rest := wait[|wait| - 1], wait[..|wait| - 1];
    assert wait == rest + [src];
    StartFrom(g, init, st, ds, syms, parent, via, wait, rest, src, depth);
  }

  /** The symbols collected for `src` are its inputs: none of them tried yet. */
  lemma {:induction false} Collected(g: Graph, init: nat, st: map<set<int>, nat>, ds: seq<DState>, syms: set<Code>,
                  parent: seq<nat>, via: seq<nat>, rest: seq<nat>, src: nat, T: set<nat>, vi: set<Code>, depth: nat)
    requires vi == Inputs(g, T) && Kept(g, init, st, ds, syms + Inputs(g, T), parent, via, rest, src, {}, depth)
    ensures Kept(g, init, st, ds, syms + vi, parent, via, rest, src, {}, depth)
    ensures vi + {} == Inputs(g, T) && vi !! {}
  {
  }

  lemma {:induction false} StartFrom(g: Graph, init: nat, st: map<set<int>, nat>, ds: seq<DState>, syms: set<Code>,
                  parent: seq<nat>, via: seq<nat>, wait: seq<nat>, rest: seq<nat>, src: nat, depth: nat)
    requires Kept(g, init, st, ds, syms, parent, via, wait, 0, {}, depth) && wait == rest + [src]
    ensures 1 <= src <= |ds| && InGraph(g, ds[src - 1].nfaStates)
    ensures Kept(g, init, st, ds, syms + Inputs(g, ds[src - 1].nfaStates), parent, via, rest, src, {}, depth)
  {
    Open(g, init, st, ds, syms, parent, via, wait, 0, {}, depth);
    WorkStart(g, ds, rest, src);
    DoneStart(g, ds, rest, src);
    assert StateOk(g, ds[src - 1], src - 1);
    Close(g, init, st, ds, syms + Inputs(g, ds[src - 1].nfaStates), parent, via, rest, src, {}, depth);
  }

  lemma {:induction false} WorkStart(g: Graph, ds: seq<DState>, wait: seq<nat>, src: nat)
    requires WorkOk(g, ds, wait + [src], 0, {})
    ensures 1 <= src <= |ds| && src !in wait
    ensures WorkOk(g, ds, wait, src, {})
  {
    var w := wait + [src];
    assert w[|wait|] == src;
    assert src !in wait by {
      forall j | 0 <= j < |wait| ensures wait[j] != src { assert w[j] == wait[j]; }
    }
    forall j | 0 <= j < |wait| ensures 1 <= wait[j] <= |ds| { assert w[j] == wait[j]; }
    forall j, k | 0 <= j < k < |wait| ensures wait[j] != wait[k] { assert w[j] == wait[j] && w[k] == wait[k]; }
    forall i | 0 <= i < |ds| ensures EdgesDone(g, ds[i], i + 1 in wait, i + 1 == src, {}) {
      assert EdgesDone(g, ds[i], i + 1 in w, false, {});
      if i + 1 == src {
        assert ds[i].outEdges == [];
        assert EdgeSymbols(ds[i].outEdges) == {};
      } else {
        assert i + 1 in wait <==> i + 1 in w;
      }
    }
  }

  lemma {:induction false} DoneStart(g: Graph, ds: seq<DState>, wait: seq<nat>, src: nat)
    requires 1 <= src <= |ds| && src !in wait
    ensures DoneInputs(g, ds, wait) == DoneInputs(g, ds, wait + [src]) + Inputs(g, ds[src - 1].nfaStates)
  {
    var w := wait + [src];
    var syms := DoneInputs(g, ds, w);
    forall a | a in syms ensures a in DoneInputs(g, ds, wait) {
      var i :| 0 <= i < |ds| && i + 1 !in w && a in Inputs(g, ds[i].nfaStates);
    }
    forall a | a in Inputs(g, ds[src - 1].nfaStates) ensures a in DoneInputs(g, ds, wait) {
      assert src - 1 + 1 !in wait;
    }
    forall a | a in DoneInputs(g, ds, wait) ensures a in syms || a in Inputs(g, ds[src - 1].nfaStates) {
      var i :| 0 <= i < |ds| && i + 1 !in wait && a in Inputs(g, ds[i].nfaStates);
      if i + 1 != src { assert i + 1 !in w; }
    }
  }

  /** Once every input symbol of `cur` has been handled, `cur` is fully processed. */
  lemma {:induction false} FinishStep(g: Graph, init: nat, st: map<set<int>, nat>, ds: seq<DState>, syms: set<Code>,
                   parent: seq<nat>, via: seq<nat>, wait: seq<nat>, cur: nat, seen: set<Code>, T: set<nat>, depth: nat)
    requires 1 <= cur <= |ds| && ds[cur - 1].nfaStates == T
    requires Kept(g, init, st, ds, syms, parent, via, wait, cur, seen, depth) && cur != 0
    requires Inputs(g, T) <= seen
    ensures Kept(g, init, st, ds, syms, parent, via, wait, 0, {}, depth)
  {
    Open(g, init, st, ds, syms, parent, via, wait, cur, seen, depth);
    forall i | 0 <= i < |ds| ensures EdgesDone(g, ds[i], i + 1 in wait, false, {}) {
      assert EdgesDone(g, ds[i], i + 1 in wait, i + 1 == cur, seen);
      if i + 1 == cur {
        assert Expected(g, ds[i].nfaStates) * seen == Expected(g, ds[i].nfaStates);
      }
    }
    Close(g, init, st, ds, syms, parent, via, wait, 0, {}, depth);
  }

  /** A symbol of `cur` whose move closes to nothing is passed over. */
  lemma {:induction false} SkipStep(g: Graph, init: nat, st: map<set<int>, nat>, ds: seq<DState>, syms: set<Code>,
                 parent: seq<nat>, via: seq<nat>, wait: seq<nat>, cur: nat, seen: set<Code>, T: set<nat>,
                 a: Code, M: set<nat>, depth: nat)
    requires 1 <= cur <= |ds| && ds[cur - 1].nfaStates == T
    requires Kept(g, init, st, ds, syms, parent, via, wait, cur, seen, depth) && cur != 0
    requires M == Closure(g, Move(g, T, a)) && M == {}
    ensures Kept(g, init, st, ds, syms, parent, via, wait, cur, seen + {a}, depth)
  {
    Open(g, init, st, ds, syms, parent, via, wait, cur, seen, depth);
    WorkSkip(g, ds, wait, cur, seen, a);
    Close(g, init, st, ds, syms, parent, via, wait, cur, seen + {a}, depth);
  }

  /** An edge from `cur` on `a` to the existing DFA state registered under the signature of the move's closure. */
  lemma {:induction false} ReuseStep(g: Graph, init: nat, st: map<set<int>, nat>, ds: seq<DState>, syms: set<Code>,
                  parent: seq<nat>, via: seq<nat>, wait: seq<nat>, cur: nat, seen: set<Code>, T: set<nat>,
                  a: Code, M: set<nat>, sig: set<int>, t: nat, depth: nat)
    requires 1 <= cur <= |ds| && ds[cur - 1].nfaStates == T
    requires a !in seen && a in Inputs(g, T)
    requires M == Closure(g, Move(g, T, a)) && M != {}
    requires sig == Signature(g, M) && sig in st && t == st[sig]
    requires Kept(g, init, st, ds, syms, parent, via, wait, cur, seen, depth)
    ensures 1 <= t <= |ds| && ds[t - 1].nfaStates == M
    ensures |AddEdgeTo(ds, cur, DEdge(a, t))| == |ds|
    ensures AddEdgeTo(ds, cur, DEdge(a, t))[cur - 1].nfaStates == T
    ensures Kept(g, init, st, AddEdgeTo(ds, cur, DEdge(a, t)), syms, parent, via, wait, cur, seen + {a}, depth)
  {
    Open(g, init, st, ds, syms, parent, via, wait, cur, seen, depth);
    var e := DEdge(a, t);
    ReuseEdgeOk(g, st, ds, M, sig, t);
    EdgeOkIntro(g, ds, ds[cur - 1].nfaStates, a, t, M);
    AddEdgeStep(g, init, st, ds, syms, wait, cur, seen, e);
    LinkedAddEdge(ds, parent, via, cur, e);
    Close(g, init, st, AddEdgeTo(ds, cur, e), syms, parent, via, wait, cur, seen + {a}, depth);
  }

  /** `convert_to` on the state being processed, for a symbol it expects and an edge that leads where it should. */
  lemma {:induction false} AddEdgeStep(g: Graph, init: nat, st: map<set<int>, nat>, ds: seq<DState>, syms: set<Code>,
                    wait: seq<nat>, cur: nat, seen: set<Code>, e: DEdge)
    requires 1 <= cur <= |ds|
    requires e.symbol !in seen && EdgeOk(g, ds, ds[cur - 1].nfaStates, e)
    requires Building(g, init, st, ds, syms, wait, cur, seen)
    ensures Building(g, init, st, AddEdgeTo(ds, cur, e), syms, wait, cur, seen + {e.symbol})
  {
    assert StateOk(g, ds[e.target - 1], e.target - 1);
    ExpectedIntro(g, ds, ds[cur - 1].nfaStates, e);
    StatesOkAddEdge(g, ds, cur, e);
    RegistryAddEdge(st, ds, cur, e);
    EdgesOkAddEdge(g, ds, cur, e);
    WorkAddEdge(g, ds, wait, cur, seen, e);
    DoneAddEdge(g, ds, wait, cur, e);
    FirstKept(ds, cur, e);
  }

  lemma {:induction false} EdgeOkIntro(g: Graph, ds: seq<DState>, T: set<nat>, a: Code, t: nat, M: set<nat>)
    requires 1 <= t <= |ds| && a in Inputs(g, T)
    requires ds[t - 1].nfaStates == M && M == Closure(g, Move(g, T, a))
    ensures EdgeOk(g, ds, T, DEdge(a, t))
  {
  }

  /** A symbol with an edge to a state holding some NFA states is one the state expects. */
  lemma {:induction false} ExpectedIntro(g: Graph, ds: seq<DState>, T: set<nat>, e: DEdge)
    requires EdgeOk(g, ds, T, e) && ds[e.target - 1].nfaStates != {}
    ensures e.symbol in Expected(g, T)
  {
  }

  /** With distinct state indices, the state registered under the signature of `M` holds exactly `M`. */
  lemma {:induction false} ReuseEdgeOk(g: Graph, st: map<set<int>, nat>, ds: seq<DState>, M: set<nat>, sig: set<int>, t: nat)
    requires DistinctIndices(g) && StatesOk(g, ds) && Registry(st, ds)
    requires InGraph(g, M) && sig == Signature(g, M) && sig in st && t == st[sig]
    ensures 1 <= t <= |ds| && ds[t - 1].nfaStates == M
  {
    RegistryAt(st, ds, sig);
    assert StateOk(g, ds[t - 1], t - 1);
    SignatureInjective(g, ds[t - 1].nfaStates, M);
  }

  lemma {:induction false} RegistryAt(st: map<set<int>, nat>, ds: seq<DState>, sig: set<int>)
    requires Registry(st, ds) && sig in st
    ensures 1 <= st[sig] <= |ds| && ds[st[sig] - 1].signature == sig
  {
  }

  /** A new DFA state `d` for a move whose closure `M` has an unseen signature, and the edge to it. */
  lemma {:induction false} NewStep(g: Graph, init: nat, st: map<set<int>, nat>, ds: seq<DState>, syms: set<Code>,
                parent: seq<nat>, via: seq<nat>, wait: seq<nat>, cur: nat, seen: set<Code>, T: set<nat>,
                a: Code, M: set<nat>, sig: set<int>, d: DState, k: nat, depth: nat)
    requires 1 <= cur <= |ds| && ds[cur - 1].nfaStates == T && k == |ds[cur - 1].outEdges|
    requires a !in seen && a in Inputs(g, T)
    requires M == Closure(g, Move(g, T, a)) && M != {}
    requires sig == Signature(g, M) && sig !in st && d == NewState(g, st, M, sig)
    requires Kept(g, init, st, ds, syms, parent, via, wait, cur, seen, depth)
    ensures |AddEdgeTo(ds + [d], cur, DEdge(a, d.stateIndex))| == |ds| + 1 && |wait + [d.stateIndex]| == |wait| + 1
    ensures AddEdgeTo(ds + [d], cur, DEdge(a, d.stateIndex))[cur - 1].nfaStates == T
    ensures Kept(g, init, st[sig := d.stateIndex], AddEdgeTo(ds + [d], cur, DEdge(a, d.stateIndex)), syms,
                     parent + [cur], via + [k], wait + [d.stateIndex], cur, seen + {a}, depth)
  {
    Open(g, init, st, ds, syms, parent, via, wait, cur, seen, depth);
    var n := d.stateIndex;
    assert n == |ds| + 1;
    var ds1, e := ds + [d], DEdge(a, n);
    var st1, wait1 := st[sig := n], wait + [n];
    assert StateOk(g, d, |ds|);
    CreateStep(g, init, st, ds, syms, wait, cur, seen, d, n);
    assert ds1[cur - 1] == ds[cur - 1] && ds1[n - 1] == d;
    EdgeOkIntro(g, ds1, ds1[cur - 1].nfaStates, a, n, M);
    AddEdgeStep(g, init, st1, ds1, syms, wait1, cur, seen, e);
    LinkedCreate(ds, parent, via, d, cur, a, n, k);
    Close(g, init, st1, AddEdgeTo(ds1, cur, e), syms, parent + [cur], via + [k], wait1, cur, seen + {a}, depth);
  }

  /** `_create_dfa_state` for an unseen signature: the new state joins the end of the worklist. */
  lemma {:induction false} CreateStep(g: Graph, init: nat, st: map<set<int>, nat>, ds: seq<DState>, syms: set<Code>,
                   wait: seq<nat>, cur: nat, seen: set<Code>, d: DState, n: nat)
    requires n == |ds| + 1 && StateOk(g, d, |ds|) && d.outEdges == [] && d.signature !in st
    requires Building(g, init, st, ds, syms, wait, cur, seen)
    ensures Building(g, init, st[d.signature := n], ds + [d], syms, wait + [n], cur, seen)
  {
    StatesOkCreate(g, ds, d);
    RegistryCreate(st, ds, d, n);
    EdgesOkCreate(g, ds, d);
    WorkCreate(g, ds, wait, cur, seen, d, n);
    DoneCreate(g, ds, wait, d, n);
    assert (ds + [d])[0] == ds[0];
  }

  /** No two DFA states stand for the same set of NFA states. */
  lemma {:induction false} ConfigsDistinct(g: Graph, st: map<set<int>, nat>, ds: seq<DState>)
    requires StatesOk(g, ds) && Registry(st, ds)
    ensures forall i, j :: 0 <= i < j < |ds| ==> ds[i].nfaStates != ds[j].nfaStates
  {
    forall i, j | 0 <= i < j < |ds| ensures ds[i].nfaStates != ds[j].nfaStates {
      assert StateOk(g, ds[i], i) && StateOk(g, ds[j], j);
      assert st[ds[i].signature] == i + 1 && st[ds[j].signature] == j + 1;
    }
  }

  lemma {:induction false} DistinctCount(ds: seq<DState>)
    requires forall i, j :: 0 <= i < j < |ds| ==> ds[i].nfaStates != ds[j].nfaStates
    ensures |Configs(ds)| == |ds|
  {
    if ds != [] {
      var p := ds[..|ds| - 1];
      DistinctCount(p);
      assert Configs(ds) == Configs(p) + {ds[|ds| - 1].nfaStates} by {
        forall T | T in Configs(ds) ensures T in Configs(p) + {ds[|ds| - 1].nfaStates} {
          var i :| 0 <= i < |ds| && T == ds[i].nfaStates;
          if i < |ds| - 1 { assert T == p[i].nfaStates; }
        }
        forall i | 0 <= i < |p| ensures p[i].nfaStates in Configs(ds) {
          assert p[i] == ds[i];
        }
      }
      assert ds[|ds| - 1].nfaStates !in Configs(p) by {
        forall i | 0 <= i < |p| ensures p[i].nfaStates != ds[|ds| - 1].nfaStates {
          assert p[i] == ds[i];
        }
      }
    }
  }

  /** The subset construction makes at most one DFA state per subset of the NFA's states. */
  lemma {:induction false} CountBound(g: Graph, st: map<set<int>, nat>, ds: seq<DState>)
    requires StatesOk(g, ds) && Registry(st, ds)
    ensures |ds| <= |Powerset(Addresses(g))|
  {
    ConfigsDistinct(g, st, ds);
    DistinctCount(ds);
    ConfigsBounded(g, ds);
    SubsetCard(Configs(ds), Powerset(Addresses(g)));
  }

  /**
   * The number of sets of NFA states, which bounds the number of DFA states,
   * at the depth given (see `Kept`).
   */
  ghost function StateBound(g: Graph, depth: nat): nat
    decreases depth, g
  {
    if depth > 0 then StateBound(g, depth - 1) else |Powerset(Addresses(g))|
  }

  lemma {:induction false} BoundAt(g: Graph, depth: nat)
    ensures StateBound(g, depth) == |Powerset(Addresses(g))|
    decreases depth
  {
    if depth > 0 {
      BoundAt(g, depth - 1);
    }
  }

  lemma {:induction false} Bounded(g: Graph, init: nat, st: map<set<int>, nat>, ds: seq<DState>, syms: set<Code>,
                parent: seq<nat>, via: seq<nat>, wait: seq<nat>, depth: nat)
    requires Kept(g, init, st, ds, syms, parent, via, wait, 0, {}, depth)
    ensures |ds| <= StateBound(g, depth)
  {
    Open(g, init, st, ds, syms, parent, via, wait, 0, {}, depth);
    CountBound(g, st, ds);
    BoundAt(g, depth);
  }

  /** All DFA states stand for sets of NFA states of the graph. */
  lemma {:induction false} ConfigsBounded(g: Graph, ds: seq<DState>)
    requires StatesOk(g, ds)
    ensures Configs(ds) <= Powerset(Addresses(g))
  {
    forall T | T in Configs(ds) ensures T <= Addresses(g) {
      var i :| 0 <= i < |ds| && T == ds[i].nfaStates;
      assert StateOk(g, ds[i], i);
    }
  }

  /** Adding the symbols of one more state to those collected. */
  lemma {:induction false} InputsAdd(g: Graph, D: set<nat>, s: nat)
    requires WellFormedGraph(g) && s < |g|
    ensures Inputs(g, D + {s}) == Inputs(g, D) + g[s].ValidInputs()
  {
    assert WellFormedState(g[s], |g|);
    forall a | a in g[s].ValidInputs() ensures a in Inputs(g, D + {s}) {
      var t :| Edge(Some(a), t) in g[s].outEdges;
      LabelOf(g[s], a, t);
    }
  }

  // ---------------------------------------------------------------------------
  // What `_build_model` builds
  // ---------------------------------------------------------------------------

  /** The input symbols of all the DFA states. */
  ghost function AllInputs(g: Graph, ds: seq<DState>): set<Code> {
    set i, a | 0 <= i < |ds| && a in Inputs(g, ds[i].nfaStates) :: a
  }

  /** Every DFA state but the first is entered by an edge of an earlier one. */
  ghost predicate Entered(ds: seq<DState>) {
    forall i :: 1 <= i < |ds| ==> EnteredFrom(ds, i)
  }

  /** Some edge of a DFA state before state `i + 1` leads to it. */
  ghost predicate EnteredFrom(ds: seq<DState>, i: nat) {
    exists j, k :: 0 <= j < i && j < |ds| && 0 <= k < |ds[j].outEdges| && ds[j].outEdges[k].target == i + 1
  }

  /**
   * The DFA `_build_model` leaves behind for the NFA `g` entered at `init`:
   * DFA state 1 holds the closure of `init`; each DFA state holds a
   * non-empty set of NFA states of its own, with their signature and
   * accepting token; each has one edge per input symbol whose move closes to
   * something, leading to the DFA state holding that closure, and no other
   * edge; every DFA state is entered from an earlier one; and `symbols` are
   * the input symbols of all of them.
   */
  ghost predicate Built(g: Graph, init: nat, ds: seq<DState>, symbols: set<Code>) {
    && |ds| >= 1 && ds[0].nfaStates == Closure(g, {init})
    && StatesOk(g, ds)
    && (forall i, j :: 0 <= i < j < |ds| ==> ds[i].nfaStates != ds[j].nfaStates)
    && EdgesOk(g, ds)
    && (forall i :: 0 <= i < |ds| ==> EdgesComplete(g, ds[i]))
    && symbols == AllInputs(g, ds)
    && Entered(ds)
  }

  /** A DFA state's edges carry distinct symbols, exactly the expected ones. */
  ghost predicate EdgesComplete(g: Graph, d: DState) {
    SymbolsDistinct(d.outEdges) && EdgeSymbols(d.outEdges) == Expected(g, d.nfaStates)
  }

  /** Once the worklist is empty, the construction has built the DFA. */
  lemma {:induction false} BuiltOf(g: Graph, init: nat, st: map<set<int>, nat>, ds: seq<DState>, syms: set<Code>,
                parent: seq<nat>, via: seq<nat>, depth: nat)
    requires Kept(g, init, st, ds, syms, parent, via, [], 0, {}, depth)
    ensures Built(g, init, ds, syms)
  {
    Open(g, init, st, ds, syms, parent, via, [], 0, {}, depth);
    ConfigsDistinct(g, st, ds);
    forall i | 0 <= i < |ds| ensures EdgesComplete(g, ds[i]) {
      assert EdgesDone(g, ds[i], i + 1 in [], i + 1 == 0, {});
    }
    DoneAll(g, ds);
    LinkedEntered(ds, parent, via);
  }

  lemma {:induction false} DoneAll(g: Graph, ds: seq<DState>)
    ensures DoneInputs(g, ds, []) == AllInputs(g, ds)
  {
  }

  lemma {:induction false} LinkedEntered(ds: seq<DState>, parent: seq<nat>, via: seq<nat>)
    requires Linked(ds, parent, via)
    ensures Entered(ds)
  {
    forall i | 1 <= i < |ds| ensures EnteredFrom(ds, i) {
      var j, k := parent[i] - 1, via[i];
      assert ds[j].outEdges[k].target == i + 1;
    }
  }

  // ---------------------------------------------------------------------------
  // Runs: the DFA simulates the NFA on sets of states
  // ---------------------------------------------------------------------------

  /** `_move_and_closure(T, a)`: where one input symbol leads the NFA states `T`. */
  ghost function Step(g: Graph, T: set<nat>, a: Code): set<nat> {
    Closure(g, Move(g, T, a))
  }

  /** The NFA states a word leads `T` to, one symbol at a time. */
  ghost function NfaRun(g: Graph, T: set<nat>, w: Text): set<nat>
    decreases |w|
  {
    if w == [] then T else NfaRun(g, Step(g, T, w[0]), w[1..])
  }

  /** Where the edges `es` lead on `a`: the target of the last edge labelled `a`, or 0, the dead state. */
  function EdgeTarget(es: seq<DEdge>, a: Code): nat {
    if es == [] then 0
    else if es[|es| - 1].symbol == a then es[|es| - 1].target
    else EdgeTarget(es[..|es| - 1], a)
  }

  /** The DFA state that `a` leads DFA state `i` to; the dead state 0, and any index out of range, lead to 0. */
  function Next(ds: seq<DState>, i: nat, a: Code): nat {
    if 1 <= i <= |ds| then EdgeTarget(ds[i - 1].outEdges, a) else 0
  }

  /** The DFA state a word leads DFA state `i` to. */
  function DfaRun(ds: seq<DState>, i: nat, w: Text): nat
    decreases |w|
  {
    if w == [] then i else DfaRun(ds, Next(ds, i, w[0]), w[1..])
  }

  /** With distinct symbols, the edge labelled `a` is the one `EdgeTarget` follows; without one, it yields 0. */
  lemma {:induction false} EdgeTargetOf(es: seq<DEdge>, a: Code)
    requires SymbolsDistinct(es)
    ensures a !in EdgeSymbols(es) ==> EdgeTarget(es, a) == 0
    ensures forall k :: 0 <= k < |es| && es[k].symbol == a ==> EdgeTarget(es, a) == es[k].target
    decreases |es|
  {
    if es != [] {
      var p := es[..|es| - 1];
      assert forall k :: 0 <= k < |p| ==> p[k] == es[k];
      assert SymbolsDistinct(p);
      EdgeTargetOf(p, a);
      assert forall e :: e in p ==> e in es;
      assert es[|es| - 1] in es;
    }
  }

  /** Nothing leads nowhere: the empty set of NFA states stays empty. */
  lemma {:induction false} NfaRunEmpty(g: Graph, w: Text)
    ensures NfaRun(g, {}, w) == {}
    decreases |w|
  {
    if w != [] {
      assert Move(g, {}, w[0]) == {};
      assert Closure(g, {}) == {};
      NfaRunEmpty(g, w[1..]);
    }
  }

  /** The NFA states DFA state `j` holds; the dead state 0 holds none. */
  ghost function Holds(ds: seq<DState>, j: nat): set<nat> {
    if 1 <= j <= |ds| then ds[j - 1].nfaStates else {}
  }

  /** On `a`, DFA state `i` leads to the DFA state holding the closure of the move of its NFA states. */
  ghost predicate StepAgrees(g: Graph, ds: seq<DState>, i: nat, a: Code) {
    Next(ds, i, a) <= |ds| && Holds(ds, Next(ds, i, a)) == Step(g, Holds(ds, i), a)
  }

  /** Every DFA state, the dead one included, agrees with the subset step on every symbol. */
  ghost predicate StepsAgree(g: Graph, ds: seq<DState>) {
    forall i, a :: 0 <= i <= |ds| ==> StepAgrees(g, ds, i, a)
  }

  /** The DFA that `_build_model` leaves agrees with the subset step everywhere. */
  lemma {:induction false} AllStepsAgree(g: Graph, ds: seq<DState>)
    requires StatesOk(g, ds) && EdgesOk(g, ds) && (forall r :: 0 <= r < |ds| ==> EdgesComplete(g, ds[r]))
    ensures StepsAgree(g, ds)
  {
    forall i, a | 0 <= i <= |ds| ensures StepAgrees(g, ds, i, a) {
      if i == 0 {
        assert Move(g, {}, a) == {};
        assert Closure(g, {}) == {};
      } else {
        NextStep(g, ds, i, a);
      }
    }
  }

  /** One symbol: the DFA edge (or its absence) agrees with the closure of the move. */
  lemma {:induction false} NextStep(g: Graph, ds: seq<DState>, i: nat, a: Code)
    requires EdgesOk(g, ds) && 1 <= i <= |ds| && EdgesComplete(g, ds[i - 1])
    ensures var j := Next(ds, i, a);
      && (j == 0 <==> Step(g, ds[i - 1].nfaStates, a) == {})
      && (j != 0 ==> 1 <= j <= |ds| && ds[j - 1].nfaStates == Step(g, ds[i - 1].nfaStates, a))
  {
    var d := ds[i - 1];
    var T := d.nfaStates;
    assert EdgesComplete(g, d);
    EdgeTargetOf(d.outEdges, a);
    if a in Expected(g, T) {
      var e :| e in d.outEdges && e.symbol == a;
      var k :| 0 <= k < |d.outEdges| && d.outEdges[k] == e;
      assert EdgeOk(g, ds, T, d.outEdges[k]);
    } else {
      MoveOnInputs(g, T, a);
      assert Move(g, T, a) == {} ==> Closure(g, Move(g, T, a)) == {};
    }
  }

  /**
   * The subset construction is sound and complete: from any DFA state, a
   * word leads to the DFA state holding the NFA states it leads the NFA
   * states of the first one to, or to the dead state when it leads them
   * nowhere.
   */
  lemma {:induction false} RunsAgree(g: Graph, ds: seq<DState>, i: nat, w: Text)
    requires StepsAgree(g, ds) && i <= |ds|
    ensures DfaRun(ds, i, w) <= |ds| && Holds(ds, DfaRun(ds, i, w)) == NfaRun(g, Holds(ds, i), w)
    decreases |w|
  {
    if w != [] {
      assert StepAgrees(g, ds, i, w[0]);
      RunsAgree(g, ds, Next(ds, i, w[0]), w[1..]);
    }
  }

  /** The dead state has no way out. */
  lemma {:induction false} DeadStays(ds: seq<DState>, w: Text)
    ensures DfaRun(ds, 0, w) == 0
    decreases |w|
  {
    if w != [] {
      DeadStays(ds, w[1..]);
    }
  }

  /** From DFA state 1, the DFA tracks the NFA started in the closure of its init state. */
  lemma {:induction false} FromStart(g: Graph, init: nat, ds: seq<DState>, symbols: set<Code>, w: Text)
    requires Built(g, init, ds, symbols)
    ensures var j := DfaRun(ds, 1, w);
      && (j == 0 <==> NfaRun(g, Closure(g, {init}), w) == {})
      && (j != 0 ==> 1 <= j <= |ds| && ds[j - 1].nfaStates == NfaRun(g, Closure(g, {init}), w))
  {
    assert Holds(ds, 1) == Closure(g, {init});
    AllStepsAgree(g, ds);
    RunsAgree(g, ds, 1, w);
    var j := DfaRun(ds, 1, w);
    if j != 0 {
      assert StateOk(g, ds[j - 1], j - 1);
    }
  }

  // ---------------------------------------------------------------------------
  // The transition and accept tables
  // ---------------------------------------------------------------------------

  /** `[0] * n`. */
  function Zeros(n: nat): (z: seq<int>)
    ensures |z| == n && forall c :: 0 <= c < n ==> z[c] == 0
  {
    seq(n, _ => 0)
  }

  /** Every edge symbol is a column of a table `width` wide. */
  ghost predicate SymbolsFit(es: seq<DEdge>, width: nat) {
    forall k :: 0 <= k < |es| ==> es[k].symbol < width
  }

  /** The row `helper` leaves for a DFA state with edges `es`: zeros, then `row[e.symbol] = e.target`, edge by edge. */
  function Row(es: seq<DEdge>, width: nat): (r: seq<int>)
    requires SymbolsFit(es, width)
    ensures |r| == width
  {
    if es == [] then Zeros(width)
    else
      var e := es[|es| - 1];
      Row(es[..|es| - 1], width)[e.symbol := e.target]
  }

  /** Each cell of a row is where the state's edges lead on that column's symbol. */
  lemma {:induction false} RowCells(es: seq<DEdge>, width: nat)
    requires SymbolsFit(es, width)
    ensures forall c :: 0 <= c < width ==> Row(es, width)[c] == EdgeTarget(es, c)
    decreases |es|
  {
    if es != [] {
      RowCells(es[..|es| - 1], width);
    }
  }

  /** Every edge of every DFA state leads to a DFA state and carries a symbol that fits. */
  ghost predicate EdgesFit(ds: seq<DState>, width: nat) {
    forall i :: 0 <= i < |ds| ==> SymbolsFit(ds[i].outEdges, width) && TargetsIn(ds, ds[i].outEdges)
  }

  ghost predicate TargetsIn(ds: seq<DState>, es: seq<DEdge>) {
    forall k :: 0 <= k < |es| ==> 1 <= es[k].target <= |ds|
  }

  /** The transition table: row 0, the dead state, all zeros; row `i` the row of DFA state `i`. */
  function Table(ds: seq<DState>, width: nat): (t: seq<seq<int>>)
    requires EdgesFit(ds, width)
    ensures |t| == |ds| + 1
  {
    [Zeros(width)] + seq(|ds|, i requires 0 <= i < |ds| && EdgesFit(ds, width) => Row(ds[i].outEdges, width))
  }

  /** The accept table: -1 for the dead state, then each DFA state's token index. */
  function Accepts(ds: seq<DState>): (a: seq<int>)
    ensures |a| == |ds| + 1
  {
    [-1] + seq(|ds|, i requires 0 <= i < |ds| => ds[i].tokenIndex)
  }

  /** The tables `_build_transition_table` leaves for the DFA states `ds` with input symbols `syms`. */
  ghost predicate Tables(ds: seq<DState>, syms: set<Code>, table: seq<seq<int>>, accept: seq<int>) {
    syms != {} && TablesOf(ds, MaxOf(syms) + 1, table, accept)
  }

  /** The tables for the DFA states `ds`, `width` columns wide. */
  ghost predicate TablesOf(ds: seq<DState>, width: nat, table: seq<seq<int>>, accept: seq<int>) {
    EdgesFit(ds, width) && table == Table(ds, width) && accept == Accepts(ds)
  }

  /** The tables hold the DFA: every cell is the `Next` state, every accept entry the state's token. */
  lemma {:induction false} TableMeaning(ds: seq<DState>, width: nat)
    requires EdgesFit(ds, width)
    ensures forall i :: 0 <= i <= |ds| ==> |Table(ds, width)[i]| == width
    ensures forall i, c :: 0 <= i <= |ds| && 0 <= c < width ==> Table(ds, width)[i][c] == Next(ds, i, c)
    ensures Accepts(ds)[0] == -1 && forall i :: 1 <= i <= |ds| ==> Accepts(ds)[i] == ds[i - 1].tokenIndex
  {
    var t := Table(ds, width);
    forall i, c | 0 <= i <= |ds| && 0 <= c < width ensures |t[i]| == width && t[i][c] == Next(ds, i, c) {
      if i > 0 {
        RowCells(ds[i - 1].outEdges, width);
      }
    }
  }

  /** What the table builder needs of the finished construction. */
  lemma {:induction false} TableFacts(g: Graph, init: nat, st: map<set<int>, nat>, ds: seq<DState>, syms: set<Code>,
                   parent: seq<nat>, via: seq<nat>, depth: nat)
    requires Kept(g, init, st, ds, syms, parent, via, [], 0, {}, depth)
    ensures |st| == |ds| && |ds| >= 1 && Entered(ds)
    ensures forall i, k :: 0 <= i < |ds| && 0 <= k < |ds[i].outEdges| ==>
      1 <= ds[i].outEdges[k].target <= |ds| && ds[i].outEdges[k].symbol in syms
  {
    Open(g, init, st, ds, syms, parent, via, [], 0, {}, depth);
    LinkedEntered(ds, parent, via);
    forall i, k | 0 <= i < |ds| && 0 <= k < |ds[i].outEdges|
      ensures 1 <= ds[i].outEdges[k].target <= |ds| && ds[i].outEdges[k].symbol in syms
    {
      assert EdgeOk(g, ds, ds[i].nfaStates, ds[i].outEdges[k]);
      assert i + 1 !in [];
    }
  }

  /** With `width` one more than the greatest symbol collected, every edge fits. */
  lemma {:induction false} SymbolsBelow(ds: seq<DState>, syms: set<Code>, width: nat)
    requires syms != {} && width == MaxOf(syms) + 1
    requires forall i, k :: 0 <= i < |ds| && 0 <= k < |ds[i].outEdges| ==>
      1 <= ds[i].outEdges[k].target <= |ds| && ds[i].outEdges[k].symbol in syms
    ensures EdgesFit(ds, width)
  {
  }

  /** `max(s)`: the greatest member of a non-empty set. */
  function MaxOf(s: set<Code>): (m: Code)
    requires s != {}
    ensures m in s && forall x :: x in s ==> x <= m
  {
    HasMax(s);
    var m :| IsMax(s, m); m
  }

  predicate IsMax(s: set<Code>, m: Code) {
    m in s && forall x :: x in s ==> x <= m
  }

  lemma {:induction false} HasMax(s: set<Code>)
    requires s != {}
    ensures exists m :: IsMax(s, m)
    decreases |s|
  {
    var y :| y in s;
    if s == {y} {
      assert IsMax(s, y);
    } else {
      HasMax(s - {y});
      var m' :| IsMax(s - {y}, m');
      var m := if m' < y then y else m';
      forall x | x in s ensures x <= m {
        if x != y { assert x in s - {y}; }
      }
      assert IsMax(s, m);
    }
  }

  // ---------------------------------------------------------------------------
  // The depth-first `helper` of `_build_transition_table`
  // ---------------------------------------------------------------------------

  /**
   * The tables `_build_transition_table` makes for the DFA states `ds`, with
   * `width` columns: one row per DFA state plus row 0 for the dead state, all
   * zeros, and the accept table all -1; then the recursive `helper` walks the
   * DFA depth first from state 1, filling in each state's token and, edge by
   * edge, its row.  The walk keeps its pending calls on `stack`.
   */
  method FillTables(ds: seq<DState>, width: nat) returns (table: seq<seq<int>>, accept: seq<int>)
    requires |ds| >= 1 && EdgesFit(ds, width) && Entered(ds)
    ensures TablesOf(ds, width, table, accept)
  {
    table := seq(|ds| + 1, _ => Zeros(width));
    accept := seq(|table|, _ => -1);
    // helper(init_state): the initial state is not visited yet
    var visited: set<nat> := {1};
    accept := accept[1 := ds[0].tokenIndex];
    var stack: seq<Frame> := [Frame(1, 0)];
    ghost var depth: nat :| depth > 0;
    DfsStart(ds, width, table, accept, visited, stack, depth);
    while stack != []
      invariant Dfs(ds, width, table, accept, visited, stack, depth)
      decreases |Below(|ds| + 1) - visited|, Pending(ds, stack), |stack|
    {
      table, accept, visited, stack := DfsStep(ds, width, table, accept, visited, stack, depth);
    }
    DfsDone(ds, width, table, accept, visited, depth);
  }

  /**
   * One step of the walk: the innermost pending call either returns, having
   * gone through all its edges, or writes the cell of its next edge and, when
   * that edge leads to a state not visited yet, calls `helper` on it.
   */
  method DfsStep(ds: seq<DState>, width: nat, table: seq<seq<int>>, accept: seq<int>, visited: set<nat>,
                 stack: seq<Frame>, ghost depth: nat)
    returns (table': seq<seq<int>>, accept': seq<int>, visited': set<nat>, stack': seq<Frame>)
    requires Dfs(ds, width, table, accept, visited, stack, depth) && stack != []
    ensures Dfs(ds, width, table', accept', visited', stack', depth)
    ensures WalkDown(ds, visited, stack, visited', stack')
  {
    table', accept', visited', stack' := table, accept, visited, stack;
    var top := stack[|stack| - 1];
    DfsTop(ds, width, table, accept, visited, stack, depth);
    var es := ds[top.state - 1].outEdges;
    if top.next == |es| {
      // the helper call for `top.state` returns
      stack' := stack[..|stack| - 1];
      DfsReturn(ds, width, table, accept, visited, stack, stack', depth);
    } else {
      var e := es[top.next];
      table' := table[top.state := table[top.state][e.symbol := e.target]];
      var s1 := stack[..|stack| - 1] + [Frame(top.state, top.next + 1)];
      if e.target in visited {
        stack' := s1;
        DfsEdgeSeen(ds, width, table, accept, visited, stack, top.state, top.next, table', stack', depth);
      } else {
        // helper(edge.linked_state) on a state not visited yet
        visited' := visited + {e.target};
        accept' := accept[e.target := ds[e.target - 1].tokenIndex];
        stack' := s1 + [Frame(e.target, 0)];
        DfsEdgeNew(ds, width, table, accept, visited, stack, top.state, top.next, table', accept', visited', s1, stack', depth);
      }
    }
  }

  /** The walk's measure goes down: fewer states left to visit, or fewer edges left to go through, or fewer pending calls. */
  ghost predicate WalkDown(ds: seq<DState>, visited: set<nat>, stack: seq<Frame>, visited': set<nat>, stack': seq<Frame>) {
    || |Below(|ds| + 1) - visited'| < |Below(|ds| + 1) - visited|
    || (visited' == visited && Pending(ds, stack') < Pending(ds, stack))
    || (visited' == visited && Pending(ds, stack') == Pending(ds, stack) && |stack'| < |stack|)
  }

  /** A pending call `helper(state)`, at the edge `next` of its loop. */
  datatype Frame = Frame(state: nat, next: nat)

  /** The states of the pending calls. */
  ghost function FrameStates(stack: seq<Frame>): set<nat>
    decreases |stack|
  {
    if stack == [] then {} else FrameStates(stack[..|stack| - 1]) + {stack[|stack| - 1].state}
  }

  /** No DFA state has two pending calls. */
  ghost predicate Distinct(stack: seq<Frame>)
    decreases |stack|
  {
    stack == [] || (Distinct(stack[..|stack| - 1]) && stack[|stack| - 1].state !in FrameStates(stack[..|stack| - 1]))
  }

  /** The edges the pending calls still have to go through. */
  ghost function Pending(ds: seq<DState>, stack: seq<Frame>): nat
    decreases |stack|
  {
    if stack == [] then 0 else Pending(ds, stack[..|stack| - 1]) + Left(ds, stack[|stack| - 1])
  }

  ghost function Left(ds: seq<DState>, f: Frame): nat {
    if 1 <= f.state <= |ds| && f.next <= |ds[f.state - 1].outEdges| then |ds[f.state - 1].outEdges| - f.next else 0
  }

  lemma {:induction false} StackPush(ds: seq<DState>, stack: seq<Frame>, f: Frame)
    ensures FrameStates(stack + [f]) == FrameStates(stack) + {f.state}
    ensures Distinct(stack + [f]) <==> Distinct(stack) && f.state !in FrameStates(stack)
    ensures Pending(ds, stack + [f]) == Pending(ds, stack) + Left(ds, f)
  {
    assert (stack + [f])[..|stack|] == stack;
  }

  lemma {:induction false} OnStack(stack: seq<Frame>, j: nat)
    requires j < |stack|
    ensures stack[j].state in FrameStates(stack)
    decreases |stack|
  {
    if j < |stack| - 1 {
      OnStack(stack[..|stack| - 1], j);
    }
  }

  /** A pending call: its row holds its first `next` edges, whose targets are visited. */
  ghost predicate FrameOk(ds: seq<DState>, width: nat, table: seq<seq<int>>, visited: set<nat>, f: Frame)
    requires EdgesFit(ds, width) && |table| == |ds| + 1
  {
    && 1 <= f.state <= |ds| && f.state in visited
    && f.next <= |ds[f.state - 1].outEdges|
    && SymbolsFit(ds[f.state - 1].outEdges[..f.next], width)
    && table[f.state] == Row(ds[f.state - 1].outEdges[..f.next], width)
    && TargetsAllIn(ds[f.state - 1].outEdges, f.next, visited)
  }

  /**
   * Row `r` of the tables part way through the walk: a visited state has its
   * token; a state not visited has its row as it was made; a visited state
   * with no pending call has its row complete and its targets visited.
   */
  ghost predicate RowInv(ds: seq<DState>, width: nat, table: seq<seq<int>>, accept: seq<int>, visited: set<nat>,
                         stack: seq<Frame>, r: nat)
    requires EdgesFit(ds, width) && |table| == |accept| == |ds| + 1 && 1 <= r <= |ds|
  {
    && accept[r] == (if r in visited then ds[r - 1].tokenIndex else -1)
    && (r !in visited ==> table[r] == Zeros(width))
    && (r in visited && r !in FrameStates(stack) ==> RowDone(ds, width, table, visited, r))
  }

  /** The tables part way through the walk, with the calls in `stack` pending. */
  ghost predicate DfsState(ds: seq<DState>, width: nat, table: seq<seq<int>>, accept: seq<int>, visited: set<nat>, stack: seq<Frame>) {
    && |ds| >= 1 && EdgesFit(ds, width)
    && |table| == |ds| + 1 && |accept| == |ds| + 1
    && 1 in visited && (forall r :: r in visited ==> 1 <= r <= |ds|)
    && accept[0] == -1 && table[0] == Zeros(width)
    && (forall r :: 1 <= r <= |ds| ==> RowInv(ds, width, table, accept, visited, stack, r))
    && (forall j :: 0 <= j < |stack| ==> FrameOk(ds, width, table, visited, stack[j]))
    && Distinct(stack) && FrameStates(stack) <= visited
  }

  /** `DfsState`, sealed at `depth` as `Kept` is. */
  ghost predicate Dfs(ds: seq<DState>, width: nat, table: seq<seq<int>>, accept: seq<int>, visited: set<nat>,
                      stack: seq<Frame>, depth: nat)
    decreases depth, ds
  {
    if depth > 0 then Dfs(ds, width, table, accept, visited, stack, depth - 1)
    else DfsState(ds, width, table, accept, visited, stack)
  }

  lemma {:induction false} OpenDfs(ds: seq<DState>, width: nat, table: seq<seq<int>>, accept: seq<int>, visited: set<nat>,
                                   stack: seq<Frame>, depth: nat)
    requires Dfs(ds, width, table, accept, visited, stack, depth)
    ensures DfsState(ds, width, table, accept, visited, stack)
    decreases depth
  {
    if depth > 0 {
      OpenDfs(ds, width, table, accept, visited, stack, depth - 1);
    }
  }

  lemma {:induction false} CloseDfs(ds: seq<DState>, width: nat, table: seq<seq<int>>, accept: seq<int>, visited: set<nat>,
                                    stack: seq<Frame>, depth: nat)
    requires DfsState(ds, width, table, accept, visited, stack)
    ensures Dfs(ds, width, table, accept, visited, stack, depth)
    decreases depth
  {
    if depth > 0 {
      CloseDfs(ds, width, table, accept, visited, stack, depth - 1);
    }
  }

  /** A finished call: its row is complete and the states its edges lead to are visited. */
  ghost predicate RowDone(ds: seq<DState>, width: nat, table: seq<seq<int>>, visited: set<nat>, r: nat)
    requires EdgesFit(ds, width) && |table| == |ds| + 1
  {
    && 1 <= r <= |ds|
    && table[r] == Row(ds[r - 1].outEdges, width)
    && TargetsVisited(ds, visited, r)
  }

  /** The tables as made, and the call `helper(init_state)` entered. */
  lemma {:induction false} DfsStart(ds: seq<DState>, width: nat, table: seq<seq<int>>, accept: seq<int>, visited: set<nat>, stack: seq<Frame>, depth: nat)
    requires |ds| >= 1 && EdgesFit(ds, width)
    requires |table| == |ds| + 1 && forall r :: 0 <= r < |table| ==> table[r] == Zeros(width)
    requires |accept| == |ds| + 1 && forall r :: 0 <= r < |accept| ==> accept[r] == if r == 1 then ds[0].tokenIndex else -1
    requires visited == {1} && stack == [Frame(1, 0)]
    ensures Dfs(ds, width, table, accept, visited, stack, depth)
  {
    assert ds[0].outEdges[..0] == [];
    StackPush(ds, [], Frame(1, 0));
    assert [] + [Frame(1, 0)] == stack;
    CloseDfs(ds, width, table, accept, visited, stack, depth);
  }

  /** The innermost pending call is at an edge of a DFA state, or past its last one. */
  lemma {:induction false} DfsTop(ds: seq<DState>, width: nat, table: seq<seq<int>>, accept: seq<int>, visited: set<nat>, stack: seq<Frame>, depth: nat)
    requires Dfs(ds, width, table, accept, visited, stack, depth) && stack != []
    ensures var f := stack[|stack| - 1];
      && 1 <= f.state <= |ds| && f.next <= |ds[f.state - 1].outEdges|
      && |table| == |accept| == |ds| + 1 && |table[f.state]| == width
      && SymbolsFit(ds[f.state - 1].outEdges, width) && TargetsIn(ds, ds[f.state - 1].outEdges)
  {
    OpenDfs(ds, width, table, accept, visited, stack, depth);
    assert FrameOk(ds, width, table, visited, stack[|stack| - 1]);
  }

  /** The innermost call returns once its edges are done: its row is complete. */
  lemma {:induction false} DfsReturn(ds: seq<DState>, width: nat, table: seq<seq<int>>, accept: seq<int>, visited: set<nat>,
                  s0: seq<Frame>, stack: seq<Frame>, depth: nat)
    requires Dfs(ds, width, table, accept, visited, s0, depth) && s0 != [] && stack == s0[..|s0| - 1]
    requires 1 <= s0[|s0| - 1].state <= |ds| && s0[|s0| - 1].next == |ds[s0[|s0| - 1].state - 1].outEdges|
    ensures Dfs(ds, width, table, accept, visited, stack, depth)
    ensures Pending(ds, stack) == Pending(ds, s0) && |stack| < |s0|
  {
    OpenDfs(ds, width, table, accept, visited, s0, depth);
    var f := s0[|s0| - 1];
    assert s0 == stack + [f];
    StackPush(ds, stack, f);
    FrameFinished(ds, width, table, visited, f);
    forall j | 0 <= j < |stack| ensures FrameOk(ds, width, table, visited, stack[j]) {
      assert stack[j] == s0[j];
    }
    forall r | 1 <= r <= |ds| ensures RowInv(ds, width, table, accept, visited, stack, r) {
      assert RowInv(ds, width, table, accept, visited, s0, r);
    }
    CloseDfs(ds, width, table, accept, visited, stack, depth);
  }

  /** A pending call past its last edge has its row complete. */
  lemma {:induction false} FrameFinished(ds: seq<DState>, width: nat, table: seq<seq<int>>, visited: set<nat>, f: Frame)
    requires EdgesFit(ds, width) && |table| == |ds| + 1 && FrameOk(ds, width, table, visited, f)
    requires f.next == |ds[f.state - 1].outEdges|
    ensures RowDone(ds, width, table, visited, f.state)
  {
    assert ds[f.state - 1].outEdges[..f.next] == ds[f.state - 1].outEdges;
  }

  /** `row[e.symbol] = e.target` for one more edge. */
  lemma {:induction false} RowStep(es: seq<DEdge>, k: nat, width: nat)
    requires SymbolsFit(es, width) && k < |es|
    ensures SymbolsFit(es[..k], width) && SymbolsFit(es[..k + 1], width)
    ensures Row(es[..k + 1], width) == Row(es[..k], width)[es[k].symbol := es[k].target]
  {
    assert es[..k + 1][..k] == es[..k];
  }

  /** The innermost call writes the cell of its next edge, whose target is visited already. */
  lemma {:induction false} DfsEdgeSeen(ds: seq<DState>, width: nat, t0: seq<seq<int>>, accept: seq<int>, visited: set<nat>,
                    s0: seq<Frame>, s: nat, k: nat, table: seq<seq<int>>, stack: seq<Frame>, depth: nat)
    requires Dfs(ds, width, t0, accept, visited, s0, depth) && s0 != [] && s0[|s0| - 1] == Frame(s, k)
    requires 1 <= s <= |ds| && k < |ds[s - 1].outEdges| && ds[s - 1].outEdges[k].target in visited
    requires |t0| == |ds| + 1 && |t0[s]| == width && SymbolsFit(ds[s - 1].outEdges, width)
    requires table == t0[s := t0[s][ds[s - 1].outEdges[k].symbol := ds[s - 1].outEdges[k].target]]
    requires stack == s0[..|s0| - 1] + [Frame(s, k + 1)]
    ensures Dfs(ds, width, table, accept, visited, stack, depth) && Pending(ds, stack) < Pending(ds, s0)
  {
    OpenDfs(ds, width, t0, accept, visited, s0, depth);
    DfsWrite(ds, width, t0, accept, visited, s0, s, k, table, stack);
    assert FrameOk(ds, width, table, visited, Frame(s, k + 1));
    assert stack[|stack| - 1] == Frame(s, k + 1);
    CloseDfs(ds, width, table, accept, visited, stack, depth);
  }

  /** The cell write itself: everything but the innermost frame's last target is as `Dfs` wants it. */
  lemma {:induction false} DfsWrite(ds: seq<DState>, width: nat, t0: seq<seq<int>>, accept: seq<int>, visited: set<nat>,
                 s0: seq<Frame>, s: nat, k: nat, table: seq<seq<int>>, stack: seq<Frame>)
    requires DfsState(ds, width, t0, accept, visited, s0) && s0 != [] && s0[|s0| - 1] == Frame(s, k)
    requires 1 <= s <= |ds| && k < |ds[s - 1].outEdges|
    requires table == t0[s := t0[s][ds[s - 1].outEdges[k].symbol := ds[s - 1].outEdges[k].target]]
    requires stack == s0[..|s0| - 1] + [Frame(s, k + 1)]
    ensures |ds| >= 1 && EdgesFit(ds, width) && |table| == |accept| == |ds| + 1
    ensures 1 in visited && (forall r :: r in visited ==> 1 <= r <= |ds|)
    ensures accept[0] == -1 && table[0] == Zeros(width)
    ensures s in visited && SymbolsFit(ds[s - 1].outEdges[..k + 1], width)
    ensures table[s] == Row(ds[s - 1].outEdges[..k + 1], width)
    ensures TargetsAllIn(ds[s - 1].outEdges, k, visited)
    ensures FrameStates(stack) == FrameStates(s0) && Distinct(stack)
    ensures forall j :: 0 <= j < |stack| - 1 ==> FrameOk(ds, width, table, visited, stack[j])
    ensures forall r :: 1 <= r <= |ds| ==> RowInv(ds, width, table, accept, visited, stack, r)
    ensures Pending(ds, stack) < Pending(ds, s0)
  {
    var rest := s0[..|s0| - 1];
    assert s0 == rest + [Frame(s, k)];
    StackPush(ds, rest, Frame(s, k));
    StackPush(ds, rest, Frame(s, k + 1));
    assert FrameOk(ds, width, t0, visited, s0[|s0| - 1]);
    RowStep(ds[s - 1].outEdges, k, width);
    DfsWriteFrames(ds, width, t0, visited, rest, s, table, stack);
    DfsWriteRows(ds, width, t0, accept, visited, s0, s, table, stack);
  }

  /** Writing the row of a pending call leaves every row in order. */
  lemma {:induction false} DfsWriteRows(ds: seq<DState>, width: nat, t0: seq<seq<int>>, accept: seq<int>, visited: set<nat>,
                     s0: seq<Frame>, s: nat, table: seq<seq<int>>, stack: seq<Frame>)
    requires EdgesFit(ds, width) && |t0| == |accept| == |ds| + 1 && s in FrameStates(s0) && FrameStates(s0) <= visited
    requires |table| == |t0| && forall r :: 0 <= r < |t0| && r != s ==> table[r] == t0[r]
    requires FrameStates(stack) == FrameStates(s0)
    requires forall r :: 1 <= r <= |ds| ==> RowInv(ds, width, t0, accept, visited, s0, r)
    ensures forall r :: 1 <= r <= |ds| ==> RowInv(ds, width, table, accept, visited, stack, r)
  {
    forall r | 1 <= r <= |ds| ensures RowInv(ds, width, table, accept, visited, stack, r) {
      assert RowInv(ds, width, t0, accept, visited, s0, r);
    }
  }

  /** Writing row `s` leaves the other pending calls' rows alone. */
  lemma {:induction false} DfsWriteFrames(ds: seq<DState>, width: nat, t0: seq<seq<int>>, visited: set<nat>, rest: seq<Frame>,
                       s: nat, table: seq<seq<int>>, stack: seq<Frame>)
    requires EdgesFit(ds, width) && |t0| == |ds| + 1 && s !in FrameStates(rest)
    requires |table| == |t0| && forall r :: 0 <= r < |t0| && r != s ==> table[r] == t0[r]
    requires forall j :: 0 <= j < |rest| ==> FrameOk(ds, width, t0, visited, rest[j])
    requires |stack| == |rest| + 1 && stack[..|rest|] == rest
    ensures forall j :: 0 <= j < |stack| - 1 ==> FrameOk(ds, width, table, visited, stack[j])
  {
    forall j | 0 <= j < |stack| - 1 ensures FrameOk(ds, width, table, visited, stack[j]) {
      OnStack(rest, j);
      assert stack[j] == rest[j];
      assert FrameOk(ds, width, t0, visited, rest[j]);
    }
  }

  /** The innermost call writes the cell of its next edge and calls `helper` on a state not visited yet. */
  lemma {:induction false} DfsEdgeNew(ds: seq<DState>, width: nat, t0: seq<seq<int>>, a0: seq<int>, v0: set<nat>,
                   s0: seq<Frame>, s: nat, k: nat, table: seq<seq<int>>, accept: seq<int>, visited: set<nat>,
                   s1: seq<Frame>, stack: seq<Frame>, depth: nat)
    requires Dfs(ds, width, t0, a0, v0, s0, depth) && s0 != [] && s0[|s0| - 1] == Frame(s, k)
    requires 1 <= s <= |ds| && k < |ds[s - 1].outEdges| && ds[s - 1].outEdges[k].target !in v0
    requires |t0| == |a0| == |ds| + 1 && |t0[s]| == width && SymbolsFit(ds[s - 1].outEdges, width)
    requires 1 <= ds[s - 1].outEdges[k].target <= |ds|
    requires table == t0[s := t0[s][ds[s - 1].outEdges[k].symbol := ds[s - 1].outEdges[k].target]]
    requires s1 == s0[..|s0| - 1] + [Frame(s, k + 1)]
    requires visited == v0 + {ds[s - 1].outEdges[k].target}
    requires accept == a0[ds[s - 1].outEdges[k].target := ds[ds[s - 1].outEdges[k].target - 1].tokenIndex]
    requires stack == s1 + [Frame(ds[s - 1].outEdges[k].target, 0)]
    ensures Dfs(ds, width, table, accept, visited, stack, depth)
    ensures |Below(|ds| + 1) - visited| < |Below(|ds| + 1) - v0|
  {
    OpenDfs(ds, width, t0, a0, v0, s0, depth);
    var t := ds[s - 1].outEdges[k].target;
    DfsWrite(ds, width, t0, a0, v0, s0, s, k, table, s1);
    assert FrameOk(ds, width, table, visited, Frame(s, k + 1));
    Visit(ds, width, table, a0, v0, s1, t, accept, visited, stack, depth);
    StrictlyCloser(Below(|ds| + 1), v0, visited);
  }

  /** `helper(t)` entered on a state not visited yet, once the calling frame is in order. */
  lemma {:induction false} Visit(ds: seq<DState>, width: nat, table: seq<seq<int>>, a0: seq<int>, v0: set<nat>, s1: seq<Frame>,
              t: nat, accept: seq<int>, visited: set<nat>, stack: seq<Frame>, depth: nat)
    requires |ds| >= 1 && EdgesFit(ds, width) && |table| == |a0| == |ds| + 1 && 1 <= t <= |ds| && t !in v0
    requires 1 in v0 && (forall r :: r in v0 ==> 1 <= r <= |ds|)
    requires a0[0] == -1 && table[0] == Zeros(width)
    requires FrameStates(s1) <= v0 && Distinct(s1) && s1 != []
    requires visited == v0 + {t} && accept == a0[t := ds[t - 1].tokenIndex] && stack == s1 + [Frame(t, 0)]
    requires forall r :: 1 <= r <= |ds| ==> RowInv(ds, width, table, a0, v0, s1, r)
    requires forall j :: 0 <= j < |s1| - 1 ==> FrameOk(ds, width, table, v0, s1[j])
    requires FrameOk(ds, width, table, visited, s1[|s1| - 1])
    ensures Dfs(ds, width, table, accept, visited, stack, depth)
  {
    VisitRows(ds, width, table, a0, v0, s1, t, accept, visited, stack);
    VisitFrames(ds, width, table, v0, s1, t, visited, stack);
    CloseDfs(ds, width, table, accept, visited, stack, depth);
  }

  /** `helper(t)` entered on a state not visited yet: the rows stay in order. */
  lemma {:induction false} VisitRows(ds: seq<DState>, width: nat, table: seq<seq<int>>, a0: seq<int>, v0: set<nat>, s1: seq<Frame>,
                  t: nat, accept: seq<int>, visited: set<nat>, stack: seq<Frame>)
    requires EdgesFit(ds, width) && |table| == |a0| == |ds| + 1 && 1 <= t <= |ds| && t !in v0
    requires FrameStates(s1) <= v0 && Distinct(s1)
    requires visited == v0 + {t} && accept == a0[t := ds[t - 1].tokenIndex] && stack == s1 + [Frame(t, 0)]
    requires forall r :: 1 <= r <= |ds| ==> RowInv(ds, width, table, a0, v0, s1, r)
    ensures table[t] == Zeros(width) && FrameStates(stack) <= visited && Distinct(stack)
    ensures forall r :: 1 <= r <= |ds| ==> RowInv(ds, width, table, accept, visited, stack, r)
  {
    StackPush(ds, s1, Frame(t, 0));
    assert RowInv(ds, width, table, a0, v0, s1, t);
    forall r | 1 <= r <= |ds| ensures RowInv(ds, width, table, accept, visited, stack, r) {
      if r != t {
        assert RowInv(ds, width, table, a0, v0, s1, r);
        if r in v0 && r !in FrameStates(s1) {
          assert RowDone(ds, width, table, v0, r);
        }
      }
    }
  }

  /** `helper(t)` entered on a state not visited yet: the pending calls stay in order, and one more is pending. */
  lemma {:induction false} VisitFrames(ds: seq<DState>, width: nat, table: seq<seq<int>>, v0: set<nat>, s1: seq<Frame>,
                    t: nat, visited: set<nat>, stack: seq<Frame>)
    requires EdgesFit(ds, width) && |table| == |ds| + 1 && 1 <= t <= |ds| && table[t] == Zeros(width)
    requires visited == v0 + {t} && stack == s1 + [Frame(t, 0)] && s1 != []
    requires forall j :: 0 <= j < |s1| - 1 ==> FrameOk(ds, width, table, v0, s1[j])
    requires FrameOk(ds, width, table, visited, s1[|s1| - 1])
    ensures forall j :: 0 <= j < |stack| ==> FrameOk(ds, width, table, visited, stack[j])
  {
    assert ds[t - 1].outEdges[..0] == [];
    assert FrameOk(ds, width, table, visited, Frame(t, 0));
    forall j | 0 <= j < |stack| ensures FrameOk(ds, width, table, visited, stack[j]) {
      if j < |s1| - 1 {
        assert FrameOk(ds, width, table, v0, s1[j]) && stack[j] == s1[j];
      }
    }
  }

  /** Once no call is pending, every DFA state has been visited and the tables are complete. */
  lemma {:induction false} DfsDone(ds: seq<DState>, width: nat, table: seq<seq<int>>, accept: seq<int>, visited: set<nat>, depth: nat)
    requires Dfs(ds, width, table, accept, visited, [], depth) && Entered(ds) && EdgesFit(ds, width)
    ensures TablesOf(ds, width, table, accept)
  {
    OpenDfs(ds, width, table, accept, visited, [], depth);
    forall r | r in visited ensures 1 <= r <= |ds| && TargetsVisited(ds, visited, r) {
      assert RowInv(ds, width, table, accept, visited, [], r);
    }
    AllVisited(ds, visited, |ds|);
    var t := Table(ds, width);
    forall r | 0 <= r <= |ds| ensures table[r] == t[r] {
      if r > 0 {
        assert RowInv(ds, width, table, accept, visited, [], r);
      }
    }
    var a := Accepts(ds);
    forall r | 0 <= r <= |ds| ensures accept[r] == a[r] {
      if r > 0 {
        assert RowInv(ds, width, table, accept, visited, [], r);
      }
    }
  }

  /** The states the edges of visited state `r` lead to are visited. */
  ghost predicate TargetsVisited(ds: seq<DState>, visited: set<nat>, r: nat)
    requires 1 <= r <= |ds|
  {
    TargetsAllIn(ds[r - 1].outEdges, |ds[r - 1].outEdges|, visited)
  }

  /** The first `n` edges of `es` lead to visited states. */
  ghost predicate TargetsAllIn(es: seq<DEdge>, n: nat, visited: set<nat>) {
    forall k :: 0 <= k < n && k < |es| ==> es[k].target in visited
  }

  /** A set of DFA states that holds state 1 and is closed under edges holds every state entered from an earlier one. */
  lemma {:induction false} AllVisited(ds: seq<DState>, visited: set<nat>, n: nat)
    requires Entered(ds) && 1 <= n <= |ds| && 1 in visited
    requires forall r :: r in visited ==> 1 <= r <= |ds| && TargetsVisited(ds, visited, r)
    ensures forall r :: 1 <= r <= n ==> r in visited
    decreases n
  {
    if n > 1 {
      AllVisited(ds, visited, n - 1);
      assert EnteredFrom(ds, n - 1);
      var j, k :| 0 <= j < n - 1 && j < |ds| && 0 <= k < |ds[j].outEdges| && ds[j].outEdges[k].target == n;
      assert j + 1 in visited && TargetsVisited(ds, visited, j + 1);
    }
  }
}
