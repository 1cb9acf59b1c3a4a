/**
 * NFA states, edges and models.  Every `NFAState` object ever created lives
 * in one `Arena`; its address in the arena stands for the object's identity,
 * while `stateIndex` is the separate, re-assignable number that
 * `NFAModel.add_state` writes and that `NFAState.__eq__` compares and
 * `DFAModel` signatures collect.  An `NFAModel` owns an ordered list of state addresses and its
 * designated init and tail states.
 */
module NfaModel {
  import opened Wrappers
  import opened RegularExpression

  /** An edge label: `Some(code)` for a symbol, `None` for an epsilon move. */
  type Symbol = Option<Code>

  /** An `NFAEdge`: its label and the address of the state it leads to. */
  datatype Edge = Edge(symbol: Symbol, target: nat)

  /** The targets of the edges labelled `a`, in insertion order. */
  function Targets(es: seq<Edge>, a: Symbol): (ts: seq<nat>)
    ensures forall t :: t in ts <==> Edge(a, t) in es
    ensures |ts| <= |es|
  {
    if es == [] then []
    else
      var ts := Targets(es[..|es| - 1], a) + (if es[|es| - 1].symbol == a then [es[|es| - 1].target] else []);
      assert es == es[..|es| - 1] + [es[|es| - 1]];
      ts
  }

  /** The value stored under `a` in a lookup table, `[]` when the key is missing. */
  function Get(m: map<Symbol, seq<nat>>, a: Symbol): seq<nat> {
    if a in m then m[a] else []
  }

  /**
   * The lookup table that successive `add_edge` calls build from a list of
   * edges: one key per label used, holding that label's targets in order.
   */
  function LookupOf(es: seq<Edge>): map<Symbol, seq<nat>>
  {
    if es == [] then map[]
    else
      var m0 := LookupOf(es[..|es| - 1]);
      var e := es[|es| - 1];
      m0[e.symbol := Get(m0, e.symbol) + [e.target]]
  }

  /** The lookup holds a key exactly for the labels used, and under it that label's targets. */
  lemma {:induction false} LookupOfTargets(es: seq<Edge>)
    ensures forall a :: a in LookupOf(es) <==> exists t :: Edge(a, t) in es
    ensures forall a :: Get(LookupOf(es), a) == Targets(es, a)
  {
    if es != [] {
      var front := es[..|es| - 1];
      var e := es[|es| - 1];
      assert es == front + [e];
      LookupOfTargets(front);
      var m0 := LookupOf(front);
      var m := LookupOf(es);
      forall a ensures a in m <==> exists t :: Edge(a, t) in es {
        if a in m0 {
          var t :| Edge(a, t) in front;
          assert Edge(a, t) in es;
        }
        if exists t :: Edge(a, t) in es {
          var t :| Edge(a, t) in es;
          if a != e.symbol { assert Edge(a, t) in front; }
        }
      }
    }
  }

  /**
   * An `NFAState`: its token index (-1 when not accepting), its state index
   * (-1 until a model adds it), its edges in insertion order, and the lookup
   * from label to targets.
   */
  datatype NState = NState(tokenIndex: int, stateIndex: int, outEdges: seq<Edge>, lookup: map<Symbol, seq<nat>>)
  {
    /** `can_epsilon_move_states()`: the epsilon targets, or nothing if there are none. */
    function CanEpsilonMoveStates(): (ts: seq<nat>)
      requires lookup == LookupOf(outEdges)
      ensures forall t :: t in ts <==> Edge(None, t) in outEdges
    {
      LookupOfTargets(outEdges);
      Get(lookup, None)
    }

    /** `linked_state_lookup[a]`: the targets on label `a`. */
    function Lookup(a: Symbol): (ts: seq<nat>)
      requires lookup == LookupOf(outEdges)
      ensures forall t :: t in ts <==> Edge(a, t) in outEdges
    {
      LookupOfTargets(outEdges);
      Get(lookup, a)
    }

    /**
     * `valid_inputs()`, as the evident intent: the symbols with at least one
     * edge.  The epsilon key is not an input symbol.
     */
    function ValidInputs(): (vs: set<Code>)
      requires lookup == LookupOf(outEdges)
      ensures forall a: Code :: a in vs <==> exists t :: Edge(Some(a), t) in outEdges
    {
      LookupOfTargets(outEdges);
      var vs := set a: Symbol | a in lookup && a.Some? && lookup[a] != [] :: a.value;
      assert forall a: Code :: a in vs <==> exists t :: Edge(Some(a), t) in outEdges by {
        forall a: Code ensures a in vs <==> exists t :: Edge(Some(a), t) in outEdges {
          if exists t :: Edge(Some(a), t) in outEdges {
            var t :| Edge(Some(a), t) in outEdges;
            assert t in Targets(outEdges, Some(a));
            assert Some(a) in lookup && lookup[Some(a)] != [];
          }
          if a in vs {
            assert Some(a) in lookup && lookup[Some(a)] != [];
            var t := lookup[Some(a)][0];
            assert t in Targets(outEdges, Some(a));
          }
        }
      }
      vs
    }
  }

  /** A new `NFAState()`: not accepting, not yet indexed, no edges. */
  const NewNState: NState := NState(-1, -1, [], map[])

  /** Every edge of the state leads to an allocated state, and the lookup matches the edges. */
  ghost predicate WellFormedState(st: NState, n: nat) {
    && st.lookup == LookupOf(st.outEdges)
    && forall e :: e in st.outEdges ==> e.target < n
  }

  /** The states of one arena, addressed by position. */
  type Graph = seq<NState>

  ghost predicate WellFormedGraph(g: Graph) {
    forall s :: 0 <= s < |g| ==> WellFormedState(g[s], |g|)
  }

  /** The graph after appending edge `e` to state `s`, its lookup rebuilt to match. */
  function WithEdge(g: Graph, s: nat, e: Edge): (g': Graph)
    requires s < |g|
    ensures |g'| == |g| && g'[s].outEdges == g[s].outEdges + [e]
    ensures g'[s].tokenIndex == g[s].tokenIndex && g'[s].stateIndex == g[s].stateIndex
    ensures forall i :: 0 <= i < |g| && i != s ==> g'[i] == g[i]
  {
    g[s := g[s].(outEdges := g[s].outEdges + [e], lookup := LookupOf(g[s].outEdges + [e]))]
  }

  /** Every `NFAState` object: the heap of NFA states. */
  class Arena {
    var nodes: Graph

    ghost predicate Valid()
      reads this
    {
      WellFormedGraph(nodes)
    }

    constructor()
      ensures Valid() && nodes == []
    {
      nodes := [];
    }

    /** `NFAState()`: allocates a non-accepting state without edges. */
    method NewState() returns (s: nat)
      requires Valid()
      modifies this
      ensures Valid()
      ensures s == |old(nodes)| && nodes == old(nodes) + [NewNState]
      ensures IndicesKept(old(nodes), nodes)
    {
      s := |nodes|;
      nodes := nodes + [NewNState];
    }

    /**
     * `add_edge(edge)`: appends the edge to the state's edges and its target
     * to the state's lookup under the edge's label; nothing else changes.
     */
    method AddEdge(s: nat, e: Edge)
      requires Valid() && s < |nodes| && e.target < |nodes|
      modifies this
      ensures Valid()
      ensures |nodes| == |old(nodes)|
      ensures nodes[s].outEdges == old(nodes[s].outEdges) + [e]
      ensures nodes[s].lookup == old(nodes[s].lookup)[e.symbol := Get(old(nodes[s].lookup), e.symbol) + [e.target]]
      ensures nodes[s].tokenIndex == old(nodes[s].tokenIndex) && nodes[s].stateIndex == old(nodes[s].stateIndex)
      ensures forall i :: 0 <= i < |nodes| && i != s ==> nodes[i] == old(nodes[i])
      ensures IndicesKept(old(nodes), nodes)
    {
      var st := nodes[s];
      var st' := st.(outEdges := st.outEdges + [e], lookup := st.lookup[e.symbol := Get(st.lookup, e.symbol) + [e.target]]);
      assert st.outEdges + [e] == (st.outEdges + [e])[..|st.outEdges|] + [e];
      nodes := nodes[s := st'];
    }

    /** `move_to(symbol, state)`: an edge labelled `symbol` (epsilon when `None`). */
    method MoveTo(s: nat, symbol: Symbol, t: nat)
      requires Valid() && s < |nodes| && t < |nodes|
      modifies this
      ensures Valid()
      ensures |nodes| == |old(nodes)|
      ensures nodes == WithEdge(old(nodes), s, Edge(symbol, t))
      ensures IndicesKept(old(nodes), nodes)
    {
      AddEdge(s, Edge(symbol, t));
    }

    /** `epsilon_move_to(state)`: an edge with the epsilon label `None`. */
    method EpsilonMoveTo(s: nat, t: nat)
      requires Valid() && s < |nodes| && t < |nodes|
      modifies this
      ensures Valid()
      ensures |nodes| == |old(nodes)|
      ensures nodes == WithEdge(old(nodes), s, Edge(None, t))
      ensures t in nodes[s].CanEpsilonMoveStates()
      ensures IndicesKept(old(nodes), nodes)
    {
      AddEdge(s, Edge(None, t));
    }

    /** The `token_index` setter. */
    method SetTokenIndex(s: nat, k: int)
      requires Valid() && s < |nodes|
      modifies this
      ensures Valid()
      ensures nodes == old(nodes)[s := old(nodes[s]).(tokenIndex := k)]
    {
      nodes := nodes[s := nodes[s].(tokenIndex := k)];
    }
  }

  // ---------------------------------------------------------------------------
  // Positions in a list of states
  // ---------------------------------------------------------------------------

  /** The position of the last occurrence of `x` in `s`. */
  function LastIndexOf(s: seq<nat>, x: nat): (r: nat)
    requires x in s
    ensures r < |s| && s[r] == x
  {
    if s[|s| - 1] == x then |s| - 1 else LastIndexOf(s[..|s| - 1], x)
  }

  /** No occurrence of `x` follows the one `LastIndexOf` finds. */
  lemma {:induction false} LastIndexOfIsLast(s: seq<nat>, x: nat, j: nat)
    requires x in s && LastIndexOf(s, x) < j < |s|
    ensures s[j] != x
  {
    if s[|s| - 1] != x && j < |s| - 1 {
      LastIndexOfIsLast(s[..|s| - 1], x, j);
    }
  }

  lemma {:induction false} LastIndexOfAppend(a: seq<nat>, b: seq<nat>, x: nat)
    requires x in a + b
    ensures x in b ==> LastIndexOf(a + b, x) == |a| + LastIndexOf(b, x)
    ensures x !in b ==> x in a && LastIndexOf(a + b, x) == LastIndexOf(a, x)
  {
    var r := LastIndexOf(a + b, x);
    if x in b {
      var q := LastIndexOf(b, x);
      assert (a + b)[|a| + q] == x;
      if r < |a| + q { LastIndexOfIsLast(a + b, x, |a| + q); }
      if r > |a| + q { LastIndexOfIsLast(b, x, r - |a|); }
    } else {
      assert forall j :: |a| <= j < |a + b| ==> (a + b)[j] == b[j - |a|];
      assert r < |a|;
      assert a[r] == x;
      var q := LastIndexOf(a, x);
      assert (a + b)[q] == x;
      if r < q { LastIndexOfIsLast(a + b, x, q); }
      if q < r { LastIndexOfIsLast(a, x, r); }
    }
  }

  /** The arena after `add_state(*ss)` on a model whose list had `base` entries. */
  ghost function Reindexed(g: Graph, base: nat, ss: seq<nat>): (g': Graph)
    ensures |g'| == |g|
  {
    seq(|g|, i requires 0 <= i < |g| =>
      if i in ss then g[i].(stateIndex := base + LastIndexOf(ss, i)) else g[i])
  }

  /** Only the state indices of the states in `ss` differ between `g0` and `g`. */
  ghost predicate Retagged(g0: Graph, g: Graph, ss: seq<nat>) {
    && |g| == |g0|
    && (forall i :: 0 <= i < |g| ==> g[i].outEdges == g0[i].outEdges && g[i].tokenIndex == g0[i].tokenIndex)
    && (forall i :: 0 <= i < |g| && i !in ss ==> g[i] == g0[i])
  }

  /** No state index of `g1` differs in `g2`. */
  ghost predicate IndicesKept(g1: Graph, g2: Graph) {
    |g1| <= |g2| && forall i :: 0 <= i < |g1| ==> g2[i].stateIndex == g1[i].stateIndex
  }

  lemma {:induction false} IndicesKeptTrans(g1: Graph, g2: Graph, g3: Graph)
    requires IndicesKept(g1, g2) && IndicesKept(g2, g3)
    ensures IndicesKept(g1, g3)
  {
  }

  lemma {:induction false} RetaggedTrans(g1: Graph, g2: Graph, g3: Graph, s1: seq<nat>, s2: seq<nat>)
    requires Retagged(g1, g2, s1) && Retagged(g2, g3, s2)
    ensures Retagged(g1, g3, s1 + s2)
  {
  }

  /** Each listed state is allocated and carries the position of its last occurrence as its index. */
  ghost predicate Indexed(g: Graph, states: seq<nat>) {
    forall x :: x in states ==> x < |g| && g[x].stateIndex == LastIndexOf(states, x)
  }

  /** Edges and new states leave a model's indexing intact. */
  lemma {:induction false} IndexedKept(g1: Graph, g2: Graph, states: seq<nat>)
    requires Indexed(g1, states) && IndicesKept(g1, g2)
    ensures Indexed(g2, states)
  {
  }

  /**
   * Distinct states of a model never share a state index, so `NFAState`
   * equality by index coincides with identity on a model's states.
   */
  lemma {:induction false} IndicesDistinct(g: Graph, states: seq<nat>, x: nat, y: nat)
    requires Indexed(g, states) && x in states && y in states
    ensures g[x].stateIndex == g[y].stateIndex <==> x == y
    ensures 0 <= g[x].stateIndex < |states|
  {
    var i := LastIndexOf(states, x);
    var j := LastIndexOf(states, y);
  }

  /** An `NFAModel`: its list of states (with repetitions) and its init and tail states. */
  class NFAModel {
    var states: seq<nat>
    var init: nat
    var tail: nat

    /** Every listed state is indexed by its last position; init and tail are listed. */
    ghost predicate Valid(arena: Arena)
      reads this, arena
    {
      Indexed(arena.nodes, states) && init in states && tail in states
    }

    /**
     * `NFAModel(init, tail)`: adds `init`, then `tail`, so a fresh model has
     * `init` at index 0 and `tail` at index 1.
     */
    constructor(arena: Arena, init: nat, tail: nat)
      requires arena.Valid() && init < |arena.nodes| && tail < |arena.nodes| && init != tail
      modifies arena
      ensures Valid(arena) && arena.Valid()
      ensures this.states == [init, tail] && this.init == init && this.tail == tail
      ensures arena.nodes == old(arena.nodes)[init := old(arena.nodes[init]).(stateIndex := 0)]
                                             [tail := old(arena.nodes[tail]).(stateIndex := 1)]
      ensures Retagged(old(arena.nodes), arena.nodes, [init, tail])
    {
      this.init := init;
      this.tail := tail;
      states := [];
      new;
      ghost var g0 := arena.nodes;
      AddStates(arena, [init, tail]);
      assert LastIndexOf([init, tail], tail) == 1;
      assert LastIndexOf([init, tail], init) == 0 by {
        assert [init, tail][..1] == [init];
      }
      assert arena.nodes == g0[init := g0[init].(stateIndex := 0)][tail := g0[tail].(stateIndex := 1)];
    }

    /** The `init_state` setter: the state is added to the list, then designated. */
    method SetInit(arena: Arena, s: nat)
      requires Valid(arena) && arena.Valid() && s < |arena.nodes|
      modifies this, arena
      ensures Valid(arena) && arena.Valid()
      ensures states == old(states) + [s] && init == s && tail == old(tail)
      ensures arena.nodes == old(arena.nodes)[s := old(arena.nodes[s]).(stateIndex := |old(states)|)]
    {
      ghost var g0 := arena.nodes;
      AddStates(arena, [s]);
      assert LastIndexOf([s], s) == 0;
      forall i | 0 <= i < |g0| ensures arena.nodes[i] == g0[s := g0[s].(stateIndex := |old(states)|)][i] {
        assert i in [s] <==> i == s;
      }
      init := s;
    }

    /** The `tail_state` setter: the state is added to the list, then designated. */
    method SetTail(arena: Arena, s: nat)
      requires Valid(arena) && arena.Valid() && s < |arena.nodes|
      modifies this, arena
      ensures Valid(arena) && arena.Valid()
      ensures states == old(states) + [s] && tail == s && init == old(init)
      ensures arena.nodes == old(arena.nodes)[s := old(arena.nodes[s]).(stateIndex := |old(states)|)]
    {
      ghost var g0 := arena.nodes;
      AddStates(arena, [s]);
      assert LastIndexOf([s], s) == 0;
      forall i | 0 <= i < |g0| ensures arena.nodes[i] == g0[s := g0[s].(stateIndex := |old(states)|)][i] {
        assert i in [s] <==> i == s;
      }
      tail := s;
    }

    /**
     * `add_state(*ss)`: each state in turn gets the current list length as its
     * index and is appended, so a state listed twice keeps its later position.
     * Nothing but the state indices of the added states changes.
     */
    method AddStates(arena: Arena, ss: seq<nat>)
      requires forall s :: s in ss ==> s < |arena.nodes|
      modifies this, arena
      ensures states == old(states) + ss && init == old(init) && tail == old(tail)
      ensures Retagged(old(arena.nodes), arena.nodes, ss)
      ensures forall x {:trigger x in ss} :: x in ss ==> arena.nodes[x].stateIndex == |old(states)| + LastIndexOf(ss, x)
      ensures Indexed(old(arena.nodes), old(states)) ==> Indexed(arena.nodes, states)
      ensures old(arena.Valid()) ==> arena.Valid()
      ensures old(Valid(arena)) ==> Valid(arena)
    {
      ghost var g0 := arena.nodes;
      ghost var s0 := states;
      var k := 0;
      while k < |ss|
        invariant 0 <= k <= |ss|
        invariant states == s0 + ss[..k] && init == old(init) && tail == old(tail)
        invariant arena.nodes == Reindexed(g0, |s0|, ss[..k])
      {
        var s := ss[k];
        assert s in ss;
        arena.nodes := arena.nodes[s := arena.nodes[s].(stateIndex := |states|)];
        states := states + [s];
        ReindexStep(g0, |s0|, ss, k);
        k := k + 1;
      }
      assert ss[..k] == ss;
      ReindexedFacts(g0, arena.nodes, s0, ss);
    }
  }

  /** Renumbering one more state of `ss`. */
  lemma {:induction false} ReindexStep(g0: Graph, base: nat, ss: seq<nat>, k: nat)
    requires k < |ss| && ss[k] < |g0|
    ensures var g := Reindexed(g0, base, ss[..k]);
      Reindexed(g0, base, ss[..k + 1]) == g[ss[k] := g[ss[k]].(stateIndex := base + k)]
  {
    var g := Reindexed(g0, base, ss[..k]);
    var s := ss[k];
    var ss' := ss[..k + 1];
    assert ss' == ss[..k] + [s];
    var r, h := Reindexed(g0, base, ss'), g[s := g[s].(stateIndex := base + k)];
    forall i | 0 <= i < |g0| ensures r[i] == h[i] {
      if i in ss' { LastIndexOfAppend(ss[..k], [s], i); }
    }
  }

  /** What renumbering the states `ss` after the `|s0|` states already in a model amounts to. */
  lemma {:induction false} ReindexedFacts(g0: Graph, g: Graph, s0: seq<nat>, ss: seq<nat>)
    requires forall s :: s in ss ==> s < |g0|
    requires g == Reindexed(g0, |s0|, ss)
    ensures Retagged(g0, g, ss)
    ensures forall x {:trigger x in ss} :: x in ss ==> g[x].stateIndex == |s0| + LastIndexOf(ss, x)
    ensures Indexed(g0, s0) ==> Indexed(g, s0 + ss)
    ensures WellFormedGraph(g0) ==> WellFormedGraph(g)
  {
    if Indexed(g0, s0) {
      forall x | x in s0 + ss
        ensures x < |g| && g[x].stateIndex == LastIndexOf(s0 + ss, x)
      {
        LastIndexOfAppend(s0, ss, x);
        if x !in ss { assert x in s0; }
      }
    }
    if WellFormedGraph(g0) {
      assert forall s :: 0 <= s < |g0| ==> g[s].outEdges == g0[s].outEdges && g[s].lookup == g0[s].lookup;
    }
  }

  // ---------------------------------------------------------------------------
  // Walks: the words a graph spells between two states
  // ---------------------------------------------------------------------------

  /** `p` is a sequence of edges leading from state `s` to state `t` in `g`. */
  ghost predicate Walk(g: Graph, s: nat, p: seq<Edge>, t: nat)
    decreases |p|
  {
    if p == [] then s == t
    else s < |g| && p[0] in g[s].outEdges && Walk(g, p[0].target, p[1..], t)
  }

  /** The symbols along a walk; epsilon edges contribute nothing. */
  function Word(p: seq<Edge>): Text
  {
    if p == [] then [] else (if p[0].symbol.Some? then [p[0].symbol.value] else []) + Word(p[1..])
  }

  /** Some walk from `s` to `t` spells `w`. */
  ghost predicate Reach(g: Graph, s: nat, t: nat, w: Text) {
    exists p :: Walk(g, s, p, t) && Word(p) == w
  }

  lemma {:induction false} WordAppend(p: seq<Edge>, q: seq<Edge>)
    ensures Word(p + q) == Word(p) + Word(q)
    decreases |p|
  {
    if p == [] {
      assert p + q == q;
    } else {
      assert (p + q)[0] == p[0];
      assert (p + q)[1..] == p[1..] + q;
      WordAppend(p[1..], q);
    }
  }

  /** Two walks that meet compose into one. */
  lemma {:induction false} WalkAppend(g: Graph, s: nat, p: seq<Edge>, m: nat, q: seq<Edge>, t: nat)
    requires Walk(g, s, p, m) && Walk(g, m, q, t)
    ensures Walk(g, s, p + q, t)
    decreases |p|
  {
    if p == [] {
      assert p + q == q;
    } else {
      assert (p + q)[0] == p[0];
      assert (p + q)[1..] == p[1..] + q;
      WalkAppend(g, p[0].target, p[1..], m, q, t);
    }
  }

  /** A walk splits at any position into two walks through an intermediate state. */
  lemma {:induction false} WalkSplit(g: Graph, s: nat, p: seq<Edge>, t: nat, k: nat) returns (m: nat)
    requires Walk(g, s, p, t) && k <= |p|
    ensures Walk(g, s, p[..k], m) && Walk(g, m, p[k..], t)
    decreases k
  {
    if k == 0 {
      m := s;
      assert p[k..] == p;
    } else {
      m := WalkSplit(g, p[0].target, p[1..], t, k - 1);
      assert p[1..][..k - 1] == p[..k][1..];
      assert p[1..][k - 1..] == p[k..];
    }
  }

  /** One edge is a walk. */
  lemma {:induction false} EdgeWalk(g: Graph, s: nat, e: Edge)
    requires s < |g| && e in g[s].outEdges
    ensures Walk(g, s, [e], e.target)
    ensures Word([e]) == if e.symbol.Some? then [e.symbol.value] else []
  {
    assert [e][1..] == [];
  }

  /** Reach composes along intermediate states. */
  lemma {:induction false} ReachTrans(g: Graph, s: nat, m: nat, t: nat, u: Text, v: Text)
    requires Reach(g, s, m, u) && Reach(g, m, t, v)
    ensures Reach(g, s, t, u + v)
  {
    var p :| Walk(g, s, p, m) && Word(p) == u;
    var q :| Walk(g, m, q, t) && Word(q) == v;
    WalkAppend(g, s, p, m, q, t);
    WordAppend(p, q);
  }

  /** One edge gives a Reach fact. */
  lemma {:induction false} ReachEdge(g: Graph, s: nat, e: Edge)
    requires s < |g| && e in g[s].outEdges
    ensures Reach(g, s, e.target, if e.symbol.Some? then [e.symbol.value] else [])
  {
    EdgeWalk(g, s, e);
  }

  /** Every edge of `g1` is still an edge of `g2`: edges were only added. */
  ghost predicate EdgesGrow(g1: Graph, g2: Graph) {
    && |g1| <= |g2|
    && forall s, e :: 0 <= s < |g1| && e in g1[s].outEdges ==> e in g2[s].outEdges
  }

  lemma {:induction false} WalkGrow(g1: Graph, g2: Graph, s: nat, p: seq<Edge>, t: nat)
    requires EdgesGrow(g1, g2) && Walk(g1, s, p, t)
    ensures Walk(g2, s, p, t)
    decreases |p|
  {
    if p != [] { WalkGrow(g1, g2, p[0].target, p[1..], t); }
  }

  lemma {:induction false} ReachGrow(g1: Graph, g2: Graph, s: nat, t: nat, w: Text)
    requires EdgesGrow(g1, g2) && Reach(g1, s, t, w)
    ensures Reach(g2, s, t, w)
  {
    var p :| Walk(g1, s, p, t) && Word(p) == w;
    WalkGrow(g1, g2, s, p, t);
  }

  /** No edge of a state in `S` leaves `S`. */
  ghost predicate Closed(g: Graph, S: set<nat>) {
    forall s :: s in S ==> s < |g| && forall e :: e in g[s].outEdges ==> e.target in S
  }

  /** The states of `S` other than `tail` have the same edges in both graphs. */
  ghost predicate SameEdgesExcept(g1: Graph, g2: Graph, S: set<nat>, tail: nat) {
    forall s :: s in S && s != tail ==> s < |g1| && s < |g2| && g1[s].outEdges == g2[s].outEdges
  }

  /**
   * A walk in `g2` that starts inside a region `S` closed in `g1`, where only
   * `tail` may have gained edges, either stays a walk of `g1` inside `S`, or
   * first leaves `g1` through a new edge of `tail`.
   */
  lemma {:induction false} ExitSplit(g1: Graph, g2: Graph, S: set<nat>, tail: nat, s: nat, p: seq<Edge>, x: nat)
    returns (k: nat)
    requires Closed(g1, S) && SameEdgesExcept(g1, g2, S, tail) && s in S && tail in S
    requires Walk(g2, s, p, x)
    ensures k <= |p|
    ensures k == |p| ==> x in S && Walk(g1, s, p, x)
    ensures k < |p| ==> && Walk(g1, s, p[..k], tail)
                        && tail < |g2| && p[k] in g2[tail].outEdges && p[k] !in g1[tail].outEdges
                        && Walk(g2, p[k].target, p[k + 1..], x)
    decreases |p|
  {
    if p == [] {
      k := 0;
    } else if s == tail && p[0] !in g1[tail].outEdges {
      k := 0;
      assert p[1..] == p[k + 1..];
    } else {
      var e, q := p[0], p[1..];
      assert e in g1[s].outEdges && Walk(g2, e.target, q, x);
      var k' := ExitSplit(g1, g2, S, tail, e.target, q, x);
      k := k' + 1;
      ConsSlices(p, k);
      if k' < |q| {
        WalkCons(g1, s, e, q[..k'], tail);
      } else {
        WalkCons(g1, s, e, q, x);
      }
    }
  }

  /** How the slices of a walk relate to those of its tail after the first edge. */
  lemma {:induction false} ConsSlices(p: seq<Edge>, k: nat)
    requires 0 < k <= |p|
    ensures [p[0]] + p[1..][..k - 1] == p[..k] && [p[0]] + p[1..] == p
    ensures k < |p| ==> p[1..][k - 1] == p[k] && p[1..][k..] == p[k + 1..]
  {
  }

  /** A walk extended in front by one edge of its start. */
  lemma {:induction false} WalkCons(g: Graph, s: nat, e: Edge, q: seq<Edge>, t: nat)
    requires s < |g| && e in g[s].outEdges && Walk(g, e.target, q, t)
    ensures Walk(g, s, [e] + q, t)
  {
    assert ([e] + q)[1..] == q;
  }

  /** A state without edges is the end of every walk from it. */
  lemma {:induction false} WalkFromSink(g: Graph, s: nat, p: seq<Edge>, t: nat)
    requires s < |g| && g[s].outEdges == [] && Walk(g, s, p, t)
    ensures p == [] && t == s
  {
  }
}
