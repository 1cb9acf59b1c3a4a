/**
 * Where the two views of an NFA meet: the subset run that the DFA tracks
 * (`NfaRun`, one closure of a move per symbol) and the walks that spell a
 * word (`Reach`), in terms of which every conversion states its language.
 * From them follows which token the accept table assigns to a word.
 */
module Runs {
  import opened Wrappers
  import opened RegularExpression
  import opened NfaModel
  import opened DfaModel

  /** Some walk from a state of `S` spelling `w` ends in `t`. */
  ghost predicate ReachedFrom(g: Graph, S: set<nat>, t: nat, w: Text) {
    exists s :: s in S && Reach(g, s, t, w)
  }

  /** The states of `g` that some walk from a state of `S` spelling `w` ends in. */
  ghost function Reachable(g: Graph, S: set<nat>, w: Text): set<nat> {
    set t: nat | t < |g| && ReachedFrom(g, S, t, w)
  }

  /** The empty walk. */
  lemma {:induction false} ReachHere(g: Graph, s: nat)
    ensures Reach(g, s, s, [])
  {
    assert Walk(g, s, [], s) && Word([]) == [];
  }

  /** A run of epsilon edges is a walk spelling nothing. */
  lemma {:induction false} SilentWalk(g: Graph, s: nat, q: seq<nat>, t: nat)
    requires EpsilonWalk(g, s, q, t)
    ensures Reach(g, s, t, [])
    decreases |q|
  {
    if q == [] {
      ReachHere(g, s);
    } else {
      SilentWalk(g, q[0], q[1..], t);
      ReachEdge(g, s, Edge(None, q[0]));
      ReachTrans(g, s, q[0], t, [], []);
    }
  }

  /** A walk spelling nothing takes epsilon edges only. */
  lemma {:induction false} WalkSilent(g: Graph, s: nat, p: seq<Edge>, t: nat) returns (q: seq<nat>)
    requires Walk(g, s, p, t) && Word(p) == []
    ensures EpsilonWalk(g, s, q, t)
    decreases |p|
  {
    if p == [] {
      q := [];
    } else {
      assert p[0].symbol.None?;
      var rest := WalkSilent(g, p[0].target, p[1..], t);
      q := [p[0].target] + rest;
      assert p[0] == Edge(None, q[0]) && q[1..] == rest;
    }
  }

  /** The epsilon closure holds exactly the states that walks spelling nothing reach. */
  lemma {:induction false} ClosureByWalks(g: Graph, S: set<nat>, t: nat)
    ensures t in Closure(g, S) <==> t < |g| && exists s :: s in S && Reach(g, s, t, [])
  {
    if t in Closure(g, S) {
      var s, q :| s in S && EpsilonWalk(g, s, q, t);
      SilentWalk(g, s, q, t);
    }
    if t < |g| && exists s :: s in S && Reach(g, s, t, []) {
      var s :| s in S && Reach(g, s, t, []);
      var p :| Walk(g, s, p, t) && Word(p) == [];
      var q := WalkSilent(g, s, p, t);
      assert EpsilonReach(g, S, t);
    }
  }

  /**
   * A walk spelling `[a] + w` first reaches, spelling nothing, a state `x`
   * with an edge labelled `a` to some `y`, from where the rest of the walk
   * spells `w`.
   */
  lemma {:induction false} FirstSymbol(g: Graph, s: nat, p: seq<Edge>, t: nat, a: Code, w: Text)
    returns (x: nat, y: nat, rest: seq<Edge>)
    requires Walk(g, s, p, t) && Word(p) == [a] + w
    ensures Reach(g, s, x, []) && x < |g| && Edge(Some(a), y) in g[x].outEdges
    ensures Walk(g, y, rest, t) && Word(rest) == w
    decreases |p|
  {
    var e := p[0];
    if e.symbol.None? {
      assert Word(p[1..]) == [a] + w;
      x, y, rest := FirstSymbol(g, e.target, p[1..], t, a, w);
      ReachEdge(g, s, e);
      ReachTrans(g, s, e.target, x, [], []);
    } else {
      x, y, rest := s, e.target, p[1..];
      assert Word(p) == [e.symbol.value] + Word(rest);
      assert e.symbol.value == Word(p)[0] == a;
      assert Word(rest) == Word(p)[1..] == w;
      assert e == Edge(Some(a), y);
      ReachHere(g, s);
    }
  }

  /** A state an edge labelled `a` leads to from the closure of `S` is in the move. */
  lemma {:induction false} MoveOfEdge(g: Graph, C: set<nat>, x: nat, a: Code, y: nat)
    requires WellFormedGraph(g) && x in C && x < |g| && Edge(Some(a), y) in g[x].outEdges
    ensures y in Move(g, C, a)
  {
    assert WellFormedState(g[x], |g|);
    assert MovesTo(g, C, a, y);
  }

  /** One symbol of the subset run: walks through the move continue walks from `S`. */
  lemma {:induction false} StepByWalks(g: Graph, S: set<nat>, a: Code, w: Text)
    requires WellFormedGraph(g)
    ensures Reachable(g, Move(g, Closure(g, S), a), w) == Reachable(g, S, [a] + w)
  {
    var C := Closure(g, S);
    var M := Move(g, C, a);
    forall t | t in Reachable(g, M, w) ensures t in Reachable(g, S, [a] + w) {
      var m :| m in M && Reach(g, m, t, w);
      var x :| x in C && x < |g| && Edge(Some(a), m) in g[x].outEdges;
      ClosureByWalks(g, S, x);
      var s :| s in S && Reach(g, s, x, []);
      ReachEdge(g, x, Edge(Some(a), m));
      ReachTrans(g, s, x, m, [], [a]);
      ReachTrans(g, s, m, t, [a], w);
    }
    forall t | t in Reachable(g, S, [a] + w) ensures t in Reachable(g, M, w) {
      var s :| s in S && Reach(g, s, t, [a] + w);
      var p :| Walk(g, s, p, t) && Word(p) == [a] + w;
      var x, y, rest := FirstSymbol(g, s, p, t, a, w);
      ClosureByWalks(g, S, x);
      MoveOfEdge(g, C, x, a, y);
    }
  }

  /**
   * The subset run is the walk semantics: the NFA states a word leads the
   * closure of `S` to are exactly the states some walk from `S` spelling
   * that word ends in.
   */
  lemma {:induction false} RunIsReach(g: Graph, S: set<nat>, w: Text)
    requires WellFormedGraph(g)
    ensures NfaRun(g, Closure(g, S), w) == Reachable(g, S, w)
    decreases |w|
  {
    if w == [] {
      forall t ensures t in Closure(g, S) <==> t in Reachable(g, S, []) {
        ClosureByWalks(g, S, t);
      }
    } else {
      var a, rest := w[0], w[1..];
      var M := Move(g, Closure(g, S), a);
      RunIsReach(g, M, rest);
      StepByWalks(g, S, a, rest);
      assert w == [a] + rest;
    }
  }

  /** Nothing accepts in the empty set. */
  lemma {:induction false} AcceptNone(g: Graph)
    ensures AcceptIndex(g, {}) == -1
  {
    AcceptIndexMeaning(g, {});
  }

  /**
   * The accept entry of the DFA state a word leads state 1 to is the token
   * of the NFA states that walks from the init state spelling the word end
   * in: -1 when none of them accepts, and otherwise the least token index
   * among them.
   */
  lemma {:induction false} TokenOfWord(g: Graph, init: nat, ds: seq<DState>, symbols: set<Code>, w: Text)
    requires WellFormedGraph(g) && Built(g, init, ds, symbols)
    ensures var j := DfaRun(ds, 1, w);
      && j <= |ds|
      && Accepts(ds)[j] == AcceptIndex(g, Reachable(g, {init}, w))
      && (j == 0 <==> Reachable(g, {init}, w) == {})
  {
    FromStart(g, init, ds, symbols, w);
    RunIsReach(g, {init}, w);
    AcceptOfRun(g, ds, DfaRun(ds, 1, w), Reachable(g, {init}, w));
  }

  /** The accept entry of DFA state `j` is the token of the NFA states it stands for. */
  lemma {:induction false} AcceptOfRun(g: Graph, ds: seq<DState>, j: nat, T: set<nat>)
    requires StatesOk(g, ds) && j <= |ds|
    requires j == 0 ==> T == {}
    requires j != 0 ==> ds[j - 1].nfaStates == T
    ensures Accepts(ds)[j] == AcceptIndex(g, T)
  {
    if j == 0 {
      AcceptNone(g);
    } else {
      assert StateOk(g, ds[j - 1], j - 1);
    }
  }

  /**
   * What the token of a word means: -1 when no accepting NFA state is
   * reachable on it, and otherwise the token index of a reachable state
   * that no other reachable accepting state's index undercuts.
   */
  lemma {:induction false} TokenMeaning(g: Graph, init: nat, w: Text)
    ensures var r := AcceptIndex(g, Reachable(g, {init}, w));
      && (r == -1 <==> forall t: nat :: t < |g| && Reach(g, init, t, w) ==> g[t].tokenIndex == -1)
      && (r != -1 ==> exists t: nat :: t < |g| && Reach(g, init, t, w) && g[t].tokenIndex == r)
      && forall t: nat :: t < |g| && Reach(g, init, t, w) && g[t].tokenIndex != -1 ==> r <= g[t].tokenIndex
  {
    var R := Reachable(g, {init}, w);
    AcceptIndexMeaning(g, R);
    forall t: nat | t < |g| ensures t in R <==> Reach(g, init, t, w) {
      if Reach(g, init, t, w) {
        assert ReachedFrom(g, {init}, t, w);
      }
    }
  }
}
