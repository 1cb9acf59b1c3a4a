/**
 * The NFA a scanner runs: a new init state with an epsilon edge to every
 * rule's init, and a new tail state that every rule's tail gets an epsilon
 * edge to.  Every rule keeps its language inside the merge, and the first
 * rule whose expression matches a word is the token of that word.
 */
module Merge {
  import opened Wrappers
  import opened RegularExpression
  import opened NfaModel
  import opened NfaModelConverter
  import opened DfaModel
  import opened Tokens
  import opened Runs

  /**
   * The edges the merge adds to state `s`, rule by rule: one to the rule's
   * init when `s` is the new init `I`, then one to the new tail `T` when `s`
   * is the rule's tail.
   */
  function Contrib(fs: seq<Frag>, s: nat, I: nat, T: nat): seq<Edge>
  {
    if fs == [] then []
    else
      var f := fs[|fs| - 1];
      Contrib(fs[..|fs| - 1], s, I, T)
        + (if s == I then [Edge(None, f.init)] else [])
        + (if s == f.tail then [Edge(None, T)] else [])
  }

  /** `g0` with the new init and tail states appended, before any edge is added. */
  function Extended(g0: Graph): (g1: Graph)
    ensures |g1| == |g0| + 2 && g1[..|g0|] == g0
  {
    g0 + [NewNState, NewNState]
  }

  /**
   * `G` is the merge of the rules `fs` laid out in `g0`: two new states at
   * addresses `|g0|` (the init) and `|g0| + 1` (the tail), no token index
   * changed, and every state's edges those of `g0` followed by the merge's.
   */
  ghost predicate Merged(g0: Graph, G: Graph, fs: seq<Frag>) {
    && |G| == |g0| + 2
    && (forall s :: 0 <= s < |G| ==> G[s].tokenIndex == Extended(g0)[s].tokenIndex)
    && (forall s :: 0 <= s < |G| ==> G[s].outEdges == Extended(g0)[s].outEdges + Contrib(fs, s, |g0|, |g0| + 1))
  }

  /** Edges and token indices of `g` and `h` agree; state indices may differ. */
  ghost predicate SameShape(g: Graph, h: Graph) {
    |g| == |h| && forall s :: 0 <= s < |g| ==> g[s].outEdges == h[s].outEdges && g[s].tokenIndex == h[s].tokenIndex
  }

  /** What the merge adds: edges to the rules' inits at the init, one edge to the new tail at each rule's tail, nothing else. */
  lemma {:induction false} ContribFacts(fs: seq<Frag>, s: nat, I: nat, T: nat)
    ensures s != I ==> forall e :: e in Contrib(fs, s, I, T) ==> e == Edge(None, T)
    ensures s != I && (forall j :: 0 <= j < |fs| ==> fs[j].tail != s) ==> Contrib(fs, s, I, T) == []
    ensures s == I && (forall j :: 0 <= j < |fs| ==> fs[j].tail != s) ==>
      forall e :: e in Contrib(fs, s, I, T) <==> exists j :: 0 <= j < |fs| && e == Edge(None, fs[j].init)
    decreases |fs|
  {
    if fs != [] {
      var front := fs[..|fs| - 1];
      ContribFacts(front, s, I, T);
      assert forall j :: 0 <= j < |front| ==> front[j] == fs[j];
      if s == I && (forall j :: 0 <= j < |fs| ==> fs[j].tail != s) {
        forall e ensures e in Contrib(fs, s, I, T) <==> exists j :: 0 <= j < |fs| && e == Edge(None, fs[j].init) {
          if e in Contrib(fs, s, I, T) && e !in Contrib(front, s, I, T) {
            assert e == Edge(None, fs[|fs| - 1].init);
          }
          if exists j :: 0 <= j < |fs| && e == Edge(None, fs[j].init) {
            var j :| 0 <= j < |fs| && e == Edge(None, fs[j].init);
            if j < |front| {
              assert e in Contrib(front, s, I, T);
            }
          }
        }
      }
    }
  }

  /** Rules laid side by side: an earlier rule ends before a later one starts. */
  lemma {:induction false} TiledOrder(fs: seq<Frag>, n: nat, k: nat, j: nat)
    requires Tiled(fs, n) && k < j < |fs|
    requires forall i :: 0 <= i < |fs| ==> fs[i].lo < fs[i].hi
    ensures fs[k].hi <= fs[j].lo
    decreases j - k
  {
    if k + 1 < j {
      TiledOrder(fs, n, k + 1, j);
    }
  }

  /** In rules that are in place, a rule's state is no other rule's tail. */
  lemma {:induction false} TailsApart(g: Graph, fs: seq<Frag>, defs: seq<Definition>, j: nat, s: nat)
    requires RulesOk(g, fs, defs) && j < |fs| && s in fs[j].states && s != fs[j].tail
    ensures forall k :: 0 <= k < |fs| ==> fs[k].tail != s
  {
    assert RuleOk(g, fs[j], defs[j].re, j);
    forall k | 0 <= k < |fs| && k != j ensures fs[k].tail != s {
      assert RuleOk(g, fs[k], defs[k].re, k);
      forall i | 0 <= i < |fs| ensures fs[i].lo < fs[i].hi {
        assert RuleOk(g, fs[i], defs[i].re, i);
      }
      if k < j {
        TiledOrder(fs, |g|, k, j);
      } else {
        TiledOrder(fs, |g|, j, k);
      }
    }
  }

  /** Every state of rules in place lies in some rule's states. */
  lemma {:induction false} RulesCover(g: Graph, fs: seq<Frag>, defs: seq<Definition>, s: nat)
    requires RulesOk(g, fs, defs) && s < |g|
    ensures exists j :: 0 <= j < |fs| && s in fs[j].states
  {
    assert fs != [];
    var j := Cover(fs, |g|, s);
    assert RuleOk(g, fs[j], defs[j].re, j);
  }

  /** The rule whose addresses hold `s`. */
  lemma {:induction false} Cover(fs: seq<Frag>, n: nat, s: nat) returns (j: nat)
    requires Tiled(fs, n) && s < n
    ensures j < |fs| && fs[j].lo <= s < fs[j].hi
    decreases |fs|
  {
    assert fs != [];
    var last := |fs| - 1;
    if fs[last].lo <= s {
      j := last;
    } else {
      var front := fs[..last];
      assert last > 0;
      assert Tiled(front, fs[last].lo);
      j := Cover(front, fs[last].lo, s);
    }
  }

  /** No rule's tail is one of the two states the merge appends. */
  lemma {:induction false} TailsBefore(g0: Graph, fs: seq<Frag>, defs: seq<Definition>)
    requires RulesOk(g0, fs, defs)
    ensures forall j :: 0 <= j < |fs| ==> fs[j].tail < |g0|
  {
    forall j | 0 <= j < |fs| ensures fs[j].tail < |g0| {
      assert RuleOk(g0, fs[j], defs[j].re, j);
    }
  }

  /** The merge only adds edges. */
  lemma {:induction false} MergeGrows(g0: Graph, G: Graph, fs: seq<Frag>)
    requires Merged(g0, G, fs)
    ensures EdgesGrow(g0, G)
  {
    forall s, e | 0 <= s < |g0| && e in g0[s].outEdges ensures e in G[s].outEdges {
      assert Extended(g0)[s] == g0[s];
    }
  }

  /** What rule `j` in place gives: its tail, its token index and its language. */
  lemma {:induction false} RuleFacts(g0: Graph, fs: seq<Frag>, defs: seq<Definition>, j: nat)
    requires RulesOk(g0, fs, defs) && j < |fs|
    ensures fs[j].init < |g0| && fs[j].tail < |g0| && g0[fs[j].tail].tokenIndex == j
    ensures AcceptsAll(g0, fs[j].init, fs[j].tail, defs[j].re) && AcceptsOnly(g0, fs[j].init, fs[j].tail, defs[j].re)
  {
    assert RuleOk(g0, fs[j], defs[j].re, j);
    OpenLanguage(g0, fs[j].init, fs[j].tail, defs[j].re, Fold);
  }

  /** The new init's edges lead to the rules' inits, and only there. */
  lemma {:induction false} InitEdges(g0: Graph, G: Graph, fs: seq<Frag>, defs: seq<Definition>)
    requires RulesOk(g0, fs, defs) && Merged(g0, G, fs)
    ensures forall e :: e in G[|g0|].outEdges <==> exists j :: 0 <= j < |fs| && e == Edge(None, fs[j].init)
  {
    var I := |g0|;
    TailsBefore(g0, fs, defs);
    ContribFacts(fs, I, I, I + 1);
    assert G[I].outEdges == Extended(g0)[I].outEdges + Contrib(fs, I, I, I + 1);
  }

  /**
   * Every word of rule `j`'s expression leads from the new init to rule
   * `j`'s tail, which accepts with token index `j`.
   */
  lemma {:induction false} ReachRule(g0: Graph, G: Graph, fs: seq<Frag>, defs: seq<Definition>, j: nat, w: Text)
    requires RulesOk(g0, fs, defs) && Merged(g0, G, fs) && j < |fs| && Matches(defs[j].re, w)
    ensures fs[j].tail < |g0| && Reach(G, |g0|, fs[j].tail, w) && G[fs[j].tail].tokenIndex == j
  {
    var f, I := fs[j], |g0|;
    RuleFacts(g0, fs, defs, j);
    assert Reach(g0, f.init, f.tail, w);
    MergeGrows(g0, G, fs);
    ReachGrow(g0, G, f.init, f.tail, w);
    InitEdges(g0, G, fs, defs);
    assert Extended(g0)[f.tail] == g0[f.tail];
    ReachEdge(G, I, Edge(None, f.init));
    ReachTrans(G, I, f.init, f.tail, [], w);
  }

  /** The two states the merge appends accept nothing, and the new tail has no edge. */
  lemma {:induction false} NewStates(g0: Graph, G: Graph, fs: seq<Frag>, defs: seq<Definition>)
    requires RulesOk(g0, fs, defs) && Merged(g0, G, fs)
    ensures G[|g0|].tokenIndex == -1 && G[|g0| + 1].tokenIndex == -1 && G[|g0| + 1].outEdges == []
  {
    var I, T := |g0|, |g0| + 1;
    TailsBefore(g0, fs, defs);
    ContribFacts(fs, T, I, T);
    assert G[T].outEdges == Extended(g0)[T].outEdges + Contrib(fs, T, I, T);
  }

  /**
   * Inside the merge, rule `j`'s states other than its tail keep their
   * edges, its tail gains only the edge to the new tail, and only its tail
   * accepts.
   */
  lemma {:induction false} RuleInMerge(g0: Graph, G: Graph, fs: seq<Frag>, defs: seq<Definition>, j: nat)
    requires RulesOk(g0, fs, defs) && Merged(g0, G, fs) && j < |fs|
    ensures var f := fs[j]; var S := SetOf(f.states);
      && Closed(g0, S) && f.init in S && f.tail in S
      && SameEdgesExcept(g0, G, S, f.tail)
      && f.tail < |g0| && (forall e :: e in G[f.tail].outEdges && e !in g0[f.tail].outEdges ==> e == Edge(None, |g0| + 1))
      && (forall x :: x in S && G[x].tokenIndex != -1 ==> x == f.tail)
  {
    var f, I, T := fs[j], |g0|, |g0| + 1;
    var S := SetOf(f.states);
    assert RuleOk(g0, f, defs[j].re, j);
    forall s | s in S && s != f.tail ensures s < |g0| && s < |G| && g0[s].outEdges == G[s].outEdges {
      TailsApart(g0, fs, defs, j, s);
      ContribFacts(fs, s, I, T);
      assert Extended(g0)[s] == g0[s];
    }
    ContribFacts(fs, f.tail, I, T);
    assert Extended(g0)[f.tail] == g0[f.tail];
    forall x | x in S && G[x].tokenIndex != -1 ensures x == f.tail {
      assert Extended(g0)[x] == g0[x];
    }
  }

  /**
   * A walk from the new init to an accepting state enters one rule and
   * never leaves it: it ends at that rule's tail, spelling a word of the
   * rule's expression.
   */
  lemma {:induction false} LeaveInit(g0: Graph, G: Graph, fs: seq<Frag>, defs: seq<Definition>, p: seq<Edge>, x: nat)
    returns (j: nat)
    requires RulesOk(g0, fs, defs) && Merged(g0, G, fs)
    requires Walk(G, |g0|, p, x) && x < |G| && G[x].tokenIndex != -1
    ensures j < |fs| && x == fs[j].tail && Matches(defs[j].re, Word(p))
  {
    NewStates(g0, G, fs, defs);
    InitEdges(g0, G, fs, defs);
    assert p != [];
    assert p[0] in G[|g0|].outEdges;
    j :| 0 <= j < |fs| && p[0] == Edge(None, fs[j].init);
    InsideRule(g0, G, fs, defs, j, p[1..], x);
    assert Word(p) == Word(p[1..]);
  }

  /** A walk from rule `j`'s init to an accepting state of the merge stays in rule `j` and ends at its tail. */
  lemma {:induction false} InsideRule(g0: Graph, G: Graph, fs: seq<Frag>, defs: seq<Definition>, j: nat, q: seq<Edge>, x: nat)
    requires RulesOk(g0, fs, defs) && Merged(g0, G, fs) && j < |fs|
    requires Walk(G, fs[j].init, q, x) && x < |G| && G[x].tokenIndex != -1
    ensures x == fs[j].tail && Matches(defs[j].re, Word(q))
  {
    var f, T := fs[j], |g0| + 1;
    NewStates(g0, G, fs, defs);
    RuleInMerge(g0, G, fs, defs, j);
    var k := ExitSplit(g0, G, SetOf(f.states), f.tail, f.init, q, x);
    if k == |q| {
      RuleFacts(g0, fs, defs, j);
    } else {
      assert q[k] == Edge(None, T);
      assert q[k].target == T;
      WalkFromSink(G, T, q[k + 1..], x);
      assert false;
    }
  }

  /** The first rule, from `j` on, whose expression matches `w`; -1 when none does. */
  ghost function FirstMatch(defs: seq<Definition>, w: Text, j: nat): int
    decreases |defs| - j
  {
    if j >= |defs| then -1
    else if Matches(defs[j].re, w) then j
    else FirstMatch(defs, w, j + 1)
  }

  lemma {:induction false} FirstMatchMeaning(defs: seq<Definition>, w: Text, j: nat)
    ensures var r := FirstMatch(defs, w, j);
      && (r == -1 <==> forall i :: j <= i < |defs| ==> !Matches(defs[i].re, w))
      && (r != -1 ==> j <= r < |defs| && Matches(defs[r].re, w) && forall i :: j <= i < r ==> !Matches(defs[i].re, w))
    decreases |defs| - j
  {
    if j < |defs| {
      FirstMatchMeaning(defs, w, j + 1);
    }
  }

  /**
   * The token of a word in the merge: the token index the NFA states it
   * reaches accept with is that of the first rule whose expression matches
   * the word, and -1 when none does.
   */
  lemma {:induction false} TokenIsFirstMatch(g0: Graph, G: Graph, fs: seq<Frag>, defs: seq<Definition>, w: Text)
    requires RulesOk(g0, fs, defs) && Merged(g0, G, fs)
    ensures AcceptIndex(G, Reachable(G, {|g0|}, w)) == FirstMatch(defs, w, 0)
  {
    var I := |g0|;
    var r, m := AcceptIndex(G, Reachable(G, {I}, w)), FirstMatch(defs, w, 0);
    TokenMeaning(G, I, w);
    FirstMatchMeaning(defs, w, 0);
    if r != -1 {
      var t: nat :| t < |G| && Reach(G, I, t, w) && G[t].tokenIndex == r;
      var p :| Walk(G, I, p, t) && Word(p) == w;
      var j := LeaveInit(g0, G, fs, defs, p, t);
      ReachRule(g0, G, fs, defs, j, w);
      assert r == j && m != -1;
      ReachRule(g0, G, fs, defs, m, w);
    } else if m != -1 {
      ReachRule(g0, G, fs, defs, m, w);
    }
  }

  /** The rules' states, rule after rule, as `add_state(*model.states)` appends them. */
  function Flat(fs: seq<Frag>): seq<nat> {
    if fs == [] then [] else Flat(fs[..|fs| - 1]) + fs[|fs| - 1].states
  }

  lemma {:induction false} FlatHas(fs: seq<Frag>, j: nat, x: nat)
    requires j < |fs| && x in fs[j].states
    ensures x in Flat(fs)
    decreases |fs|
  {
    if j < |fs| - 1 {
      FlatHas(fs[..|fs| - 1], j, x);
    }
  }

  /** The rules in place lie in the arena: their inits, tails and states. */
  lemma {:induction false} FragIn(g0: Graph, fs: seq<Frag>, defs: seq<Definition>, j: nat)
    requires RulesOk(g0, fs, defs) && j < |fs|
    ensures fs[j].init < |g0| && fs[j].tail < |g0| && forall s :: s in fs[j].states ==> s < |g0|
  {
    assert RuleOk(g0, fs[j], defs[j].re, j);
  }

  /** Nothing merged yet: the two new states alone. */
  lemma {:induction false} MergeNone(g0: Graph, G: Graph)
    requires SameShape(G, Extended(g0))
    ensures Merged(g0, G, [])
  {
  }

  /**
   * One more rule merged: an edge from the init to the rule's init, an edge
   * from the rule's tail to the new tail, then state indices renumbered.
   */
  lemma {:induction false} MergeStep(g0: Graph, G: Graph, H: Graph, fs: seq<Frag>, i: nat, ss: seq<nat>)
    requires i < |fs| && Merged(g0, G, fs[..i]) && fs[i].tail < |G|
    requires Retagged(WithEdge(WithEdge(G, |g0|, Edge(None, fs[i].init)), fs[i].tail, Edge(None, |g0| + 1)), H, ss)
    ensures Merged(g0, H, fs[..i + 1])
  {
    var G2 := WithEdge(WithEdge(G, |g0|, Edge(None, fs[i].init)), fs[i].tail, Edge(None, |g0| + 1));
    forall s | 0 <= s < |H|
      ensures H[s].outEdges == Extended(g0)[s].outEdges + Contrib(fs[..i + 1], s, |g0|, |g0| + 1)
      ensures H[s].tokenIndex == Extended(g0)[s].tokenIndex
    {
      MergeStepAt(g0, G, fs, i, s, G2);
    }
  }

  /** One state of the merge after one more rule: its edges gain exactly what the rule contributes there. */
  lemma {:induction false} MergeStepAt(g0: Graph, G: Graph, fs: seq<Frag>, i: nat, s: nat, G2: Graph)
    requires i < |fs| && Merged(g0, G, fs[..i]) && fs[i].tail < |G| && s < |G|
    requires G2 == WithEdge(WithEdge(G, |g0|, Edge(None, fs[i].init)), fs[i].tail, Edge(None, |g0| + 1))
    ensures G2[s].outEdges == Extended(g0)[s].outEdges + Contrib(fs[..i + 1], s, |g0|, |g0| + 1)
    ensures G2[s].tokenIndex == Extended(g0)[s].tokenIndex
  {
    var I, T := |g0|, |g0| + 1;
    assert fs[..i + 1][..i] == fs[..i];
    assert fs[..i + 1][i] == fs[i];
    assert Contrib(fs[..i + 1], s, I, T) == Contrib(fs[..i], s, I, T)
      + (if s == I then [Edge(None, fs[i].init)] else [])
      + (if s == fs[i].tail then [Edge(None, T)] else []);
    var G1 := WithEdge(G, I, Edge(None, fs[i].init));
    assert G1[s].outEdges == G[s].outEdges + (if s == I then [Edge(None, fs[i].init)] else []);
  }
}
