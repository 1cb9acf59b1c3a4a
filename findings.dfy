/**
 * Three places where the lexer generator as written does not do what it
 * evidently means to do, each shown on a concrete input, beside the
 * behaviour the rest of the model takes as intended.
 */
module Findings {
  import opened Wrappers
  import opened RegularExpression
  import opened NfaModel
  import opened NfaModelConverter
  import opened DfaModel
  import opened Fsa
  import opened Tokens
  import opened Runs
  import opened Merge
  import opened Scanner

  // ---------------------------------------------------------------------------
  // `valid_inputs()` returns every key of the lookup, the epsilon key included
  // ---------------------------------------------------------------------------

  /** `valid_inputs()` as written: every key of the state's lookup, `None` for epsilon edges included. */
  function ValidInputsAsWritten(st: NState): (vs: set<Symbol>)
    requires st.lookup == LookupOf(st.outEdges)
    ensures forall a :: a in vs <==> exists t :: Edge(a, t) in st.outEdges
  {
    LookupOfTargets(st.outEdges);
    st.lookup.Keys
  }

  /**
   * `max(self._all_symbols) + 1` in `_build_transition_table`: it raises
   * (`None`) on an empty set, and on a set holding `None`, which does not
   * compare with a number.
   */
  function WidthAsWritten(syms: set<Symbol>): (r: Option<nat>)
    ensures r.Some? <==> syms != {} && None !in syms
    ensures r.Some? ==> forall a :: a in syms ==> a.value < r.value
  {
    if syms == {} || None in syms then None
    else
      var codes := set a | a in syms :: a.value;
      assert (syms - {None}) == syms;
      var a :| a in syms;
      assert a.value in codes;
      assert forall b :: b in syms ==> b.value in codes;
      Some(MaxOf(codes) + 1)
  }

  /**
   * As written, every scanner with at least one rule fails in `init()`:
   * the merge's init state has an epsilon edge to the first rule's model,
   * it is in the start DFA state, so `build_model` adds `None` to the
   * symbols, and the width computation raises whatever else they hold.
   */
  lemma {:induction false} InitAlwaysRaises(g0: Graph, G: Graph, fs: seq<Frag>, defs: seq<Definition>, ds: seq<DState>, syms: set<Code>)
    requires RulesOk(g0, fs, defs) && Merged(g0, G, fs) && |fs| >= 1
    requires WellFormedGraph(G) && Built(G, |g0|, ds, syms)
    ensures |g0| in ds[0].nfaStates && None in ValidInputsAsWritten(G[|g0|])
    ensures forall S: set<Symbol> :: ValidInputsAsWritten(G[|g0|]) <= S ==> WidthAsWritten(S).None?
  {
    var I := |g0|;
    InitEpsilon(g0, G, fs, defs);
    assert WellFormedState(G[I], |G|);
    assert InGraph(G, {I});
  }

  /** The merge's init state has an epsilon edge to the first rule's model. */
  lemma {:induction false} InitEpsilon(g0: Graph, G: Graph, fs: seq<Frag>, defs: seq<Definition>)
    requires RulesOk(g0, fs, defs) && Merged(g0, G, fs) && |fs| >= 1
    ensures Edge(None, fs[0].init) in G[|g0|].outEdges
  {
    var I := |g0|;
    forall j | 0 <= j < |fs| ensures fs[j].tail != I {
      FragIn(g0, fs, defs, j);
    }
    ContribFacts(fs, I, I, I + 1);
    assert Edge(None, fs[0].init) in Contrib(fs, I, I, I + 1);
    assert G[I].outEdges == Merge.Extended(g0)[I].outEdges + Contrib(fs, I, I, I + 1);
  }

  // ---------------------------------------------------------------------------
  // The generator of `cal_by` is spent by its first conversion
  // ---------------------------------------------------------------------------

  /**
   * A tree converted a second time after its first conversion: each
   * predicate node's generator is spent, so it comes out as a batch of no
   * characters.
   */
  function Spent(e: Regex): (r: Regex)
    ensures e.Function? ==> r == BatchOr([])
  {
    match e
    case Function(_) => BatchOr([])
    case Or(a, b) => Or(Spent(a), Spent(b))
    case Concat(a, b) => Concat(Spent(a), Spent(b))
    case Star(a) => Star(Spent(a))
    case _ => e
  }

  /**
   * What the converter builds for `e.at_least_once()`, the node `e + e*`
   * that holds `e` twice: the left copy is converted first and spends the
   * generators, so the starred copy is the spent one.
   */
  function AtLeastOnceAsWritten(e: Regex): (r: Regex)
    ensures r == Concat(e, Star(Spent(e)))
  {
    Concat(e, Star(Spent(e)))
  }

  /** A star over a batch of no characters matches the empty word alone. */
  lemma {:induction false} StarOfNothing(w: Text)
    ensures Matches(Star(BatchOr([])), w) <==> w == []
  {
  }

  /**
   * As written, `cal_by(p).at_least_once()` matches exactly the words of
   * `cal_by(p)`: one accepted character and no more.
   */
  lemma {:induction false} CalByOnce(p: Code -> bool, w: Text)
    ensures Matches(AtLeastOnceAsWritten(CalBy(p)), w) <==> Matches(CalBy(p), w)
  {
    if Matches(AtLeastOnceAsWritten(CalBy(p)), w) {
      var k :| 0 <= k <= |w| && Matches(CalBy(p), w[..k]) && Matches(Star(BatchOr([])), w[k..]);
      StarOfNothing(w[k..]);
      assert w[..k] == w;
    }
    if Matches(CalBy(p), w) {
      assert w[..|w|] == w && w[|w|..] == [];
      assert Matches(Star(BatchOr([])), w[|w|..]);
    }
  }

  /**
   * The input that shows it: with `p` accepting `a` (code 97), `aa` is in
   * the language of `cal_by(p).at_least_once()` as intended and yet not
   * matched as written.
   */
  lemma {:induction false} CalByOnceLosesTwo(p: Code -> bool)
    requires p(97)
    ensures Matches(AtLeastOnce(CalBy(p)), [97, 97])
    ensures !Matches(AtLeastOnceAsWritten(CalBy(p)), [97, 97])
  {
    var w: Text := [97, 97];
    CalByOnce(p, w);
    assert Matches(CalBy(p), [97]);
    assert Matches(Star(CalBy(p)), []);
    assert w[1..] == [97] && w[..1] == [97];
    assert [97][..1] == [97] && [97][1..] == [];
    assert Matches(Star(CalBy(p)), [97]);
    AtLeastOnceLanguage(CalBy(p), w);
  }

  // ---------------------------------------------------------------------------
  // `EOF` is read as column -1 of the transition table
  // ---------------------------------------------------------------------------

  /**
   * The merged NFA of a scanner whose one rule is the character `a`: the
   * rule's init 0 and its accepting tail 1, then the merge's init 2 and
   * tail 3.
   */
  ghost predicate CharMerge(G: Graph, a: Code) {
    && |G| == 4
    && G[0].outEdges == [Edge(Some(a), 1)] && G[1].outEdges == [Edge(None, 3)]
    && G[2].outEdges == [Edge(None, 0)] && G[3].outEdges == []
    && G[1].tokenIndex == 0 && G[0].tokenIndex == G[2].tokenIndex == G[3].tokenIndex == -1
  }

  /**
   * The merged NFA of a scanner whose one rule is `a*`: the character's
   * init 0 and tail 1, the star's init 2 and accepting tail 3, then the
   * merge's init 4 and tail 5.
   */
  ghost predicate StarMerge(G: Graph, a: Code) {
    && |G| == 6
    && G[0].outEdges == [Edge(Some(a), 1)] && G[1].outEdges == [Edge(None, 3)]
    && G[2].outEdges == [Edge(None, 3), Edge(None, 0)] && G[3].outEdges == [Edge(None, 2), Edge(None, 5)]
    && G[4].outEdges == [Edge(None, 2)] && G[5].outEdges == []
    && G[3].tokenIndex == 0
    && G[0].tokenIndex == G[1].tokenIndex == G[2].tokenIndex == G[4].tokenIndex == G[5].tokenIndex == -1
  }

  /** What the merge adds to the states of one rule laid out in `f`. */
  lemma {:induction false} ContribOne(f: Frag, s: nat, I: nat, T: nat)
    ensures Contrib([f], s, I, T) == (if s == I then [Edge(None, f.init)] else []) + (if s == f.tail then [Edge(None, T)] else [])
  {
    assert [f][..0] == [];
  }

  /** The one rule `a`, converted into an empty arena and merged, is `CharMerge`. */
  lemma {:induction false} CharMergeOf(b: Graph, G: Graph, fs: seq<Frag>, defs: seq<Definition>, a: Code)
    requires RulesOk(b, fs, defs) && |fs| == 1 && Merged(b, G, fs)
    requires CharShape(b, 0, fs[0].init, fs[0].tail, Some(a))
    ensures CharMerge(G, a)
  {
    var f := fs[0];
    assert fs == [f];
    assert RuleOk(b, f, defs[0].re, 0);
    assert f.lo == 0 && f.hi == 2;
    forall s | 0 <= s < 4 ensures G[s].outEdges == Merge.Extended(b)[s].outEdges + Contrib([f], s, 2, 3) {
    }
    ContribOne(f, 0, 2, 3);
    ContribOne(f, 1, 2, 3);
    ContribOne(f, 2, 2, 3);
    ContribOne(f, 3, 2, 3);
    assert Merge.Extended(b)[2] == NewNState && Merge.Extended(b)[3] == NewNState;
  }

  /** The one rule `a*`, converted into an empty arena and merged, is `StarMerge`. */
  lemma {:induction false} StarMergeOf(b: Graph, G: Graph, fs: seq<Frag>, defs: seq<Definition>, a: Code)
    requires RulesOk(b, fs, defs) && |fs| == 1 && Merged(b, G, fs)
    requires StarCharShape(b, 0, fs[0].init, fs[0].tail, Some(a))
    ensures StarMerge(G, a)
  {
    var f := fs[0];
    assert fs == [f];
    assert RuleOk(b, f, defs[0].re, 0);
    assert f.lo == 0 && f.hi == 4;
    forall s | 0 <= s < 6 ensures G[s].outEdges == Merge.Extended(b)[s].outEdges + Contrib([f], s, 4, 5) {
    }
    ContribOne(f, 0, 4, 5);
    ContribOne(f, 1, 4, 5);
    ContribOne(f, 2, 4, 5);
    ContribOne(f, 3, 4, 5);
    ContribOne(f, 4, 4, 5);
    ContribOne(f, 5, 4, 5);
    assert Merge.Extended(b)[4] == NewNState && Merge.Extended(b)[5] == NewNState;
  }

  /** A state without symbol edges has no labels. */
  lemma {:induction false} NoLabels(st: NState)
    requires forall e :: e in st.outEdges ==> e.symbol == None
    ensures Labels(st) == {}
  {
  }

  /** A state whose one edge carries `a` has the one label `a`. */
  lemma {:induction false} OneLabel(st: NState, a: Code, t: nat)
    requires st.outEdges == [Edge(Some(a), t)]
    ensures Labels(st) == {a}
  {
    assert Edge(Some(a), t) in st.outEdges;
  }

  /** Nothing closes to nothing. */
  lemma {:induction false} ClosureOfNothing(g: Graph)
    ensures Closure(g, {}) == {}
  {
    ClosureLeast(g, {}, {});
  }

  /**
   * In a graph whose only symbol edge is state 0's edge on `a` to state 1,
   * a set holding state 0 moves on `a` to state 1 and on nothing else, and
   * its one input symbol is `a`.
   */
  lemma {:induction false} OnlyEdge(G: Graph, T: set<nat>, a: Code)
    requires |G| >= 2 && G[0].outEdges == [Edge(Some(a), 1)] && 0 in T && InGraph(G, T)
    requires forall s :: 1 <= s < |G| ==> forall e :: e in G[s].outEdges ==> e.symbol == None
    ensures forall x :: Move(G, T, x) == if x == a then {1} else {}
    ensures Inputs(G, T) == {a}
  {
    forall x ensures Move(G, T, x) == if x == a then {1} else {} {
      forall t ensures t in Move(G, T, x) <==> x == a && t == 1 {
        if x == a && t == 1 {
          assert MovesTo(G, T, x, t) by {
            assert Edge(Some(a), 1) in G[0].outEdges;
          }
        }
        if t in Move(G, T, x) {
          var s :| s in T && s < |G| && Edge(Some(x), t) in G[s].outEdges;
          if s != 0 {
            assert Edge(Some(x), t).symbol == None;
          }
        }
      }
    }
    OneLabel(G[0], a, 1);
    forall s | 1 <= s < |G| ensures Labels(G[s]) == {} {
      NoLabels(G[s]);
    }
    assert a in Inputs(G, T) by {
      assert a in Labels(G[0]);
    }
  }

  /** In a graph without symbol edges out of `T`, `T` moves nowhere and has no input symbol. */
  lemma {:induction false} NoEdges(G: Graph, T: set<nat>)
    requires forall s :: s in T && s < |G| ==> forall e :: e in G[s].outEdges ==> e.symbol == None
    ensures forall x :: Move(G, T, x) == {}
    ensures Inputs(G, T) == {}
  {
    forall x ensures Move(G, T, x) == {} {
      forall t | t in Move(G, T, x) ensures false {
      }
    }
    forall s | s in T && s < |G| ensures Labels(G[s]) == {} {
      NoLabels(G[s]);
    }
  }

  /** `C` is the closure of `S` when it holds `S`, no epsilon edge leaves it, and the closure holds it. */
  lemma {:induction false} ClosureIs(g: Graph, S: set<nat>, C: set<nat>)
    requires S <= C && EpsilonClosed(g, C) && C <= Closure(g, S)
    ensures Closure(g, S) == C
  {
    ClosureLeast(g, S, C);
  }

  /** The closure of `S` holds every state an epsilon walk leads to from `S`. */
  lemma {:induction false} WalkInClosure(g: Graph, S: set<nat>, s: nat, p: seq<nat>, t: nat)
    requires s in S && EpsilonWalk(g, s, p, t) && t < |g|
    ensures t in Closure(g, S)
  {
    assert DfaModel.EpsilonReach(g, S, t);
  }

  /** The epsilon edges among `es` lead into `C`. */
  ghost predicate EpsilonInto(es: seq<Edge>, C: set<nat>) {
    forall e :: e in es && e.symbol == None ==> e.target in C
  }

  /** No epsilon edge leaves `C` when the epsilon edges of each of its states lead into it. */
  lemma {:induction false} ClosedOf(g: Graph, C: set<nat>)
    requires forall s :: s in C && s < |g| ==> EpsilonInto(g[s].outEdges, C)
    ensures EpsilonClosed(g, C)
  {
    forall s, e | s in C && s < |g| && e in g[s].outEdges && e.symbol == None ensures e.target in C {
      assert EpsilonInto(g[s].outEdges, C);
    }
  }

  /** The sets of NFA states the subset construction meets in `CharMerge`. */
  lemma {:induction false} CharConfigs(G: Graph, a: Code)
    requires CharMerge(G, a) && WellFormedGraph(G)
    ensures Closure(G, {2}) == {2, 0} && Closure(G, {1}) == {1, 3}
    ensures forall x :: Move(G, {2, 0}, x) == if x == a then {1} else {}
    ensures forall x :: Move(G, {1, 3}, x) == {}
    ensures Inputs(G, {2, 0}) == {a} && Inputs(G, {1, 3}) == {}
  {
    CharStart(G, a);
    CharAfter(G, a);
    OnlyEdge(G, {2, 0}, a);
    NoEdges(G, {1, 3});
  }

  lemma {:induction false} CharStart(G: Graph, a: Code)
    requires CharMerge(G, a)
    ensures Closure(G, {2}) == {2, 0}
  {
    ClosedOf(G, {2, 0});
    WalkInClosure(G, {2}, 2, [], 2);
    assert EpsilonWalk(G, 2, [0], 0) by {
      assert [0][1..] == [];
    }
    WalkInClosure(G, {2}, 2, [0], 0);
    ClosureIs(G, {2}, {2, 0});
  }

  lemma {:induction false} CharAfter(G: Graph, a: Code)
    requires CharMerge(G, a)
    ensures Closure(G, {1}) == {1, 3}
  {
    ClosedOf(G, {1, 3});
    WalkInClosure(G, {1}, 1, [], 1);
    assert EpsilonWalk(G, 1, [3], 3) by {
      assert [3][1..] == [];
    }
    WalkInClosure(G, {1}, 1, [3], 3);
    ClosureIs(G, {1}, {1, 3});
  }

  /** The sets of NFA states the subset construction meets in `StarMerge`. */
  lemma {:induction false} StarConfigs(G: Graph, a: Code)
    requires StarMerge(G, a) && WellFormedGraph(G)
    ensures Closure(G, {4}) == {4, 2, 3, 0, 5} && Closure(G, {1}) == {1, 3, 2, 0, 5}
    ensures forall x :: Move(G, {4, 2, 3, 0, 5}, x) == if x == a then {1} else {}
    ensures forall x :: Move(G, {1, 3, 2, 0, 5}, x) == if x == a then {1} else {}
    ensures Inputs(G, {4, 2, 3, 0, 5}) == {a} && Inputs(G, {1, 3, 2, 0, 5}) == {a}
  {
    StarStart(G, a);
    StarAfter(G, a);
    OnlyEdge(G, {4, 2, 3, 0, 5}, a);
    OnlyEdge(G, {1, 3, 2, 0, 5}, a);
  }

  /** No epsilon edge leaves a set of states of `StarMerge` holding 0, 2, 3 and 5. */
  lemma {:induction false} StarLoopClosed(G: Graph, a: Code, C: set<nat>)
    requires StarMerge(G, a) && 0 in C && 2 in C && 3 in C && 5 in C
    ensures EpsilonClosed(G, C)
  {
    forall s | s in C && s < |G| ensures EpsilonInto(G[s].outEdges, C) {
    }
    ClosedOf(G, C);
  }

  /** From state 2 of `StarMerge`, epsilon edges lead to 3, 0 and 5. */
  lemma {:induction false} StarLoopWalks(G: Graph, a: Code)
    requires StarMerge(G, a)
    ensures EpsilonWalk(G, 2, [3], 3) && EpsilonWalk(G, 2, [0], 0) && EpsilonWalk(G, 2, [3, 5], 5)
  {
    assert [3][1..] == [] && [0][1..] == [] && [3, 5][1..] == [5] && [5][1..] == [];
  }

  lemma {:induction false} StarStart(G: Graph, a: Code)
    requires StarMerge(G, a)
    ensures Closure(G, {4}) == {4, 2, 3, 0, 5}
  {
    StarLoopClosed(G, a, {4, 2, 3, 0, 5});
    StarLoopWalks(G, a);
    assert EpsilonWalk(G, 4, [2, 3], 3) && EpsilonWalk(G, 4, [2, 0], 0) && EpsilonWalk(G, 4, [2, 3, 5], 5) by {
      assert [2, 3][1..] == [3] && [2, 0][1..] == [0] && [2, 3, 5][1..] == [3, 5];
    }
    assert EpsilonWalk(G, 4, [2], 2) by {
      assert [2][1..] == [];
    }
    WalkInClosure(G, {4}, 4, [], 4);
    WalkInClosure(G, {4}, 4, [2], 2);
    WalkInClosure(G, {4}, 4, [2, 3], 3);
    WalkInClosure(G, {4}, 4, [2, 0], 0);
    WalkInClosure(G, {4}, 4, [2, 3, 5], 5);
    ClosureIs(G, {4}, {4, 2, 3, 0, 5});
  }

  lemma {:induction false} StarAfter(G: Graph, a: Code)
    requires StarMerge(G, a)
    ensures Closure(G, {1}) == {1, 3, 2, 0, 5}
  {
    StarLoopClosed(G, a, {1, 3, 2, 0, 5});
    StarLoopWalks(G, a);
    assert EpsilonWalk(G, 1, [3], 3) && EpsilonWalk(G, 1, [3, 5], 5) by {
      assert [3][1..] == [] && [3, 5][1..] == [5];
    }
    assert EpsilonWalk(G, 1, [3, 2], 2) by {
      assert [3, 2][1..] == [2] && [2][1..] == [];
    }
    assert EpsilonWalk(G, 1, [3, 2, 0], 0) by {
      assert [3, 2, 0][1..] == [2, 0] && [2, 0][1..] == [0];
    }
    WalkInClosure(G, {1}, 1, [], 1);
    WalkInClosure(G, {1}, 1, [3], 3);
    WalkInClosure(G, {1}, 1, [3, 2], 2);
    WalkInClosure(G, {1}, 1, [3, 2, 0], 0);
    WalkInClosure(G, {1}, 1, [3, 5], 5);
    ClosureIs(G, {1}, {1, 3, 2, 0, 5});
  }

  /** Every step on an input symbol from `C0` or `C1` leads to one of them, or nowhere. */
  ghost predicate StepsWithin(g: Graph, C0: set<nat>, C1: set<nat>) {
    && (forall x :: x in Inputs(g, C0) ==> Step(g, C0, x) == C0 || Step(g, C0, x) == C1 || Step(g, C0, x) == {})
    && (forall x :: x in Inputs(g, C1) ==> Step(g, C1, x) == C0 || Step(g, C1, x) == C1 || Step(g, C1, x) == {})
  }

  /**
   * Every DFA state holds `C0` or `C1`, when the first one holds `C0` and
   * every step on an input symbol from either that leads somewhere leads to
   * one of them.
   */
  lemma {:induction false} ConfigsWithin(g: Graph, ds: seq<DState>, C0: set<nat>, C1: set<nat>, i: nat)
    requires EdgesOk(g, ds) && Entered(ds) && i < |ds| && ds[0].nfaStates == C0
    requires forall j :: 0 <= j < |ds| ==> ds[j].nfaStates != {}
    requires StepsWithin(g, C0, C1)
    ensures ds[i].nfaStates == C0 || ds[i].nfaStates == C1
    decreases i
  {
    if i > 0 {
      var j := EnteredWithin(g, ds, C0, C1, i);
      ConfigsWithin(g, ds, C0, C1, j);
    }
  }

  /** DFA state `i + 1` is entered from an earlier one, and lies within `C0` and `C1` when that one does. */
  lemma {:induction false} EnteredWithin(g: Graph, ds: seq<DState>, C0: set<nat>, C1: set<nat>, i: nat) returns (j: nat)
    requires EdgesOk(g, ds) && Entered(ds) && 1 <= i < |ds| && ds[i].nfaStates != {}
    requires StepsWithin(g, C0, C1)
    ensures j < i && (ds[j].nfaStates == C0 || ds[j].nfaStates == C1 ==> ds[i].nfaStates == C0 || ds[i].nfaStates == C1)
  {
    assert EnteredFrom(ds, i);
    var x;
    j, x := EnteredBy(g, ds, i);
    if ds[j].nfaStates == C0 || ds[j].nfaStates == C1 {
      StepWithin(g, ds[j].nfaStates, C0, C1, ds[i].nfaStates, x);
    }
  }

  /** A non-empty step on an input symbol of `T`, one of `C0` and `C1`, lands in one of them. */
  lemma {:induction false} StepWithin(g: Graph, T: set<nat>, C0: set<nat>, C1: set<nat>, U: set<nat>, x: Code)
    requires T == C0 || T == C1
    requires StepsWithin(g, C0, C1)
    requires x in Inputs(g, T) && Step(g, T, x) == U && U != {}
    ensures U == C0 || U == C1
  {
  }

  /** A DFA state after the first is a non-empty step on an input symbol from an earlier one. */
  lemma {:induction false} EnteredBy(g: Graph, ds: seq<DState>, i: nat) returns (j: nat, x: Code)
    requires EdgesOk(g, ds) && 1 <= i < |ds| && EnteredFrom(ds, i)
    ensures j < i && x in Inputs(g, ds[j].nfaStates)
    ensures ds[i].nfaStates == Step(g, ds[j].nfaStates, x)
  {
    var j', k :| 0 <= j' < i && j' < |ds| && 0 <= k < |ds[j'].outEdges| && ds[j'].outEdges[k].target == i + 1;
    EdgeEnters(g, ds, i, j', k);
    j, x := j', ds[j'].outEdges[k].symbol;
  }

  /** An edge into DFA state `i + 1` carries an input symbol of its source, and steps there. */
  lemma {:induction false} EdgeEnters(g: Graph, ds: seq<DState>, i: nat, j: nat, k: nat)
    requires EdgesOk(g, ds) && i < |ds| && j < |ds| && k < |ds[j].outEdges| && ds[j].outEdges[k].target == i + 1
    ensures ds[j].outEdges[k].symbol in Inputs(g, ds[j].nfaStates)
    ensures ds[i].nfaStates == Step(g, ds[j].nfaStates, ds[j].outEdges[k].symbol)
  {
    assert EdgeOk(g, ds, ds[j].nfaStates, ds[j].outEdges[k]);
  }

  /** Distinct DFA states, each holding `C0` or `C1`, are at most two. */
  lemma {:induction false} AtMostTwo(ds: seq<DState>, C0: set<nat>, C1: set<nat>)
    requires forall i :: 0 <= i < |ds| ==> ds[i].nfaStates == C0 || ds[i].nfaStates == C1
    requires forall i, j :: 0 <= i < j < |ds| ==> ds[i].nfaStates != ds[j].nfaStates
    ensures |ds| <= 2
  {
    if |ds| > 2 {
      ThreeOfTwo(ds[0].nfaStates, ds[1].nfaStates, ds[2].nfaStates, C0, C1);
      assert false;
    }
  }

  /** Three sets, each `C0` or `C1`, are not all distinct. */
  lemma {:induction false} ThreeOfTwo<T>(x0: T, x1: T, x2: T, C0: T, C1: T)
    requires (x0 == C0 || x0 == C1) && (x1 == C0 || x1 == C1) && (x2 == C0 || x2 == C1)
    ensures x0 == x1 || x0 == x2 || x1 == x2
  {
  }

  /** The input symbols of a DFA of two states. */
  lemma {:induction false} AllInputsOfTwo(g: Graph, ds: seq<DState>)
    requires |ds| == 2
    ensures AllInputs(g, ds) == Inputs(g, ds[0].nfaStates) + Inputs(g, ds[1].nfaStates)
  {
    forall x | x in Inputs(g, ds[1].nfaStates) ensures x in AllInputs(g, ds) {
      assert 0 <= 1 < |ds|;
    }
  }

  /**
   * What the rest of this section uses of a built DFA: its edges, how each
   * state is entered, that each holds a non-empty set of NFA states of its
   * own, and its accepting token.
   */
  ghost predicate BuiltShape(g: Graph, ds: seq<DState>) {
    && |ds| >= 1 && EdgesOk(g, ds) && Entered(ds)
    && (forall i :: 0 <= i < |ds| ==> EdgesComplete(g, ds[i]) && ds[i].nfaStates != {})
    && (forall i :: 0 <= i < |ds| ==> ds[i].tokenIndex == AcceptIndex(g, ds[i].nfaStates))
    && (forall i, j :: 0 <= i < j < |ds| ==> ds[i].nfaStates != ds[j].nfaStates)
  }

  lemma {:induction false} BuiltParts(g: Graph, init: nat, ds: seq<DState>, syms: set<Code>)
    requires Built(g, init, ds, syms)
    ensures BuiltShape(g, ds) && ds[0].nfaStates == Closure(g, {init}) && syms == AllInputs(g, ds)
  {
    forall i | 0 <= i < |ds| ensures ds[i].nfaStates != {} && ds[i].tokenIndex == AcceptIndex(g, ds[i].nfaStates) {
      assert StateOk(g, ds[i], i);
    }
  }

  /**
   * A DFA whose start holds `C0`, from which `a` leads to `C1`, and whose
   * every step leads back into `C0` or `C1`, has exactly those two states.
   */
  lemma {:induction false} TwoStates(g: Graph, ds: seq<DState>, C0: set<nat>, C1: set<nat>, a: Code)
    requires BuiltShape(g, ds) && ds[0].nfaStates == C0 && C0 != C1 && C1 != {} && Step(g, C0, a) == C1
    requires StepsWithin(g, C0, C1)
    ensures |ds| == 2 && ds[1].nfaStates == C1 && Next(ds, 1, a) == 2
    ensures AllInputs(g, ds) == Inputs(g, C0) + Inputs(g, C1)
  {
    forall i | 0 <= i < |ds| ensures ds[i].nfaStates == C0 || ds[i].nfaStates == C1 {
      ConfigsWithin(g, ds, C0, C1, i);
    }
    AtMostTwo(ds, C0, C1);
    StepToSecond(g, ds, C0, C1, a);
    AllInputsOfTwo(g, ds);
  }

  /** A non-empty step from the start to another set of NFA states leads to a later DFA state. */
  lemma {:induction false} StepToSecond(g: Graph, ds: seq<DState>, C0: set<nat>, C1: set<nat>, a: Code)
    requires EdgesOk(g, ds) && |ds| >= 1 && EdgesComplete(g, ds[0]) && ds[0].nfaStates == C0
    requires Step(g, C0, a) == C1 && C1 != {} && C0 != C1
    ensures 2 <= Next(ds, 1, a) <= |ds| && ds[Next(ds, 1, a) - 1].nfaStates == C1
  {
    NextStep(g, ds, 1, a);
  }

  /** The accepting token of states none of which accepts. */
  lemma {:induction false} AcceptsNone(g: Graph, T: set<nat>)
    requires forall s :: s in T && s < |g| ==> g[s].tokenIndex == -1
    ensures AcceptIndex(g, T) == -1
  {
    AcceptIndexMeaning(g, T);
  }

  /** The accepting token of states of which `s0` accepts with rule 0 and no other accepts with another rule. */
  lemma {:induction false} AcceptsFirst(g: Graph, T: set<nat>, s0: nat)
    requires s0 in T && s0 < |g| && g[s0].tokenIndex == 0
    requires forall s :: s in T && s < |g| ==> g[s].tokenIndex == -1 || g[s].tokenIndex == 0
    ensures AcceptIndex(g, T) == 0
  {
    AcceptIndexMeaning(g, T);
  }

  /** Where a move that goes to `m` on `a` alone takes `T` after its closure `C`. */
  lemma {:induction false} StepsOfMoves(g: Graph, T: set<nat>, m: set<nat>, C: set<nat>, a: Code)
    requires forall x :: Move(g, T, x) == if x == a then m else {}
    requires Closure(g, m) == C && Closure(g, {}) == {}
    ensures forall x :: Step(g, T, x) == if x == a then C else {}
  {
    forall x ensures Step(g, T, x) == if x == a then C else {} {
      assert Move(g, T, x) == if x == a then m else {};
    }
  }

  /** Steps that lead only to `C1` or nowhere stay within `C0` and `C1`. */
  lemma {:induction false} WithinOfSteps(g: Graph, C0: set<nat>, C1: set<nat>)
    requires forall x :: Step(g, C0, x) == C1 || Step(g, C0, x) == {}
    requires forall x :: Step(g, C1, x) == C1 || Step(g, C1, x) == {}
    ensures StepsWithin(g, C0, C1)
  {
  }

  /**
   * The two sets of NFA states the subset construction meets in
   * `CharMerge`: the start `C0`, which does not accept and steps on `a`
   * alone, to `C1`, which accepts with the rule and steps nowhere.
   */
  lemma {:induction false} CharFacts(G: Graph, a: Code) returns (C0: set<nat>, C1: set<nat>)
    requires CharMerge(G, a) && WellFormedGraph(G)
    ensures C0 == Closure(G, {2}) && C0 != C1 && C1 != {}
    ensures Step(G, C0, a) == C1 && forall x :: Step(G, C1, x) == {}
    ensures StepsWithin(G, C0, C1)
    ensures Inputs(G, C0) == {a} && Inputs(G, C1) == {}
    ensures AcceptIndex(G, C0) == -1 && AcceptIndex(G, C1) == 0
  {
    C0, C1 := {2, 0}, {1, 3};
    CharClosures(G, a, C0, C1);
    CharStepping(G, a, C0, C1);
    CharAccepts(G, a, C0, C1);
  }

  lemma {:induction false} CharClosures(G: Graph, a: Code, C0: set<nat>, C1: set<nat>)
    requires CharMerge(G, a) && WellFormedGraph(G) && C0 == {2, 0} && C1 == {1, 3}
    ensures C0 == Closure(G, {2}) && C0 != C1 && C1 != {}
    ensures Inputs(G, C0) == {a} && Inputs(G, C1) == {}
  {
    CharConfigs(G, a);
    assert 2 in C0 && 2 !in C1;
  }

  lemma {:induction false} CharStepping(G: Graph, a: Code, C0: set<nat>, C1: set<nat>)
    requires CharMerge(G, a) && WellFormedGraph(G) && C0 == {2, 0} && C1 == {1, 3}
    ensures Step(G, C0, a) == C1 && forall x :: Step(G, C1, x) == {}
    ensures StepsWithin(G, C0, C1)
  {
    CharConfigs(G, a);
    ClosureOfNothing(G);
    StepsOfMoves(G, C0, {1}, C1, a);
    StepsOfMoves(G, C1, {}, {}, a);
    WithinOfSteps(G, C0, C1);
  }

  lemma {:induction false} CharAccepts(G: Graph, a: Code, C0: set<nat>, C1: set<nat>)
    requires CharMerge(G, a) && C0 == {2, 0} && C1 == {1, 3}
    ensures AcceptIndex(G, C0) == -1 && AcceptIndex(G, C1) == 0
  {
    AcceptsNone(G, C0);
    AcceptsFirst(G, C1, 1);
  }

  /**
   * The two sets of NFA states the subset construction meets in
   * `StarMerge`: the start `C0` and `C1`, both accepting with the rule,
   * each stepping on `a` alone, to `C1`.
   */
  lemma {:induction false} StarFacts(G: Graph, a: Code) returns (C0: set<nat>, C1: set<nat>)
    requires StarMerge(G, a) && WellFormedGraph(G)
    ensures C0 == Closure(G, {4}) && C0 != C1 && C1 != {}
    ensures Step(G, C0, a) == C1 && Step(G, C1, a) == C1
    ensures StepsWithin(G, C0, C1)
    ensures Inputs(G, C0) == {a} && Inputs(G, C1) == {a}
    ensures AcceptIndex(G, C0) == 0 && AcceptIndex(G, C1) == 0
  {
    C0, C1 := {4, 2, 3, 0, 5}, {1, 3, 2, 0, 5};
    StarClosures(G, a, C0, C1);
    StarStepping(G, a, C0, C1);
    StarAccepts(G, a, C0, C1);
  }

  lemma {:induction false} StarClosures(G: Graph, a: Code, C0: set<nat>, C1: set<nat>)
    requires StarMerge(G, a) && WellFormedGraph(G) && C0 == {4, 2, 3, 0, 5} && C1 == {1, 3, 2, 0, 5}
    ensures C0 == Closure(G, {4}) && C0 != C1 && C1 != {}
    ensures Inputs(G, C0) == {a} && Inputs(G, C1) == {a}
  {
    StarConfigs(G, a);
    assert 4 in C0 && 4 !in C1;
  }

  lemma {:induction false} StarStepping(G: Graph, a: Code, C0: set<nat>, C1: set<nat>)
    requires StarMerge(G, a) && WellFormedGraph(G) && C0 == {4, 2, 3, 0, 5} && C1 == {1, 3, 2, 0, 5}
    ensures Step(G, C0, a) == C1 && Step(G, C1, a) == C1
    ensures StepsWithin(G, C0, C1)
  {
    StarStepOf(G, a, C0, C1);
    StarStepOf(G, a, C1, C1);
    WithinOfSteps(G, C0, C1);
  }

  /** A set of states of `StarMerge` holding state 0 steps on `a` alone, to `C1`. */
  lemma {:induction false} StarStepOf(G: Graph, a: Code, T: set<nat>, C1: set<nat>)
    requires StarMerge(G, a) && WellFormedGraph(G) && T <= {0, 1, 2, 3, 4, 5} && 0 in T && C1 == {1, 3, 2, 0, 5}
    ensures forall x :: Step(G, T, x) == if x == a then C1 else {}
  {
    StarAfter(G, a);
    OnlyEdge(G, T, a);
    ClosureOfNothing(G);
    StepsOfMoves(G, T, {1}, C1, a);
  }

  lemma {:induction false} StarAccepts(G: Graph, a: Code, C0: set<nat>, C1: set<nat>)
    requires StarMerge(G, a) && C0 == {4, 2, 3, 0, 5} && C1 == {1, 3, 2, 0, 5}
    ensures AcceptIndex(G, C0) == 0 && AcceptIndex(G, C1) == 0
  {
    AcceptsFirst(G, C0, 3);
    AcceptsFirst(G, C1, 3);
  }

  /**
   * Whatever order the construction meets them in, the DFA built for the
   * one rule `a` has two states: the start, which does not accept, and the
   * state after `a`, which accepts with the rule; `a` leads from the first
   * to the second and nothing leads out of the second.
   */
  lemma {:induction false} CharDfa(G: Graph, ds: seq<DState>, syms: set<Code>, a: Code)
    requires CharMerge(G, a) && WellFormedGraph(G) && Built(G, 2, ds, syms)
    ensures syms == {a} && |ds| == 2
    ensures ds[0].tokenIndex == -1 && ds[1].tokenIndex == 0
    ensures Next(ds, 1, a) == 2 && forall x :: Next(ds, 2, x) == 0
  {
    BuiltParts(G, 2, ds, syms);
    var C0, C1 := CharFacts(G, a);
    TwoDfa(G, ds, syms, C0, C1, a);
    UnionOfOne(syms, Inputs(G, C0), Inputs(G, C1), a);
    forall x ensures Next(ds, 2, x) == 0 {
      NextStep(G, ds, 2, x);
    }
  }

  /**
   * Whatever order the construction meets them in, the DFA built for the
   * one rule `a*` has two states, both accepting with the rule; `a` leads
   * from the start to the second and from the second back to itself.
   */
  lemma {:induction false} StarDfa(G: Graph, ds: seq<DState>, syms: set<Code>, a: Code)
    requires StarMerge(G, a) && WellFormedGraph(G) && Built(G, 4, ds, syms)
    ensures syms == {a} && |ds| == 2
    ensures ds[0].tokenIndex == 0 && ds[1].tokenIndex == 0
    ensures Next(ds, 1, a) == 2 && Next(ds, 2, a) == 2
  {
    BuiltParts(G, 4, ds, syms);
    var C0, C1 := StarFacts(G, a);
    TwoDfa(G, ds, syms, C0, C1, a);
    UnionOfOne(syms, Inputs(G, C0), Inputs(G, C1), a);
    NextStep(G, ds, 2, a);
  }

  /** Input symbols that are `a` and possibly `a` again are `a`. */
  lemma {:induction false} UnionOfOne(s: set<Code>, A: set<Code>, B: set<Code>, a: Code)
    requires s == A + B && A == {a} && (B == {} || B == {a})
    ensures s == {a}
  {
  }

  /** A built DFA whose start holds `C0` and whose steps stay within `C0` and `C1` is those two, in that order. */
  lemma {:induction false} TwoDfa(G: Graph, ds: seq<DState>, syms: set<Code>, C0: set<nat>, C1: set<nat>, a: Code)
    requires BuiltShape(G, ds) && ds[0].nfaStates == C0 && syms == AllInputs(G, ds)
    requires C0 != C1 && C1 != {} && Step(G, C0, a) == C1 && StepsWithin(G, C0, C1)
    ensures |ds| == 2 && ds[1].nfaStates == C1 && Next(ds, 1, a) == 2
    ensures syms == Inputs(G, C0) + Inputs(G, C1)
    ensures ds[0].tokenIndex == AcceptIndex(G, C0) && ds[1].tokenIndex == AcceptIndex(G, C1)
  {
    TwoStates(G, ds, C0, C1, a);
  }

  /**
   * With `valid_inputs()` corrected (as written, `init()` raises first, see
   * `InitAlwaysRaises`), a scanner with the one rule `a` yields, on the empty input,
   * a token of that rule with the empty value, which `a` does not match:
   * `EOF` reads the last column, `a`'s, from the start state into the
   * accepting state, and then out of it into the dead state.  With `EOF`
   * stopping the machine, the empty input is an error token.  This holds of
   * every DFA the construction can build for that rule.
   */
  lemma {:induction false} EofPhantomToken(b: Graph, G: Graph, fs: seq<Frag>, defs: seq<Definition>, ds: seq<DState>,
                                           syms: set<Code>, t: seq<seq<int>>, acc: seq<int>, a: Code)
    requires RulesOk(b, fs, defs) && |fs| == 1 && defs[0].re == Base(a)
    requires CharShape(b, 0, fs[0].init, fs[0].tail, Some(a))
    requires Merged(b, G, fs) && WellFormedGraph(G) && Built(G, |b|, ds, syms) && Tables(ds, syms, t, acc)
    ensures FirstMatch(defs, [], 0) == -1
    ensures Scan(t, acc, defs, [], 0, 1, LastColumn) == Done([Token(0, defs[0].name, [])])
    ensures Scan(t, acc, defs, [], 0, 1, Dead) == Error([], [])
  {
    CharMergeOf(b, G, fs, defs, a);
    CharDfa(G, ds, syms, a);
    TablesOfOne(ds, syms, t, acc, a);
    PhantomScan(ds, defs, t, acc, a);
  }

  /** The tables for the one input symbol `a` are `a + 1` columns wide. */
  lemma {:induction false} TablesOfOne(ds: seq<DState>, syms: set<Code>, t: seq<seq<int>>, acc: seq<int>, a: Code)
    requires Tables(ds, syms, t, acc) && syms == {a}
    ensures EdgesFit(ds, a + 1) && t == Table(ds, a + 1) && acc == Accepts(ds)
  {
    assert MaxOf(syms) == a;
  }

  /** The scan of the empty text over the tables of a DFA shaped like the one built for the rule `a`. */
  lemma {:induction false} PhantomScan(ds: seq<DState>, defs: seq<Definition>, t: seq<seq<int>>, acc: seq<int>, a: Code)
    requires |ds| == 2 && |defs| == 1 && EdgesFit(ds, a + 1) && t == Table(ds, a + 1) && acc == Accepts(ds)
    requires Next(ds, 1, a) == 2 && Next(ds, 2, a) == 0 && ds[0].tokenIndex == -1 && ds[1].tokenIndex == 0
    ensures Scan(t, acc, defs, [], 0, 1, LastColumn) == Done([Token(0, defs[0].name, [])])
    ensures Scan(t, acc, defs, [], 0, 1, Dead) == Error([], [])
  {
    TableMeaning(ds, a + 1);
    assert |t[1]| == |t[2]| == a + 1 && t[1][a] == 2 && t[2][a] == 0;
    assert Cell(t, 1, EOF) == Some(2) && Cell(t, 2, EOF) == Some(0);
    assert acc[1] == -1 && acc[2] == 0;
    assert Munch(t, acc, [], 0, 2, LastColumn, {1}) == Stopped(0, 2);
    var none: set<int> := {};
    assert none + {1} == {1};
    assert Munch(t, acc, [], 0, 1, LastColumn, {}) == Stopped(0, 2);
    assert Munch(t, acc, [], 0, 1, Dead, {}) == Stopped(0, 1);
  }

  /**
   * With `valid_inputs()` corrected (as written, `init()` raises first, see
   * `InitAlwaysRaises`), a scanner with the one rule `a*` never ends the stream on
   * the input `a`: at the end `EOF` reads the last column, `a`'s, from the
   * accepting state back into itself for ever.  With `EOF` stopping the
   * machine, the stream is the one token `a`, the rule's first match.
   * This holds of every DFA the construction can build for that rule.
   */
  lemma {:induction false} EofHangs(b: Graph, G: Graph, fs: seq<Frag>, defs: seq<Definition>, ds: seq<DState>,
                                    syms: set<Code>, t: seq<seq<int>>, acc: seq<int>, a: Code)
    requires RulesOk(b, fs, defs) && |fs| == 1 && defs[0].re == Star(Base(a))
    requires StarCharShape(b, 0, fs[0].init, fs[0].tail, Some(a))
    requires Merged(b, G, fs) && WellFormedGraph(G) && Built(G, |b|, ds, syms) && Tables(ds, syms, t, acc)
    ensures FirstMatch(defs, [a], 0) == 0
    ensures Scan(t, acc, defs, [a], 0, 1, LastColumn) == Hangs([])
    ensures Scan(t, acc, defs, [a], 0, 1, Dead) == Done([Token(0, defs[0].name, [a])])
  {
    StarMergeOf(b, G, fs, defs, a);
    StarDfa(G, ds, syms, a);
    TablesOfOne(ds, syms, t, acc, a);
    LoopScan(ds, defs, t, acc, a);
    StarMatchesOne(defs, a);
  }

  /** The rule `a*` matches `a`. */
  lemma {:induction false} StarMatchesOne(defs: seq<Definition>, a: Code)
    requires |defs| == 1 && defs[0].re == Star(Base(a))
    ensures FirstMatch(defs, [a], 0) == 0
  {
    var w: Text := [a];
    assert w[..1] == [a] && w[1..] == [];
    assert Matches(Base(a), w[..1]) && Matches(Star(Base(a)), w[1..]);
    assert Matches(Star(Base(a)), w);
  }

  /** The scan of the text `a` over the tables of a DFA shaped like the one built for the rule `a*`. */
  lemma {:induction false} LoopScan(ds: seq<DState>, defs: seq<Definition>, t: seq<seq<int>>, acc: seq<int>, a: Code)
    requires |ds| == 2 && |defs| == 1 && EdgesFit(ds, a + 1) && t == Table(ds, a + 1) && acc == Accepts(ds)
    requires Next(ds, 1, a) == 2 && Next(ds, 2, a) == 2 && ds[0].tokenIndex == 0 && ds[1].tokenIndex == 0
    ensures Scan(t, acc, defs, [a], 0, 1, LastColumn) == Hangs([])
    ensures Scan(t, acc, defs, [a], 0, 1, Dead) == Done([Token(0, defs[0].name, [a])])
  {
    TableMeaning(ds, a + 1);
    assert |t[1]| == |t[2]| == a + 1 && t[1][a] == 2 && t[2][a] == 2;
    assert Cell(t, 1, a) == Some(2) && Cell(t, 2, EOF) == Some(2);
    assert acc[1] == 0 && acc[2] == 0;
    assert Munch(t, acc, [a], 1, 2, LastColumn, {2}) == Cycle;
    assert Munch(t, acc, [a], 1, 2, LastColumn, {}) == Cycle;
    assert Munch(t, acc, [a], 1, 2, Dead, {}) == Stopped(1, 2);
    assert [a][0..1] == [a];
  }

  /**
   * `define(name, RE.char(a))` on a fresh registry and a `Scanner` over the
   * empty text: ready, at the start, and with the scan `EofPhantomToken`
   * describes.
   */
  method CharScanner(name: Text, a: Code) returns (scanner: Scanner)
    ensures fresh(scanner.reader) && fresh(scanner.fsa) && scanner.reader.Valid() && scanner.ready
    ensures scanner.reader.text == [] && scanner.reader.index == 0 && scanner.fsa.currentState == 1
    ensures var t, acc, defs := scanner.fsa.transitionTable, scanner.fsa.acceptTable, scanner.definitions.definitions;
      && Scan(t, acc, defs, [], 0, 1, LastColumn) == Done([Token(0, name, [])])
      && Scan(t, acc, defs, [], 0, 1, Dead) == Error([], [])
  {
    var definitions := new ReTokenDefinitions();
    definitions.Define(name, Base(a));
    var reader := new StringReader([]);
    scanner := new Scanner(reader, definitions);
    CharMergeOf(scanner.before, scanner.dfa.nfa, scanner.frags, scanner.rules, a);
    CharDfa(scanner.dfa.nfa, scanner.dfa.dstates, scanner.dfa.allSymbols, a);
    EofPhantomToken(scanner.before, scanner.dfa.nfa, scanner.frags, scanner.rules, scanner.dfa.dstates,
                    scanner.dfa.allSymbols, scanner.fsa.transitionTable, scanner.fsa.acceptTable, a);
  }

  /**
   * `define(name, RE.char(a).any_times())` on a fresh registry and a
   * `Scanner` over the text `a`: ready, at the start, and with the scan
   * `EofHangs` describes.
   */
  method StarScanner(name: Text, a: Code) returns (scanner: Scanner)
    ensures fresh(scanner.reader) && fresh(scanner.fsa) && scanner.reader.Valid() && scanner.ready
    ensures scanner.reader.text == [a] && scanner.reader.index == 0 && scanner.fsa.currentState == 1
    ensures var t, acc, defs := scanner.fsa.transitionTable, scanner.fsa.acceptTable, scanner.definitions.definitions;
      && Scan(t, acc, defs, [a], 0, 1, LastColumn) == Hangs([])
      && Scan(t, acc, defs, [a], 0, 1, Dead) == Done([Token(0, name, [a])])
  {
    var definitions := new ReTokenDefinitions();
    definitions.Define(name, Star(Base(a)));
    var reader := new StringReader([a]);
    scanner := new Scanner(reader, definitions);
    StarMergeOf(scanner.before, scanner.dfa.nfa, scanner.frags, scanner.rules, a);
    StarDfa(scanner.dfa.nfa, scanner.dfa.dstates, scanner.dfa.allSymbols, a);
    EofHangs(scanner.before, scanner.dfa.nfa, scanner.frags, scanner.rules, scanner.dfa.dstates,
             scanner.dfa.allSymbols, scanner.fsa.transitionTable, scanner.fsa.acceptTable, a);
  }

  /**
   * `define(name, RE.char(a))` on a fresh registry, a `Scanner` over the
   * empty text, and its `token_stream()`: a token with the empty value as
   * written, an error token with `EOF` stopping the machine.
   */
  method PhantomTokenRun(name: Text, a: Code, eof: EofRule) returns (out: Outcome)
    ensures eof == LastColumn ==> out == Done([Token(0, name, [])])
    ensures eof == Dead ==> out == Error([], [])
  {
    var scanner := CharScanner(name, a);
    out := scanner.TokenStream(eof);
  }

  /**
   * `define(name, RE.char(a).any_times())` on a fresh registry, a `Scanner`
   * over the text `a`, and its `token_stream()`: it never ends as written,
   * and is the one token `a` with `EOF` stopping the machine.
   */
  method HangsRun(name: Text, a: Code, eof: EofRule) returns (out: Outcome)
    ensures eof == LastColumn ==> out == Hangs([])
    ensures eof == Dead ==> out == Done([Token(0, name, [a])])
  {
    var scanner := StarScanner(name, a);
    out := scanner.TokenStream(eof);
  }
}
