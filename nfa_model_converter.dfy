/**
 * Thompson's construction: every regular-expression node becomes an NFA
 * fragment with one init and one tail state.  Besides the shape of each
 * fragment, the contracts state its language: a word is matched by the node
 * (`Matches`) iff some walk of the fragment from init to tail spells it, at
 * the moment the conversion returns.
 */
module NfaModelConverter {
  import opened Wrappers
  import opened RegularExpression
  import opened NfaModel

  /** `_char_to_index(char)`: `ord(char)`, or `None` (epsilon) for the empty string. */
  function CharToIndex(ch: Text): (r: Symbol)
    requires |ch| <= 1
    ensures r.None? <==> ch == []
    ensures r.Some? ==> ch == [r.value]
  {
    if ch == [] then None else Some(ch[0])
  }

  /** The converter's label for a character node is the node's own match index. */
  lemma {:induction false} CharToIndexOfMatchChar(e: Regex)
    requires e.Base? || e.Empty?
    ensures CharToIndex(MatchChar(e)) == MatchCharIndex(e)
  {
  }

  ghost function SetOf(s: seq<nat>): set<nat> {
    set x | x in s
  }

  // ---------------------------------------------------------------------------
  // What a conversion promises
  // ---------------------------------------------------------------------------

  /** Every word of `r` is spelled by some walk from init to tail. */
  ghost predicate AcceptsAll(g: Graph, init: nat, tail: nat, r: Regex) {
    forall w :: Matches(r, w) ==> Reach(g, init, tail, w)
  }

  /** Every walk from init to tail spells a word of `r`. */
  ghost predicate AcceptsOnly(g: Graph, init: nat, tail: nat, r: Regex) {
    forall p :: Walk(g, init, p, tail) ==> Matches(r, Word(p))
  }

  /**
   * The fragment's states are exactly the states allocated since address
   * `lo`; init and tail are two of them; no edge leaves the fragment; none
   * of its states accepts.
   */
  ghost predicate Shape(g: Graph, states: seq<nat>, init: nat, tail: nat, lo: nat) {
    && lo <= |g|
    && init in states && tail in states && init != tail
    && (forall s :: s in states ==> lo <= s < |g|)
    && (forall s :: lo <= s < |g| ==> s in states)
    && Closed(g, SetOf(states))
    && (forall s :: lo <= s < |g| ==> g[s].tokenIndex == -1)
  }

  /** The states allocated before address |g0| are untouched. */
  ghost predicate Preserved(g0: Graph, g: Graph) {
    |g0| <= |g| && forall i :: 0 <= i < |g0| ==> g[i] == g0[i]
  }

  /**
   * The fragment from `init` to `tail` recognizes exactly the words of `r`:
   * the statement itself at depth 0, one definition further away at each
   * further depth.  `Converted` holds it at depth `Fold`, so that the
   * conversion methods, which only pass it on, see it as a whole; the
   * assembly lemmas take it apart (`OpenLanguage`) and put it back together
   * (`CloseLanguage`).
   */
  ghost predicate Recognizes(g: Graph, init: nat, tail: nat, r: Regex, depth: nat)
    decreases depth, g
  {
    if depth > 0 then Recognizes(g, init, tail, r, depth - 1)
    else AcceptsAll(g, init, tail, r) && AcceptsOnly(g, init, tail, r)
  }

  const Fold: nat := 3

  lemma {:induction false} OpenLanguage(g: Graph, init: nat, tail: nat, r: Regex, depth: nat)
    requires Recognizes(g, init, tail, r, depth)
    ensures AcceptsAll(g, init, tail, r) && AcceptsOnly(g, init, tail, r)
    decreases depth
  {
    if depth > 0 {
      OpenLanguage(g, init, tail, r, depth - 1);
    }
  }

  lemma {:induction false} CloseLanguage(g: Graph, init: nat, tail: nat, r: Regex, depth: nat)
    requires AcceptsAll(g, init, tail, r) && AcceptsOnly(g, init, tail, r)
    ensures Recognizes(g, init, tail, r, depth)
    decreases depth
  {
    if depth > 0 {
      CloseLanguage(g, init, tail, r, depth - 1);
    }
  }

  /**
   * The outcome of converting `r` in an arena that held `g0` and now holds
   * `g`: the older states are untouched, the new ones form a closed fragment
   * from `init` to `tail`, and that fragment recognizes exactly the words of `r`.
   */
  ghost predicate Converted(g0: Graph, g: Graph, states: seq<nat>, init: nat, tail: nat, r: Regex) {
    && Preserved(g0, g)
    && Shape(g, states, init, tail, |g0|)
    && Recognizes(g, init, tail, r, Fold)
  }

  // ---------------------------------------------------------------------------
  // Walk arguments shared by the combinators
  // ---------------------------------------------------------------------------

  /**
   * A walk that starts at a sub-fragment's init and ends outside it leaves
   * through a new edge of the sub-fragment's tail, after spelling a word of
   * the sub-fragment's expression.
   */
  lemma {:induction false} LeaveFragment(gC: Graph, g: Graph, S: set<nat>, ci: nat, ct: nat, r: Regex, p: seq<Edge>, x: nat)
    returns (k: nat)
    requires Closed(gC, S) && SameEdgesExcept(gC, g, S, ct) && ci in S && ct in S && x !in S
    requires AcceptsOnly(gC, ci, ct, r)
    requires Walk(g, ci, p, x)
    ensures k < |p| && Matches(r, Word(p[..k]))
    ensures ct < |g| && p[k] in g[ct].outEdges && p[k] !in gC[ct].outEdges
    ensures Walk(g, p[k].target, p[k + 1..], x)
    ensures Word(p) == Word(p[..k]) + Word([p[k]]) + Word(p[k + 1..])
  {
    k := ExitSplit(gC, g, S, ct, ci, p, x);
    WordAround(p, k);
  }

  /** The word of a walk is the word before step `k`, that step's label and the word after it. */
  lemma {:induction false} WordAround(p: seq<Edge>, k: nat)
    requires k < |p|
    ensures Word(p) == Word(p[..k]) + Word([p[k]]) + Word(p[k + 1..])
  {
    assert p == p[..k] + ([p[k]] + p[k + 1..]);
    WordAppend(p[..k], [p[k]] + p[k + 1..]);
    WordAppend([p[k]], p[k + 1..]);
  }

  /** A walk from a sub-fragment's init to its tail, whose tail gained no edges, spells its expression. */
  lemma {:induction false} StayInFragment(gC: Graph, g: Graph, S: set<nat>, ci: nat, ct: nat, r: Regex, p: seq<Edge>)
    requires Closed(gC, S) && SameEdgesExcept(gC, g, S, ct) && ci in S && ct in S
    requires ct < |g| && g[ct].outEdges == gC[ct].outEdges
    requires AcceptsOnly(gC, ci, ct, r)
    requires Walk(g, ci, p, ct)
    ensures Matches(r, Word(p))
  {
    var k := ExitSplit(gC, g, S, ct, ci, p, ct);
  }

  lemma {:induction false} ConcatSplit(a: Regex, b: Regex, w: Text) returns (k: nat)
    requires Matches(Concat(a, b), w)
    ensures k <= |w| && Matches(a, w[..k]) && Matches(b, w[k..])
  {
    k :| 0 <= k <= |w| && Matches(a, w[..k]) && Matches(b, w[k..]);
  }

  lemma {:induction false} ConcatJoin(a: Regex, b: Regex, u: Text, v: Text)
    requires Matches(a, u) && Matches(b, v)
    ensures Matches(Concat(a, b), u + v)
  {
    assert (u + v)[..|u|] == u && (u + v)[|u|..] == v;
  }

  lemma {:induction false} StarSplit(e: Regex, w: Text) returns (k: nat)
    requires Matches(Star(e), w) && w != []
    ensures 0 < k <= |w| && Matches(e, w[..k]) && Matches(Star(e), w[k..])
  {
    k :| 0 < k <= |w| && Matches(e, w[..k]) && Matches(Star(e), w[k..]);
  }

  /** A star absorbs a word of its operand in front. */
  lemma {:induction false} StarPrepend(e: Regex, u: Text, v: Text)
    requires Matches(e, u) && Matches(Star(e), v)
    ensures Matches(Star(e), u + v)
  {
    if u == [] {
      assert u + v == v;
    } else {
      assert (u + v)[..|u|] == u && (u + v)[|u|..] == v;
    }
  }

  /** A word reached by a one-edge epsilon step. */
  lemma {:induction false} EpsilonReach(g: Graph, s: nat, t: nat)
    requires s < |g| && Edge(None, t) in g[s].outEdges
    ensures Reach(g, s, t, [])
  {
    ReachEdge(g, s, Edge(None, t));
  }

  /** Words reached through an epsilon step before and after a sub-walk. */
  lemma {:induction false} ReachBetweenEpsilons(g: Graph, a: nat, b: nat, c: nat, d: nat, w: Text)
    requires a < |g| && Edge(None, b) in g[a].outEdges
    requires Reach(g, b, c, w)
    requires c < |g| && Edge(None, d) in g[c].outEdges
    ensures Reach(g, a, d, w)
  {
    EpsilonReach(g, a, b);
    EpsilonReach(g, c, d);
    ReachTrans(g, a, b, c, [], w);
    assert [] + w == w;
    ReachTrans(g, a, c, d, w, []);
    assert w + [] == w;
  }

  /** Edges of a sub-fragment survive into the final graph. */
  lemma {:induction false} GrowsFrom(g0: Graph, g: Graph, changed: set<nat>)
    requires |g0| <= |g|
    requires forall i :: 0 <= i < |g0| && i !in changed ==> g[i].outEdges == g0[i].outEdges
    requires forall i :: i in changed && i < |g0| ==> forall e :: e in g0[i].outEdges ==> e in g[i].outEdges
    ensures EdgesGrow(g0, g)
  {
  }

  // ---------------------------------------------------------------------------
  // The language of each kind of fragment
  // ---------------------------------------------------------------------------

  /** `init --sym--> tail`: the language of a character or empty node. */
  lemma {:induction false} BaseLanguage(g: Graph, init: nat, tail: nat, e: Regex)
    requires e.Base? || e.Empty?
    requires init < |g| && tail < |g| && init != tail
    requires g[init].outEdges == [Edge(CharToIndex(MatchChar(e)), tail)] && g[tail].outEdges == []
    ensures AcceptsAll(g, init, tail, e) && AcceptsOnly(g, init, tail, e)
  {
    var edge := Edge(CharToIndex(MatchChar(e)), tail);
    EdgeWalk(g, init, edge);
    forall p | Walk(g, init, p, tail) ensures Matches(e, Word(p)) {
      assert p[0] == edge;
      WalkFromSink(g, tail, p[1..], tail);
      assert p == [edge];
    }
  }

  /** Every word of `Or(a, b)` is spelled from the alternation's init to its tail. */
  lemma {:induction false} OrAcceptsAll(gL: Graph, gR: Graph, g: Graph,
                                   li: nat, lt: nat, a: Regex, ri: nat, rt: nat, b: Regex,
                                   init: nat, tail: nat)
    requires EdgesGrow(gL, g) && EdgesGrow(gR, g) && AcceptsAll(gL, li, lt, a) && AcceptsAll(gR, ri, rt, b)
    requires init < |g| && lt < |g| && rt < |g|
    requires Edge(None, li) in g[init].outEdges && Edge(None, ri) in g[init].outEdges
    requires Edge(None, tail) in g[lt].outEdges && Edge(None, tail) in g[rt].outEdges
    ensures AcceptsAll(g, init, tail, Or(a, b))
  {
    forall w | Matches(Or(a, b), w) ensures Reach(g, init, tail, w) {
      if Matches(a, w) {
        ReachGrow(gL, g, li, lt, w);
        ReachBetweenEpsilons(g, init, li, lt, tail, w);
      } else {
        ReachGrow(gR, g, ri, rt, w);
        ReachBetweenEpsilons(g, init, ri, rt, tail, w);
      }
    }
  }

  /** Every walk from the alternation's init to its tail goes through one branch. */
  lemma {:induction false} OrAcceptsOnly(gL: Graph, gR: Graph, g: Graph, SL: set<nat>, SR: set<nat>,
                                      li: nat, lt: nat, a: Regex, ri: nat, rt: nat, b: Regex,
                                      init: nat, tail: nat)
    requires Closed(gL, SL) && SameEdgesExcept(gL, g, SL, lt) && li in SL && lt in SL && tail !in SL
    requires Closed(gR, SR) && SameEdgesExcept(gR, g, SR, rt) && ri in SR && rt in SR && tail !in SR
    requires AcceptsOnly(gL, li, lt, a) && AcceptsOnly(gR, ri, rt, b)
    requires init < |g| && tail < |g| && lt < |g| && rt < |g| && init != tail
    requires g[init].outEdges == [Edge(None, li), Edge(None, ri)] && g[tail].outEdges == []
    requires g[lt].outEdges == gL[lt].outEdges + [Edge(None, tail)]
    requires g[rt].outEdges == gR[rt].outEdges + [Edge(None, tail)]
    ensures AcceptsOnly(g, init, tail, Or(a, b))
  {
    forall p | Walk(g, init, p, tail) ensures Matches(Or(a, b), Word(p)) {
      var q := p[1..];
      assert p == [p[0]] + q;
      WordAppend([p[0]], q);
      EdgeWalk(g, init, p[0]);
      assert p[0] == Edge(None, li) || p[0] == Edge(None, ri);
      assert Word(p) == Word(q);
      if p[0] == Edge(None, li) {
        OrBranch(gL, g, SL, li, lt, a, q, tail);
      } else {
        OrBranch(gR, g, SR, ri, rt, b, q, tail);
      }
    }
  }

  /** One branch of an alternation: into the sub-fragment, out through the join. */
  lemma {:induction false} OrBranch(gC: Graph, g: Graph, S: set<nat>, ci: nat, ct: nat, r: Regex, q: seq<Edge>, tail: nat)
    requires Closed(gC, S) && SameEdgesExcept(gC, g, S, ct) && ci in S && ct in S && tail !in S
    requires AcceptsOnly(gC, ci, ct, r)
    requires ct < |g| && tail < |g| && g[tail].outEdges == []
    requires g[ct].outEdges == gC[ct].outEdges + [Edge(None, tail)]
    requires Walk(g, ci, q, tail)
    ensures Matches(r, Word(q))
  {
    var k := LeaveFragment(gC, g, S, ci, ct, r, q, tail);
    assert q[k] == Edge(None, tail);
    WalkFromSink(g, tail, q[k + 1..], tail);
    EdgeWalk(g, ct, q[k]);
    var u := Word(q[..k]);
    assert u + [] + [] == u;
  }

  /** Every word of `Concat(a, b)` is spelled from the left init to the right tail. */
  lemma {:induction false} ConcatAcceptsAll(gL: Graph, gR: Graph, g: Graph,
                                       li: nat, lt: nat, a: Regex, ri: nat, rt: nat, b: Regex)
    requires EdgesGrow(gL, g) && EdgesGrow(gR, g) && AcceptsAll(gL, li, lt, a) && AcceptsAll(gR, ri, rt, b)
    requires lt < |g| && Edge(None, ri) in g[lt].outEdges
    ensures AcceptsAll(g, li, rt, Concat(a, b))
  {
    forall w | Matches(Concat(a, b), w) ensures Reach(g, li, rt, w) {
      var k := ConcatSplit(a, b, w);
      ReachGrow(gL, g, li, lt, w[..k]);
      ReachGrow(gR, g, ri, rt, w[k..]);
      ConcatReach(g, li, lt, ri, rt, w, k);
    }
  }

  /** A walk through the left fragment, the joining epsilon edge and the right fragment. */
  lemma {:induction false} ConcatReach(g: Graph, li: nat, lt: nat, ri: nat, rt: nat, w: Text, k: nat)
    requires k <= |w| && Reach(g, li, lt, w[..k]) && Reach(g, ri, rt, w[k..])
    requires lt < |g| && Edge(None, ri) in g[lt].outEdges
    ensures Reach(g, li, rt, w)
  {
    EpsilonReach(g, lt, ri);
    ReachTrans(g, li, lt, ri, w[..k], []);
    assert w[..k] + [] == w[..k];
    ReachTrans(g, li, ri, rt, w[..k], w[k..]);
    assert w[..k] + w[k..] == w;
  }

  /** Every walk from the left init to the right tail crosses the joining epsilon edge. */
  lemma {:induction false} ConcatAcceptsOnly(gL: Graph, gR: Graph, g: Graph, SL: set<nat>, SR: set<nat>,
                                          li: nat, lt: nat, a: Regex, ri: nat, rt: nat, b: Regex)
    requires Closed(gL, SL) && SameEdgesExcept(gL, g, SL, lt) && li in SL && lt in SL && rt !in SL
    requires Closed(gR, SR) && SameEdgesExcept(gR, g, SR, rt) && ri in SR && rt in SR
    requires AcceptsOnly(gL, li, lt, a) && AcceptsOnly(gR, ri, rt, b)
    requires lt < |g| && rt < |g| && g[rt].outEdges == gR[rt].outEdges
    requires g[lt].outEdges == gL[lt].outEdges + [Edge(None, ri)]
    ensures AcceptsOnly(g, li, rt, Concat(a, b))
  {
    forall p | Walk(g, li, p, rt) ensures Matches(Concat(a, b), Word(p)) {
      var k := LeaveFragment(gL, g, SL, li, lt, a, p, rt);
      assert p[k] == Edge(None, ri);
      var rest := p[k + 1..];
      StayInFragment(gR, g, SR, ri, rt, b, rest);
      EdgeWalk(g, lt, p[k]);
      SilentStep(p, k);
      ConcatJoin(a, b, Word(p[..k]), Word(rest));
    }
  }

  /** A step on an epsilon edge adds nothing to the word of a walk. */
  lemma {:induction false} SilentStep(p: seq<Edge>, k: nat)
    requires k < |p| && p[k].symbol == None
    requires Word(p) == Word(p[..k]) + Word([p[k]]) + Word(p[k + 1..])
    ensures Word(p) == Word(p[..k]) + Word(p[k + 1..])
  {
    assert Word([p[k]]) == [];
  }

  /** From init or tail of a star fragment, every walk to the tail spells a word of the star. */
  lemma {:induction false} StarWalks(gI: Graph, g: Graph, S: set<nat>, ii: nat, it: nat, e: Regex,
                                     init: nat, tail: nat, x: nat, p: seq<Edge>)
    requires Closed(gI, S) && SameEdgesExcept(gI, g, S, it) && ii in S && it in S
    requires init !in S && tail !in S && init != tail && init < |g| && tail < |g| && it < |g|
    requires AcceptsOnly(gI, ii, it, e)
    requires g[init].outEdges == [Edge(None, tail), Edge(None, ii)]
    requires g[tail].outEdges == [Edge(None, init)]
    requires g[it].outEdges == gI[it].outEdges + [Edge(None, tail)]
    requires x == init || x == tail
    requires Walk(g, x, p, tail)
    ensures Matches(Star(e), Word(p))
    decreases |p|
  {
    if p != [] {
      var q := p[1..];
      assert p == [p[0]] + q;
      WordAppend([p[0]], q);
      EdgeWalk(g, x, p[0]);
      assert Word(p) == Word(q);
      if p[0].target == init || p[0].target == tail {
        StarWalks(gI, g, S, ii, it, e, init, tail, p[0].target, q);
      } else {
        var k := StarRound(gI, g, S, ii, it, e, tail, q);
        StarWalks(gI, g, S, ii, it, e, init, tail, tail, q[k + 1..]);
        StarPrepend(e, Word(q[..k]), Word(q[k + 1..]));
      }
    }
  }

  /** One round of a star: through the operand's fragment and back to the star's tail. */
  lemma {:induction false} StarRound(gI: Graph, g: Graph, S: set<nat>, ii: nat, it: nat, e: Regex, tail: nat, q: seq<Edge>)
    returns (k: nat)
    requires Closed(gI, S) && SameEdgesExcept(gI, g, S, it) && ii in S && it in S && tail !in S
    requires AcceptsOnly(gI, ii, it, e)
    requires it < |g| && g[it].outEdges == gI[it].outEdges + [Edge(None, tail)]
    requires Walk(g, ii, q, tail)
    ensures k < |q| && Matches(e, Word(q[..k])) && Walk(g, tail, q[k + 1..], tail)
    ensures Word(q) == Word(q[..k]) + Word(q[k + 1..])
  {
    k := LeaveFragment(gI, g, S, ii, it, e, q, tail);
    assert q[k] == Edge(None, tail);
    EdgeWalk(g, it, q[k]);
    SilentStep(q, k);
  }

  /** Every word of a star is spelled by a walk around the star fragment. */
  lemma {:induction false} StarReach(g: Graph, ii: nat, it: nat, e: Regex, init: nat, tail: nat, w: Text)
    requires AcceptsAll(g, ii, it, e)
    requires init < |g| && tail < |g| && it < |g|
    requires Edge(None, tail) in g[init].outEdges && Edge(None, ii) in g[init].outEdges
    requires Edge(None, init) in g[tail].outEdges && Edge(None, tail) in g[it].outEdges
    requires Matches(Star(e), w)
    ensures Reach(g, init, tail, w)
    decreases |w|
  {
    if w == [] {
      EpsilonReach(g, init, tail);
    } else {
      var k := StarSplit(e, w);
      var u, v := w[..k], w[k..];
      assert Reach(g, ii, it, u);
      StarReach(g, ii, it, e, init, tail, v);
      StarLoop(g, ii, it, init, tail, u, v);
      assert u + v == w;
    }
  }

  /** One more pass around the star: through the operand, back to init, then on to tail. */
  lemma {:induction false} StarLoop(g: Graph, ii: nat, it: nat, init: nat, tail: nat, u: Text, v: Text)
    requires init < |g| && tail < |g| && it < |g|
    requires Edge(None, ii) in g[init].outEdges && Edge(None, init) in g[tail].outEdges && Edge(None, tail) in g[it].outEdges
    requires Reach(g, ii, it, u) && Reach(g, init, tail, v)
    ensures Reach(g, init, tail, u + v)
  {
    ReachBetweenEpsilons(g, init, ii, it, tail, u);
    EpsilonReach(g, tail, init);
    ReachTrans(g, init, tail, init, u, []);
    assert u + [] == u;
    ReachTrans(g, init, init, tail, u, v);
  }

  /** The edges of a batch fragment's init: one per character, to that character's middle state. */
  ghost predicate BatchEdges(g: Graph, init: nat, chars: seq<Code>, mids: seq<nat>) {
    && |mids| == |chars| && init < |g|
    && |g[init].outEdges| == |chars|
    && forall j :: 0 <= j < |chars| ==> g[init].outEdges[j] == Edge(Some(chars[j]), mids[j])
  }

  /** `init --c--> mid --ε--> tail` for every listed character: the language of `BatchOr(chars)`. */
  lemma {:induction false} BatchLanguage(g: Graph, init: nat, tail: nat, chars: seq<Code>, mids: seq<nat>)
    requires BatchEdges(g, init, chars, mids) && tail < |g| && init != tail && g[tail].outEdges == []
    requires forall j :: 0 <= j < |mids| ==> mids[j] < |g| && mids[j] != tail && g[mids[j]].outEdges == [Edge(None, tail)]
    ensures AcceptsAll(g, init, tail, BatchOr(chars)) && AcceptsOnly(g, init, tail, BatchOr(chars))
  {
    forall w | Matches(BatchOr(chars), w) ensures Reach(g, init, tail, w) {
      var j :| 0 <= j < |chars| && chars[j] == w[0];
      assert g[init].outEdges[j] in g[init].outEdges;
      ReachEdge(g, init, Edge(Some(chars[j]), mids[j]));
      EpsilonReach(g, mids[j], tail);
      ReachTrans(g, init, mids[j], tail, [chars[j]], []);
      assert [chars[j]] + [] == w;
    }
    forall p | Walk(g, init, p, tail) ensures Matches(BatchOr(chars), Word(p)) {
      assert p[0] in g[init].outEdges;
      var j :| 0 <= j < |chars| && g[init].outEdges[j] == p[0];
      var q := p[1..];
      assert Walk(g, mids[j], q, tail);
      assert q != [] && q[0] == Edge(None, tail);
      WalkFromSink(g, tail, q[1..], tail);
      assert q == [q[0]] && p == [p[0]] + q;
      WordAppend([p[0]], q);
      EdgeWalk(g, init, p[0]);
      EdgeWalk(g, mids[j], q[0]);
    }
  }

  /** The chain of a literal: `chain[j] --text[j]--> chain[j + 1]`, and the last chain state `--ε--> end`. */
  ghost predicate ChainEdges(g: Graph, chain: seq<nat>, text: Text, end: nat) {
    && |chain| == |text| + 1
    && (forall j :: 0 <= j < |chain| ==> chain[j] < |g| && chain[j] != end)
    && (forall j {:trigger g[chain[j]]} :: 0 <= j < |text| ==> g[chain[j]].outEdges == [Edge(Some(text[j]), chain[j + 1])])
    && g[chain[|text|]].outEdges == [Edge(None, end)]
    && end < |g| && g[end].outEdges == []
  }

  /** Every walk from the j-th chain state to the end spells the rest of the literal, and it does. */
  lemma {:induction false} ChainLanguage(g: Graph, chain: seq<nat>, text: Text, end: nat, j: nat)
    requires ChainEdges(g, chain, text, end) && j <= |text|
    ensures Reach(g, chain[j], end, text[j..])
    ensures forall p :: Walk(g, chain[j], p, end) ==> Word(p) == text[j..]
    decreases |text| - j
  {
    if j == |text| {
      ChainLast(g, chain, text, end);
    } else {
      ChainLanguage(g, chain, text, end, j + 1);
      ChainLink(g, chain, text, end, j);
    }
  }

  /** The last chain state reaches the end state on the empty word only. */
  lemma {:induction false} ChainLast(g: Graph, chain: seq<nat>, text: Text, end: nat)
    requires ChainEdges(g, chain, text, end)
    ensures Reach(g, chain[|text|], end, [])
    ensures forall p :: Walk(g, chain[|text|], p, end) ==> Word(p) == []
  {
    var j := |text|;
    EpsilonReach(g, chain[j], end);
    forall p | Walk(g, chain[j], p, end) ensures Word(p) == [] {
      assert p[0] == Edge(None, end);
      WalkFromSink(g, end, p[1..], end);
      assert p == [p[0]];
    }
  }

  /** The `j`-th chain state reads the `j`-th character, then what the next one reads. */
  lemma {:induction false} ChainLink(g: Graph, chain: seq<nat>, text: Text, end: nat, j: nat)
    requires ChainEdges(g, chain, text, end) && j < |text|
    requires Reach(g, chain[j + 1], end, text[j + 1..])
    requires forall p :: Walk(g, chain[j + 1], p, end) ==> Word(p) == text[j + 1..]
    ensures Reach(g, chain[j], end, text[j..])
    ensures forall p :: Walk(g, chain[j], p, end) ==> Word(p) == text[j..]
  {
    ReachEdge(g, chain[j], Edge(Some(text[j]), chain[j + 1]));
    ReachTrans(g, chain[j], chain[j + 1], end, [text[j]], text[j + 1..]);
    assert [text[j]] + text[j + 1..] == text[j..];
    forall p | Walk(g, chain[j], p, end) ensures Word(p) == text[j..] {
      assert p[0] == Edge(Some(text[j]), chain[j + 1]);
      assert p == [p[0]] + p[1..];
      WordAppend([p[0]], p[1..]);
    }
  }

  /** Two expressions with the same words are recognized by the same fragments. */
  lemma {:induction false} SameLanguage(g: Graph, init: nat, tail: nat, r1: Regex, r2: Regex)
    requires forall w :: Matches(r1, w) <==> Matches(r2, w)
    requires AcceptsAll(g, init, tail, r1) && AcceptsOnly(g, init, tail, r1)
    ensures AcceptsAll(g, init, tail, r2) && AcceptsOnly(g, init, tail, r2)
  {
  }

  /** A conversion of one expression is a conversion of any expression with the same words. */
  lemma {:induction false} SameConverted(g0: Graph, g: Graph, states: seq<nat>, init: nat, tail: nat, r1: Regex, r2: Regex)
    requires forall w :: Matches(r1, w) <==> Matches(r2, w)
    requires Converted(g0, g, states, init, tail, r1)
    ensures Converted(g0, g, states, init, tail, r2)
  {
    OpenLanguage(g, init, tail, r1, Fold);
    SameLanguage(g, init, tail, r1, r2);
    CloseLanguage(g, init, tail, r2, Fold);
  }

  // ---------------------------------------------------------------------------
  // Assembling each kind of fragment
  // ---------------------------------------------------------------------------

  /** A sub-fragment converted earlier, seen from the final graph in which only its tail gained edges. */
  lemma {:induction false} Embed(g0: Graph, gC: Graph, g: Graph, Cs: seq<nat>, ci: nat, ct: nat, r: Regex)
    requires Converted(g0, gC, Cs, ci, ct, r) && |gC| <= |g|
    requires forall i :: |g0| <= i < |gC| && i != ct ==> g[i].outEdges == gC[i].outEdges
    ensures Closed(gC, SetOf(Cs)) && SameEdgesExcept(gC, g, SetOf(Cs), ct)
    ensures ci in SetOf(Cs) && ct in SetOf(Cs) && |g0| <= ct < |gC|
    ensures forall s :: s in SetOf(Cs) ==> |g0| <= s < |gC|
  {
  }

  /** Shape of a fragment whose new states are `added`, around sub-fragments converted before. */
  lemma {:induction false} NewShape(g0: Graph, gS: Graph, g: Graph, subs: seq<nat>, added: seq<nat>, init: nat, tail: nat)
    requires |g0| <= |gS| <= |g| && init != tail && init in added + subs && tail in added + subs
    requires forall s :: s in subs ==> |g0| <= s < |gS|
    requires forall s :: |g0| <= s < |gS| ==> s in subs
    requires forall s :: s in added <==> |gS| <= s < |g|
    requires forall s :: |g0| <= s < |gS| ==> gS[s].tokenIndex == -1
    requires forall s :: 0 <= s < |gS| ==> g[s].tokenIndex == gS[s].tokenIndex
    requires forall s :: |gS| <= s < |g| ==> g[s].tokenIndex == -1
    requires forall s, e :: s in added + subs && e in g[s].outEdges ==> e.target in added + subs
    ensures Shape(g, added + subs, init, tail, |g0|)
  {
    forall s | s in SetOf(added + subs) ensures s < |g| && forall e :: e in g[s].outEdges ==> e.target in SetOf(added + subs) {
    }
  }

  /** `init --sym--> tail` as a fragment. */
  lemma {:induction false} BaseFragment(g0: Graph, g: Graph, init: nat, tail: nat, e: Regex)
    requires e.Base? || e.Empty?
    requires |g| == |g0| + 2 && init == |g0| && tail == |g0| + 1
    requires forall i :: 0 <= i < |g0| ==> g[i] == g0[i]
    requires g[init].outEdges == [Edge(CharToIndex(MatchChar(e)), tail)] && g[tail].outEdges == []
    requires g[init].tokenIndex == -1 && g[tail].tokenIndex == -1
    ensures Converted(g0, g, [init, tail], init, tail, e)
  {
    BaseLanguage(g, init, tail, e);
    CloseLanguage(g, init, tail, e, Fold);
    NewShape(g0, g0, g, [], [init, tail], init, tail);
    assert [init, tail] + [] == [init, tail];
  }

  /** The alternation fragment around two converted operands. */
  lemma {:induction false} OrFragment(g0: Graph, gL: Graph, gR: Graph, g: Graph,
                                      Ls: seq<nat>, li: nat, lt: nat, a: Regex,
                                      Rs: seq<nat>, ri: nat, rt: nat, b: Regex,
                                      init: nat, tail: nat)
    requires Converted(g0, gL, Ls, li, lt, a) && Converted(gL, gR, Rs, ri, rt, b)
    requires |g| == |gR| + 2 && init == |gR| && tail == |gR| + 1
    requires forall i :: 0 <= i < |g0| ==> g[i] == gR[i]
    requires forall i :: 0 <= i < |gR| && i != lt && i != rt ==> g[i].outEdges == gR[i].outEdges
    requires forall i :: 0 <= i < |gR| ==> g[i].tokenIndex == gR[i].tokenIndex
    requires g[lt].outEdges == gR[lt].outEdges + [Edge(None, tail)]
    requires g[rt].outEdges == gR[rt].outEdges + [Edge(None, tail)]
    requires g[init].outEdges == [Edge(None, li), Edge(None, ri)] && g[tail].outEdges == []
    requires g[init].tokenIndex == -1 && g[tail].tokenIndex == -1
    ensures Converted(g0, g, [init, tail] + Ls + Rs, init, tail, Or(a, b))
  {
    Embed(g0, gL, g, Ls, li, lt, a);
    Embed(gL, gR, g, Rs, ri, rt, b);
    GrowsFrom(gL, g, {lt});
    GrowsFrom(gR, g, {lt, rt});
    OpenLanguage(gL, li, lt, a, Fold);
    OpenLanguage(gR, ri, rt, b, Fold);
    OrAcceptsAll(gL, gR, g, li, lt, a, ri, rt, b, init, tail);
    OrAcceptsOnly(gL, gR, g, SetOf(Ls), SetOf(Rs), li, lt, a, ri, rt, b, init, tail);
    CloseLanguage(g, init, tail, Or(a, b), Fold);
    var subs := Ls + Rs;
    forall s, e | s in [init, tail] + subs && e in g[s].outEdges ensures e.target in [init, tail] + subs {
      if s in Ls && s != lt {
        assert e in gL[s].outEdges;
      } else if s in Rs && s != rt {
        assert e in gR[s].outEdges;
      } else if s == lt && e in gL[lt].outEdges {
      } else if s == rt && e in gR[rt].outEdges {
      }
    }
    assert [init, tail] + Ls + Rs == [init, tail] + subs;
    NewShape(g0, gR, g, subs, [init, tail], init, tail);
  }

  /** The concatenation fragment: the left operand's tail joined to the right operand's init. */
  lemma {:induction false} ConcatFragment(g0: Graph, gL: Graph, gR: Graph, g: Graph,
                                          Ls: seq<nat>, li: nat, lt: nat, a: Regex,
                                          Rs: seq<nat>, ri: nat, rt: nat, b: Regex)
    requires Converted(g0, gL, Ls, li, lt, a) && Converted(gL, gR, Rs, ri, rt, b)
    requires |g| == |gR|
    requires forall i :: 0 <= i < |g0| ==> g[i] == gR[i]
    requires forall i :: 0 <= i < |gR| && i != lt ==> g[i].outEdges == gR[i].outEdges
    requires forall i :: 0 <= i < |gR| ==> g[i].tokenIndex == gR[i].tokenIndex
    requires g[lt].outEdges == gR[lt].outEdges + [Edge(None, ri)]
    ensures Converted(g0, g, [li, rt] + Ls + Rs, li, rt, Concat(a, b))
  {
    Embed(g0, gL, g, Ls, li, lt, a);
    Embed(gL, gR, g, Rs, ri, rt, b);
    GrowsFrom(gL, g, {lt});
    GrowsFrom(gR, g, {lt});
    OpenLanguage(gL, li, lt, a, Fold);
    OpenLanguage(gR, ri, rt, b, Fold);
    ConcatAcceptsAll(gL, gR, g, li, lt, a, ri, rt, b);
    ConcatAcceptsOnly(gL, gR, g, SetOf(Ls), SetOf(Rs), li, lt, a, ri, rt, b);
    CloseLanguage(g, li, rt, Concat(a, b), Fold);
    var subs := [li, rt] + Ls + Rs;
    forall s, e | s in subs && e in g[s].outEdges ensures e.target in subs {
      if s in Ls && s != lt {
        assert e in gL[s].outEdges;
      } else if s in Rs {
        assert e in gR[s].outEdges;
      } else if s == lt && e in gL[lt].outEdges {
      }
    }
    assert [] + subs == subs;
    NewShape(g0, gR, g, subs, [], li, rt);
  }

  /** The star fragment around a converted operand. */
  lemma {:induction false} StarFragment(g0: Graph, gI: Graph, g: Graph, Is: seq<nat>, ii: nat, it: nat, e: Regex,
                                        init: nat, tail: nat)
    requires Converted(g0, gI, Is, ii, it, e)
    requires |g| == |gI| + 2 && init == |gI| && tail == |gI| + 1
    requires forall i :: 0 <= i < |g0| ==> g[i] == gI[i]
    requires forall i :: 0 <= i < |gI| && i != it ==> g[i].outEdges == gI[i].outEdges
    requires forall i :: 0 <= i < |gI| ==> g[i].tokenIndex == gI[i].tokenIndex
    requires g[it].outEdges == gI[it].outEdges + [Edge(None, tail)]
    requires g[init].outEdges == [Edge(None, tail), Edge(None, ii)] && g[tail].outEdges == [Edge(None, init)]
    requires g[init].tokenIndex == -1 && g[tail].tokenIndex == -1
    ensures Converted(g0, g, [init, tail] + Is, init, tail, Star(e))
  {
    Embed(g0, gI, g, Is, ii, it, e);
    GrowsFrom(gI, g, {it});
    OpenLanguage(gI, ii, it, e, Fold);
    forall w | Matches(Star(e), w) ensures Reach(g, init, tail, w) {
      forall u | Matches(e, u) ensures Reach(g, ii, it, u) {
        ReachGrow(gI, g, ii, it, u);
      }
      StarReach(g, ii, it, e, init, tail, w);
    }
    forall p | Walk(g, init, p, tail) ensures Matches(Star(e), Word(p)) {
      StarWalks(gI, g, SetOf(Is), ii, it, e, init, tail, init, p);
    }
    CloseLanguage(g, init, tail, Star(e), Fold);
    forall s, x | s in [init, tail] + Is && x in g[s].outEdges ensures x.target in [init, tail] + Is {
      if s in Is && s != it {
        assert x in gI[s].outEdges;
      } else if s == it && x in gI[it].outEdges {
      }
    }
    NewShape(g0, gI, g, Is, [init, tail], init, tail);
  }

  /** The batch fragment: one middle state per listed character. */
  lemma {:induction false} BatchFragment(g0: Graph, g: Graph, init: nat, tail: nat, chars: seq<Code>, mids: seq<nat>)
    requires |g| == |g0| + 2 + |chars| && init == |g0| && tail == |g0| + 1
    requires forall i :: 0 <= i < |g0| ==> g[i] == g0[i]
    requires forall i :: |g0| <= i < |g| ==> g[i].tokenIndex == -1
    requires BatchEdges(g, init, chars, mids) && g[tail].outEdges == []
    requires forall j :: 0 <= j < |mids| ==> mids[j] == |g0| + 2 + j && g[mids[j]].outEdges == [Edge(None, tail)]
    ensures Converted(g0, g, [init, tail] + mids, init, tail, BatchOr(chars))
  {
    BatchLanguage(g, init, tail, chars, mids);
    CloseLanguage(g, init, tail, BatchOr(chars), Fold);
    forall s | |g0| + 2 <= s < |g| ensures s in mids {
      assert mids[s - |g0| - 2] == s;
    }
    forall s, x | s in mids + [init, tail] && x in g[s].outEdges ensures x.target in mids + [init, tail] {
      if s == init {
        var j :| 0 <= j < |chars| && g[init].outEdges[j] == x;
      }
    }
    NewShape(g0, g0, g, [], mids + [init, tail], init, tail);
    assert (mids + [init, tail]) + [] == mids + [init, tail];
    assert forall s :: s in mids + [init, tail] <==> s in [init, tail] + mids;
    assert SetOf(mids + [init, tail]) == SetOf([init, tail] + mids);
  }

  /** No edge leaves the chain and its end state. */
  lemma {:induction false} ChainClosed(g: Graph, chain: seq<nat>, text: Text, end: nat)
    requires ChainEdges(g, chain, text, end)
    ensures forall s, x :: s in [chain[0], end] + chain[1..] && x in g[s].outEdges ==> x.target in [chain[0], end] + chain[1..]
  {
    var states := [chain[0], end] + chain[1..];
    assert forall j :: 0 <= j < |chain| ==> chain[j] in states by {
      forall j | 0 <= j < |chain| ensures chain[j] in states {
        if j > 0 { assert states[j + 1] == chain[j]; }
      }
    }
    forall s, x | s in states && x in g[s].outEdges ensures x.target in states {
      if s != end {
        var j :| 0 <= j < |chain| && chain[j] == s;
        if j < |text| {
          assert x.target == chain[j + 1];
        }
      }
    }
  }

  /** The literal's states are exactly the ones allocated for it. */
  lemma {:induction false} ChainAddresses(lo: nat, n: nat, chain: seq<nat>, end: nat)
    requires |chain| == n + 1 && chain[0] == lo && end == lo + 1
    requires forall j :: 1 <= j < |chain| ==> chain[j] == lo + 1 + j
    ensures forall s :: s in [chain[0], end] + chain[1..] <==> lo <= s < lo + 2 + n
  {
    var states := [chain[0], end] + chain[1..];
    forall s | lo <= s < lo + 2 + n ensures s in states {
      if s > end { assert states[s - lo] == s; }
    }
  }

  /** The literal fragment: a chain of one state per character, then epsilon to the end. */
  lemma {:induction false} LiteralFragment(g0: Graph, g: Graph, init: nat, end: nat, text: Text, chain: seq<nat>)
    requires |g| == |g0| + 2 + |text| && init == |g0| && end == |g0| + 1
    requires forall i :: 0 <= i < |g0| ==> g[i] == g0[i]
    requires forall i :: |g0| <= i < |g| ==> g[i].tokenIndex == -1
    requires |chain| == |text| + 1 && chain[0] == init
    requires forall j :: 1 <= j < |chain| ==> chain[j] == |g0| + 1 + j
    requires ChainEdges(g, chain, text, end)
    ensures Converted(g0, g, [init, end] + chain[1..], init, end, Literal(text))
  {
    ChainLanguage(g, chain, text, end, 0);
    assert text[0..] == text;
    CloseLanguage(g, init, end, Literal(text), Fold);
    ChainClosed(g, chain, text, end);
    ChainAddresses(|g0|, |text|, chain, end);
    var added := [init, end] + chain[1..];
    NewShape(g0, g0, g, [], added, init, end);
    assert added + [] == added;
  }

  // ---------------------------------------------------------------------------
  // From the converter's steps to the graphs the assembly lemmas describe
  // ---------------------------------------------------------------------------

  /** The edge-adding steps of `convert_or_expression`, followed by re-indexing. */
  lemma {:induction false} OrSteps(g0: Graph, gR: Graph, g1: Graph, g2: Graph, g3: Graph, g4: Graph, g5: Graph,
                                   gE: Graph, g: Graph, init: nat, tail: nat,
                                   li: nat, ri: nat, lt: nat, rt: nat, Ls: seq<nat>, Rs: seq<nat>)
    requires |g0| <= lt < |gR| && |g0| <= rt < |gR| && lt != rt && li < |gR| && ri < |gR|
    requires init == |gR| && tail == |gR| + 1
    requires g1 == gR + [NewNState] && g2 == WithEdge(g1, init, Edge(None, li)) && g3 == WithEdge(g2, init, Edge(None, ri))
    requires g4 == g3 + [NewNState] && g5 == WithEdge(g4, lt, Edge(None, tail)) && gE == WithEdge(g5, rt, Edge(None, tail))
    requires Retagged(gE, g, [init, tail] + Ls + Rs)
    requires (forall s :: s in Ls ==> |g0| <= s) && (forall s :: s in Rs ==> |g0| <= s)
    ensures |g| == |gR| + 2
    ensures forall i :: 0 <= i < |g0| ==> g[i] == gR[i]
    ensures forall i :: 0 <= i < |gR| && i != lt && i != rt ==> g[i].outEdges == gR[i].outEdges
    ensures forall i :: 0 <= i < |gR| ==> g[i].tokenIndex == gR[i].tokenIndex
    ensures g[lt].outEdges == gR[lt].outEdges + [Edge(None, tail)]
    ensures g[rt].outEdges == gR[rt].outEdges + [Edge(None, tail)]
    ensures g[init].outEdges == [Edge(None, li), Edge(None, ri)] && g[tail].outEdges == []
    ensures g[init].tokenIndex == -1 && g[tail].tokenIndex == -1
  {
    assert [] + [Edge(None, li)] + [Edge(None, ri)] == [Edge(None, li), Edge(None, ri)];
    forall i | 0 <= i < |g0| ensures g[i] == gR[i] {
      assert i !in [init, tail] + Ls + Rs;
    }
  }

  /** The steps of `convert_concat_expression`: re-indexing, the joining edge, re-indexing. */
  lemma {:induction false} ConcatSteps(g0: Graph, gR: Graph, gM: Graph, gE: Graph, g: Graph,
                                       lt: nat, ri: nat, s1: seq<nat>, Ls: seq<nat>, Rs: seq<nat>)
    requires |g0| <= lt < |gR|
    requires Retagged(gR, gM, s1) && gE == WithEdge(gM, lt, Edge(None, ri)) && Retagged(gE, g, Ls + Rs)
    requires (forall s :: s in s1 ==> |g0| <= s)
    requires (forall s :: s in Ls ==> |g0| <= s) && (forall s :: s in Rs ==> |g0| <= s)
    ensures |g| == |gR|
    ensures forall i :: 0 <= i < |g0| ==> g[i] == gR[i]
    ensures forall i :: 0 <= i < |gR| && i != lt ==> g[i].outEdges == gR[i].outEdges
    ensures forall i :: 0 <= i < |gR| ==> g[i].tokenIndex == gR[i].tokenIndex
    ensures g[lt].outEdges == gR[lt].outEdges + [Edge(None, ri)]
  {
    forall i | 0 <= i < |g0| ensures g[i] == gR[i] {
      assert i !in s1 && i !in Ls + Rs;
    }
  }

  /** The edge-adding steps of `convert_star_expression`, followed by re-indexing. */
  lemma {:induction false} StarSteps(g0: Graph, gI: Graph, g1: Graph, g2: Graph, g3: Graph, g4: Graph, g5: Graph,
                                     gE: Graph, g: Graph, init: nat, tail: nat, ii: nat, it: nat, Is: seq<nat>)
    requires |g0| <= it < |gI| && ii < |gI|
    requires init == |gI| && tail == |gI| + 1
    requires g1 == gI + [NewNState] && g2 == g1 + [NewNState]
    requires g3 == WithEdge(g2, init, Edge(None, tail)) && g4 == WithEdge(g3, tail, Edge(None, init))
    requires g5 == WithEdge(g4, init, Edge(None, ii)) && gE == WithEdge(g5, it, Edge(None, tail))
    requires Retagged(gE, g, [init, tail] + Is) && forall s :: s in Is ==> |g0| <= s
    ensures |g| == |gI| + 2
    ensures forall i :: 0 <= i < |g0| ==> g[i] == gI[i]
    ensures forall i :: 0 <= i < |gI| && i != it ==> g[i].outEdges == gI[i].outEdges
    ensures forall i :: 0 <= i < |gI| ==> g[i].tokenIndex == gI[i].tokenIndex
    ensures g[it].outEdges == gI[it].outEdges + [Edge(None, tail)]
    ensures g[init].outEdges == [Edge(None, tail), Edge(None, ii)] && g[tail].outEdges == [Edge(None, init)]
    ensures g[init].tokenIndex == -1 && g[tail].tokenIndex == -1
  {
    assert [] + [Edge(None, tail)] + [Edge(None, ii)] == [Edge(None, tail), Edge(None, ii)];
    assert [] + [Edge(None, init)] == [Edge(None, init)];
    forall i | 0 <= i < |g0| ensures g[i] == gI[i] {
      assert i !in [init, tail] + Is;
    }
  }

  /** `convert_or_expression` from its operands' conversions to the finished fragment. */
  lemma {:induction false} OrConverted(g0: Graph, gL: Graph, gR: Graph, g1: Graph, g2: Graph, g3: Graph, g4: Graph,
                                       g5: Graph, gE: Graph, gM: Graph, gA: Graph, g: Graph,
                                       Ls: seq<nat>, li: nat, lt: nat, a: Regex,
                                       Rs: seq<nat>, ri: nat, rt: nat, b: Regex, init: nat, tail: nat)
    requires Converted(g0, gL, Ls, li, lt, a) && Converted(gL, gR, Rs, ri, rt, b)
    requires init == |gR| && g1 == gR + [NewNState]
    requires g2 == WithEdge(g1, init, Edge(None, li)) && g3 == WithEdge(g2, init, Edge(None, ri))
    requires tail == |g3| && g4 == g3 + [NewNState]
    requires g5 == WithEdge(g4, lt, Edge(None, tail)) && gE == WithEdge(g5, rt, Edge(None, tail))
    requires Retagged(gE, gM, [init, tail]) && Retagged(gM, gA, Ls) && Retagged(gA, g, Rs)
    ensures Converted(g0, g, [init, tail] + Ls + Rs, init, tail, Or(a, b))
  {
    RetaggedTrans(gE, gM, gA, [init, tail], Ls);
    RetaggedTrans(gE, gA, g, [init, tail] + Ls, Rs);
    OrSteps(g0, gR, g1, g2, g3, g4, g5, gE, g, init, tail, li, ri, lt, rt, Ls, Rs);
    OrFragment(g0, gL, gR, g, Ls, li, lt, a, Rs, ri, rt, b, init, tail);
  }

  /** `convert_concat_expression` from its operands' conversions to the finished fragment. */
  lemma {:induction false} ConcatConverted(g0: Graph, gL: Graph, gR: Graph, gM: Graph, gE: Graph, gA: Graph, g: Graph,
                                           Ls: seq<nat>, li: nat, lt: nat, a: Regex,
                                           Rs: seq<nat>, ri: nat, rt: nat, b: Regex)
    requires Converted(g0, gL, Ls, li, lt, a) && Converted(gL, gR, Rs, ri, rt, b)
    requires Retagged(gR, gM, [li, rt]) && lt < |gM| && gE == WithEdge(gM, lt, Edge(None, ri))
    requires Retagged(gE, gA, Ls) && Retagged(gA, g, Rs)
    ensures Converted(g0, g, [li, rt] + Ls + Rs, li, rt, Concat(a, b))
  {
    RetaggedTrans(gE, gA, g, Ls, Rs);
    ConcatSteps(g0, gR, gM, gE, g, lt, ri, [li, rt], Ls, Rs);
    ConcatFragment(g0, gL, gR, g, Ls, li, lt, a, Rs, ri, rt, b);
  }

  /** `convert_star_expression` from its operand's conversion to the finished fragment. */
  lemma {:induction false} StarConverted(g0: Graph, gI: Graph, g1: Graph, g2: Graph, g3: Graph, g4: Graph, g5: Graph,
                                         gE: Graph, gM: Graph, g: Graph,
                                         Is: seq<nat>, ii: nat, it: nat, e: Regex, init: nat, tail: nat)
    requires Converted(g0, gI, Is, ii, it, e)
    requires init == |gI| && g1 == gI + [NewNState] && tail == |g1| && g2 == g1 + [NewNState]
    requires g3 == WithEdge(g2, init, Edge(None, tail)) && g4 == WithEdge(g3, tail, Edge(None, init))
    requires g5 == WithEdge(g4, init, Edge(None, ii)) && gE == WithEdge(g5, it, Edge(None, tail))
    requires Retagged(gE, gM, [init, tail]) && Retagged(gM, g, Is)
    ensures Converted(g0, g, [init, tail] + Is, init, tail, Star(e))
  {
    RetaggedTrans(gE, gM, g, [init, tail], Is);
    StarSteps(g0, gI, g1, g2, g3, g4, g5, gE, g, init, tail, ii, it, Is);
    StarFragment(g0, gI, g, Is, ii, it, e, init, tail);
  }

  /** The batch conversion after `k` characters: one middle state for each of them. */
  ghost predicate BatchProgress(g0: Graph, g: Graph, init: nat, tail: nat, chars: seq<Code>, mids: seq<nat>, k: nat) {
    && k <= |chars| && |mids| == k
    && |g| == |g0| + 2 + k && init == |g0| && tail == |g0| + 1
    && (forall i :: 0 <= i < |g0| ==> g[i] == g0[i])
    && (forall i :: |g0| <= i < |g| ==> g[i].tokenIndex == -1)
    && BatchEdges(g, init, chars[..k], mids) && g[tail].outEdges == []
    && (forall j :: 0 <= j < k ==> mids[j] == |g0| + 2 + j && g[mids[j]].outEdges == [Edge(None, tail)])
  }

  /** One character of `convert_batch_or_expression`: a middle state, its edge to the tail, the edge to it. */
  lemma {:induction false} BatchStep(g0: Graph, g: Graph, g1: Graph, g2: Graph, g3: Graph, g4: Graph,
                                     init: nat, tail: nat, chars: seq<Code>, mids: seq<nat>, k: nat, target: nat)
    requires BatchProgress(g0, g, init, tail, chars, mids, k) && k < |chars|
    requires target == |g| && g1 == g + [NewNState] && g2 == WithEdge(g1, target, Edge(None, tail))
    requires g3 == WithEdge(g2, init, Edge(CharToIndex([chars[k]]), target)) && Retagged(g3, g4, [target])
    ensures BatchProgress(g0, g4, init, tail, chars, mids + [target], k + 1)
  {
    var ms := mids + [target];
    assert chars[..k + 1] == chars[..k] + [chars[k]];
    assert [] + [Edge(None, tail)] == [Edge(None, tail)];
    forall j | 0 <= j < k + 1 ensures ms[j] == |g0| + 2 + j && g4[ms[j]].outEdges == [Edge(None, tail)] {
      if j < k {
        assert ms[j] != init && ms[j] != target;
      }
    }
    forall j | 0 <= j < k + 1 ensures g4[init].outEdges[j] == Edge(Some(chars[..k + 1][j]), ms[j]) {
    }
  }

  /** The finished batch fragment. */
  lemma {:induction false} BatchConverted(g0: Graph, g: Graph, init: nat, tail: nat, chars: seq<Code>, mids: seq<nat>)
    requires BatchProgress(g0, g, init, tail, chars, mids, |chars|)
    ensures Converted(g0, g, [init, tail] + mids, init, tail, BatchOr(chars))
    ensures |g[init].outEdges| == |chars|
  {
    assert chars[..|chars|] == chars;
    BatchFragment(g0, g, init, tail, chars, mids);
  }

  /** A list of states with one more appended. */
  lemma {:induction false} AppendOne(xs: seq<nat>, ys: seq<nat>, t: nat)
    ensures xs + ys + [t] == xs + (ys + [t])
  {
  }

  /** The literal conversion after `k` characters: the chain so far, its last state still without edges. */
  ghost predicate LiteralProgress(g0: Graph, g: Graph, init: nat, end: nat, text: Text, chain: seq<nat>, k: nat) {
    && k <= |text| && |chain| == k + 1 && chain[0] == init
    && |g| == |g0| + 2 + k && init == |g0| && end == |g0| + 1
    && (forall i :: 0 <= i < |g0| ==> g[i] == g0[i])
    && (forall i :: |g0| <= i < |g| ==> g[i].tokenIndex == -1)
    && (forall j :: 1 <= j < |chain| ==> chain[j] == |g0| + 1 + j)
    && (forall j :: 0 <= j < k ==> ChainStep(g, text, chain, j))
    && g[chain[k]].outEdges == [] && g[end].outEdges == []
  }

  /** The `j`-th chain state has one edge, on the `j`-th character, to the next chain state. */
  ghost predicate ChainStep(g: Graph, text: Text, chain: seq<nat>, j: nat) {
    j < |text| && j + 1 < |chain| && chain[j] < |g| && g[chain[j]].outEdges == [Edge(Some(text[j]), chain[j + 1])]
  }

  /** The two fresh states of `convert_literal_expression`, before any character. */
  lemma {:induction false} LiteralStart(g0: Graph, g1: Graph, g2: Graph, g3: Graph, init: nat, end: nat, text: Text)
    requires init == |g0| && g1 == g0 + [NewNState] && end == |g1| && g2 == g1 + [NewNState]
    requires Retagged(g2, g3, [init, end])
    ensures LiteralProgress(g0, g3, init, end, text, [init], 0)
  {
  }

  /** One character of `convert_literal_expression`: a new state, the edge to it, its index. */
  lemma {:induction false} LiteralStep(g0: Graph, g: Graph, g1: Graph, g2: Graph, g3: Graph,
                                       init: nat, end: nat, text: Text, chain: seq<nat>, k: nat, target: nat)
    requires LiteralProgress(g0, g, init, end, text, chain, k) && k < |text|
    requires target == |g| && g1 == g + [NewNState]
    requires g2 == WithEdge(g1, chain[k], Edge(CharToIndex([text[k]]), target)) && Retagged(g2, g3, [target])
    ensures LiteralProgress(g0, g3, init, end, text, chain + [target], k + 1)
  {
    assert chain[k] < |g|;
    GrowOne(g, g1, g2, g3, chain[k], Edge(CharToIndex([text[k]]), target), target);
    LiteralExtend(g0, g, g3, init, end, text, chain, k, target);
  }

  /** The chain grown by one state, given what the growth did to the arena. */
  lemma {:induction false} LiteralExtend(g0: Graph, g: Graph, g3: Graph, init: nat, end: nat, text: Text, chain: seq<nat>, k: nat, target: nat)
    requires LiteralProgress(g0, g, init, end, text, chain, k) && k < |text| && target == |g|
    requires |g3| == |g| + 1 && chain[k] < |g|
    requires forall i :: 0 <= i < |g| && i != chain[k] ==> g3[i] == g[i]
    requires g3[chain[k]].outEdges == g[chain[k]].outEdges + [Edge(CharToIndex([text[k]]), target)]
    requires g3[chain[k]].tokenIndex == g[chain[k]].tokenIndex
    requires g3[target].outEdges == [] && g3[target].tokenIndex == -1
    ensures LiteralProgress(g0, g3, init, end, text, chain + [target], k + 1)
  {
    var c := chain + [target];
    assert c[k] == chain[k];
    assert ChainStep(g3, text, c, k);
    forall j | 0 <= j < k ensures ChainStep(g3, text, c, j) {
      assert ChainStep(g, text, chain, j);
      assert c[j] == chain[j] && c[j + 1] == chain[j + 1];
      assert chain[j] != chain[k];
    }
  }

  /** A fresh state at the end of the arena, one edge added to state `s`, the fresh state's index set. */
  lemma {:induction false} GrowOne(g: Graph, g1: Graph, g2: Graph, g3: Graph, s: nat, e: Edge, target: nat)
    requires s < |g| && target == |g| && g1 == g + [NewNState]
    requires g2 == WithEdge(g1, s, e) && Retagged(g2, g3, [target])
    ensures |g3| == |g| + 1
    ensures forall i :: 0 <= i < |g| && i != s ==> g3[i] == g[i]
    ensures g3[s].outEdges == g[s].outEdges + [e] && g3[s].tokenIndex == g[s].tokenIndex
    ensures g3[target].outEdges == [] && g3[target].tokenIndex == -1
  {
    assert g1[s] == g[s];
  }

  /** The model's states after one more chain state is added. */
  lemma {:induction false} ChainStates(states: seq<nat>, init: nat, end: nat, chain: seq<nat>, target: nat)
    requires |chain| >= 1 && states == [init, end] + chain[1..]
    ensures states + [target] == [init, end] + (chain + [target])[1..]
  {
    assert (chain + [target])[1..] == chain[1..] + [target];
  }

  /** The closing epsilon edge of `convert_literal_expression`, and the finished fragment. */
  lemma {:induction false} LiteralConverted(g0: Graph, g: Graph, g': Graph, init: nat, end: nat, text: Text, chain: seq<nat>)
    requires LiteralProgress(g0, g, init, end, text, chain, |text|)
    requires g' == WithEdge(g, chain[|text|], Edge(None, end))
    ensures Converted(g0, g', [init, end] + chain[1..], init, end, Literal(text))
  {
    LiteralDone(g0, g, g', init, end, text, chain);
    LiteralFragment(g0, g', init, end, text, chain);
  }

  /** The closing epsilon edge of `convert_literal_expression`. */
  lemma {:induction false} LiteralDone(g0: Graph, g: Graph, g': Graph, init: nat, end: nat, text: Text, chain: seq<nat>)
    requires LiteralProgress(g0, g, init, end, text, chain, |text|)
    requires g' == WithEdge(g, chain[|text|], Edge(None, end))
    ensures |g'| == |g0| + 2 + |text| && init == |g0| && end == |g0| + 1
    ensures forall i :: 0 <= i < |g0| ==> g'[i] == g0[i]
    ensures forall i :: |g0| <= i < |g'| ==> g'[i].tokenIndex == -1
    ensures |chain| == |text| + 1 && chain[0] == init
    ensures forall j :: 1 <= j < |chain| ==> chain[j] == |g0| + 1 + j
    ensures ChainEdges(g', chain, text, end)
  {
    assert [] + [Edge(None, end)] == [Edge(None, end)];
    forall j | 0 <= j < |text| ensures g'[chain[j]].outEdges == [Edge(Some(text[j]), chain[j + 1])] {
      assert ChainStep(g, text, chain, j);
      assert chain[j] != chain[|text|];
    }
  }

  // ---------------------------------------------------------------------------
  // The exact states of the two smallest conversions
  // ---------------------------------------------------------------------------

  /**
   * The two states `convert_base_expression` allocates from address `lo`:
   * the init's one edge, labelled `a`, leads to the tail, which has none.
   */
  ghost predicate CharShape(g: Graph, lo: nat, init: nat, tail: nat, a: Symbol) {
    && |g| == lo + 2 && init == lo && tail == lo + 1
    && g[init].outEdges == [Edge(a, tail)] && g[tail].outEdges == []
  }

  /**
   * The four states `convert_star_expression` allocates from address `lo`
   * around a character `a`: the character's init and tail, then the star's
   * init, with epsilon edges to its tail and to the character's init, and
   * the star's tail, with an epsilon edge back to its init; the character's
   * tail has an epsilon edge to the star's tail.
   */
  ghost predicate StarCharShape(g: Graph, lo: nat, init: nat, tail: nat, a: Symbol) {
    && |g| == lo + 4 && init == lo + 2 && tail == lo + 3
    && g[lo].outEdges == [Edge(a, lo + 1)] && g[lo + 1].outEdges == [Edge(None, tail)]
    && g[init].outEdges == [Edge(None, tail), Edge(None, lo)] && g[tail].outEdges == [Edge(None, init)]
  }

  /** Retagging keeps every edge. */
  lemma {:induction false} RetaggedEdges(g0: Graph, g: Graph, ss: seq<nat>, s: nat)
    requires Retagged(g0, g, ss) && s < |g0|
    ensures g[s].outEdges == g0[s].outEdges
  {
  }

  /** Indexing the star's states keeps its shape. */
  lemma {:induction false} StarCharKept(gE: Graph, gM: Graph, g: Graph, lo: nat, init: nat, tail: nat, a: Symbol, ss: seq<nat>)
    requires StarCharShape(gE, lo, init, tail, a)
    requires Retagged(gE, gM, [init, tail]) && Retagged(gM, g, ss)
    ensures StarCharShape(g, lo, init, tail, a)
  {
  }

  /** The star's steps around a converted character give `StarCharShape`. */
  lemma {:induction false} StarCharSteps(gI: Graph, g1: Graph, g2: Graph, g3: Graph, g4: Graph, g5: Graph, gE: Graph,
                                         lo: nat, ii: nat, it: nat, a: Symbol, init: nat, tail: nat)
    requires CharShape(gI, lo, ii, it, a)
    requires init == |gI| && g1 == gI + [NewNState] && tail == |g1| && g2 == g1 + [NewNState]
    requires g3 == WithEdge(g2, init, Edge(None, tail)) && g4 == WithEdge(g3, tail, Edge(None, init))
    requires g5 == WithEdge(g4, init, Edge(None, ii)) && gE == WithEdge(g5, it, Edge(None, tail))
    ensures StarCharShape(gE, lo, init, tail, a)
  {
    assert g2[lo] == gI[lo] && g2[lo + 1] == gI[lo + 1];
  }

  // ---------------------------------------------------------------------------
  // NFAModelConverter
  // ---------------------------------------------------------------------------

  /**
   * `convert_base_expression`: two new states joined by the node's character
   * (epsilon for the empty node).
   */
  method ConvertBase(arena: Arena, e: Regex) returns (m: NFAModel)
    requires e.Base? || e.Empty?
    requires arena.Valid()
    modifies arena
    ensures fresh(m) && arena.Valid() && m.Valid(arena)
    ensures Converted(old(arena.nodes), arena.nodes, m.states, m.init, m.tail, e)
    ensures m.states == [m.init, m.tail] && CharShape(arena.nodes, |old(arena.nodes)|, m.init, m.tail, MatchCharIndex(e))
  {
    ghost var g0 := arena.nodes;
    var init := arena.NewState();
    var tail := arena.NewState();
    arena.MoveTo(init, CharToIndex(MatchChar(e)), tail);
    ghost var g3 := arena.nodes;
    m := new NFAModel(arena, init, tail);
    BaseFragment(g0, arena.nodes, init, tail, e);
    CharToIndexOfMatchChar(e);
    RetaggedEdges(g3, arena.nodes, [init, tail], init);
    RetaggedEdges(g3, arena.nodes, [init, tail], tail);
  }

  /**
   * `convert_or_expression`: a new init with epsilon edges to both operands'
   * inits, and both operands' tails with epsilon edges to a new tail.
   */
  method ConvertOr(arena: Arena, r: Regex) returns (m: NFAModel)
    requires r.Or? && arena.Valid()
    modifies arena
    ensures fresh(m) && arena.Valid() && m.Valid(arena)
    ensures Converted(old(arena.nodes), arena.nodes, m.states, m.init, m.tail, r)
    decreases r, 0
  {
    ghost var g0 := arena.nodes;
    var left := Convert(arena, r.left);
    var li, lt, Ls := left.init, left.tail, left.states;
    ghost var gL := arena.nodes;
    var right := Convert(arena, r.right);
    var ri, rt, Rs := right.init, right.tail, right.states;
    ghost var gR := arena.nodes;
    var init := arena.NewState();
    ghost var g1 := arena.nodes;
    arena.EpsilonMoveTo(init, li);
    ghost var g2 := arena.nodes;
    arena.EpsilonMoveTo(init, ri);
    ghost var g3 := arena.nodes;
    var tail := arena.NewState();
    ghost var g4 := arena.nodes;
    arena.EpsilonMoveTo(lt, tail);
    ghost var g5 := arena.nodes;
    arena.EpsilonMoveTo(rt, tail);
    ghost var gE := arena.nodes;
    m := new NFAModel(arena, init, tail);
    ghost var gM := arena.nodes;
    m.AddStates(arena, Ls);
    ghost var gA := arena.nodes;
    m.AddStates(arena, Rs);
    OrConverted(g0, gL, gR, g1, g2, g3, g4, g5, gE, gM, gA, arena.nodes, Ls, li, lt, r.left, Rs, ri, rt, r.right, init, tail);
  }

  /** `convert_concat_expression`: the left operand's tail gets an epsilon edge to the right operand's init. */
  method ConvertConcat(arena: Arena, r: Regex) returns (m: NFAModel)
    requires r.Concat? && arena.Valid()
    modifies arena
    ensures fresh(m) && arena.Valid() && m.Valid(arena)
    ensures Converted(old(arena.nodes), arena.nodes, m.states, m.init, m.tail, r)
    decreases r, 0
  {
    ghost var g0 := arena.nodes;
    var left := Convert(arena, r.left);
    var li, lt, Ls := left.init, left.tail, left.states;
    ghost var gL := arena.nodes;
    var right := Convert(arena, r.right);
    var ri, rt, Rs := right.init, right.tail, right.states;
    m := JoinConcat(arena, g0, gL, Ls, li, lt, r.left, Rs, ri, rt, r.right);
  }

  /** The rest of `convert_concat_expression`, once both operands are converted. */
  method JoinConcat(arena: Arena, ghost g0: Graph, ghost gL: Graph,
                    Ls: seq<nat>, li: nat, lt: nat, ghost a: Regex,
                    Rs: seq<nat>, ri: nat, rt: nat, ghost b: Regex) returns (m: NFAModel)
    requires arena.Valid()
    requires Converted(g0, gL, Ls, li, lt, a) && Converted(gL, arena.nodes, Rs, ri, rt, b)
    modifies arena
    ensures fresh(m) && arena.Valid() && m.Valid(arena)
    ensures Converted(g0, arena.nodes, m.states, m.init, m.tail, Concat(a, b))
  {
    ghost var gR := arena.nodes;
    m := new NFAModel(arena, li, rt);
    ghost var gM := arena.nodes;
    arena.EpsilonMoveTo(lt, ri);
    ghost var gE := arena.nodes;
    IndexedKept(gM, gE, m.states);
    m.AddStates(arena, Ls);
    ghost var gA := arena.nodes;
    m.AddStates(arena, Rs);
    ConcatConverted(g0, gL, gR, gM, gE, gA, arena.nodes, Ls, li, lt, a, Rs, ri, rt, b);
  }

  /**
   * `convert_star_expression`: new init and tail with epsilon edges both
   * ways between them, into the operand's init and out of its tail.
   */
  method ConvertStar(arena: Arena, r: Regex) returns (m: NFAModel)
    requires r.Star? && arena.Valid()
    modifies arena
    ensures fresh(m) && arena.Valid() && m.Valid(arena)
    ensures Converted(old(arena.nodes), arena.nodes, m.states, m.init, m.tail, r)
    ensures r.inner.Base? ==> StarCharShape(arena.nodes, |old(arena.nodes)|, m.init, m.tail, Some(r.inner.ch))
    decreases r, 0
  {
    ghost var g0 := arena.nodes;
    var inner := Convert(arena, InnerExpression(r));
    var ii, it, Is := inner.init, inner.tail, inner.states;
    ghost var gI := arena.nodes;
    var init := arena.NewState();
    ghost var g1 := arena.nodes;
    var tail := arena.NewState();
    ghost var g2 := arena.nodes;
    arena.EpsilonMoveTo(init, tail);
    ghost var g3 := arena.nodes;
    arena.EpsilonMoveTo(tail, init);
    ghost var g4 := arena.nodes;
    arena.EpsilonMoveTo(init, ii);
    ghost var g5 := arena.nodes;
    arena.EpsilonMoveTo(it, tail);
    ghost var gE := arena.nodes;
    m := new NFAModel(arena, init, tail);
    ghost var gM := arena.nodes;
    m.AddStates(arena, Is);
    StarConverted(g0, gI, g1, g2, g3, g4, g5, gE, gM, arena.nodes, Is, ii, it, r.inner, init, tail);
    if r.inner.Base? {
      StarCharSteps(gI, g1, g2, g3, g4, g5, gE, |g0|, ii, it, Some(r.inner.ch), init, tail);
      StarCharKept(gE, gM, arena.nodes, |g0|, init, tail, Some(r.inner.ch), Is);
    }
  }

  /**
   * `convert_batch_or_expression`: for each character in turn, a middle
   * state with an epsilon edge to the tail and an edge from the init
   * labelled with the character.
   */
  method ConvertBatchOr(arena: Arena, chars: seq<Code>) returns (m: NFAModel)
    requires arena.Valid()
    modifies arena
    ensures fresh(m) && arena.Valid() && m.Valid(arena)
    ensures Converted(old(arena.nodes), arena.nodes, m.states, m.init, m.tail, BatchOr(chars))
    ensures |arena.nodes[m.init].outEdges| == |chars|
  {
    ghost var g0 := arena.nodes;
    var init := arena.NewState();
    var tail := arena.NewState();
    m := new NFAModel(arena, init, tail);
    ghost var mids: seq<nat> := [];
    var k := 0;
    while k < |chars|
      invariant 0 <= k <= |chars| && |mids| == k
      invariant arena.Valid() && m.Valid(arena)
      invariant m.states == [init, tail] + mids && m.init == init && m.tail == tail
      invariant BatchProgress(g0, arena.nodes, init, tail, chars, mids, k)
    {
      var target := BatchLink(arena, m, init, tail, g0, chars, mids, k);
      mids := mids + [target];
      k := k + 1;
    }
    BatchConverted(g0, arena.nodes, init, tail, chars, mids);
  }

  /** One pass of the loop of `convert_batch_or_expression`, and the progress it makes. */
  method BatchLink(arena: Arena, m: NFAModel, init: nat, tail: nat,
                   ghost g0: Graph, chars: seq<Code>, ghost mids: seq<nat>, k: nat) returns (target: nat)
    requires arena.Valid() && m.Valid(arena) && k < |chars|
    requires m.states == [init, tail] + mids && m.init == init && m.tail == tail
    requires BatchProgress(g0, arena.nodes, init, tail, chars, mids, k)
    modifies arena, m
    ensures arena.Valid() && m.Valid(arena)
    ensures m.states == [init, tail] + (mids + [target]) && m.init == init && m.tail == tail
    ensures BatchProgress(g0, arena.nodes, init, tail, chars, mids + [target], k + 1)
  {
    ghost var before := arena.nodes;
    var symbol := CharToIndex([chars[k]]);
    target := AddBranch(arena, m, symbol, mids);
    ghost var g1 := before + [NewNState];
    ghost var g2 := WithEdge(g1, target, Edge(None, tail));
    BatchStep(g0, before, g1, g2, WithEdge(g2, init, Edge(symbol, target)), arena.nodes,
              init, tail, chars, mids, k, target);
  }

  /**
   * One pass of the loop of `convert_batch_or_expression`: a new middle state
   * with an epsilon edge to the tail, the edge from the init to it labelled
   * with the character's symbol, and the middle state added to the model.
   */
  method AddBranch(arena: Arena, m: NFAModel, symbol: Symbol, ghost mids: seq<nat>) returns (target: nat)
    requires arena.Valid() && m.Valid(arena) && m.states == [m.init, m.tail] + mids
    modifies arena, m
    ensures arena.Valid() && m.Valid(arena) && m.init == old(m.init) && m.tail == old(m.tail)
    ensures m.states == [m.init, m.tail] + (mids + [target])
    ensures target == |old(arena.nodes)|
    ensures var g1 := old(arena.nodes) + [NewNState];
            var g2 := WithEdge(g1, target, Edge(None, m.tail));
            Retagged(WithEdge(g2, m.init, Edge(symbol, target)), arena.nodes, [target])
  {
    ghost var before := arena.nodes;
    var init, tail := m.init, m.tail;
    assert init in m.states && tail in m.states;
    target := arena.NewState();
    ghost var g1 := arena.nodes;
    arena.EpsilonMoveTo(target, tail);
    ghost var g2 := arena.nodes;
    arena.MoveTo(init, symbol, target);
    ghost var g3 := arena.nodes;
    assert g3 == WithEdge(WithEdge(before + [NewNState], target, Edge(None, tail)), init, Edge(symbol, target));
    IndicesKeptTrans(before, g1, g2);
    IndicesKeptTrans(before, g2, g3);
    IndexedKept(before, g3, m.states);
    AppendOne([init, tail], mids, target);
    m.AddStates(arena, [target]);
  }

  /**
   * `convert_literal_expression`: a chain of new states, one edge per
   * character, then an epsilon edge from the last one to the end state.
   */
  method ConvertLiteral(arena: Arena, text: Text) returns (m: NFAModel)
    requires arena.Valid()
    modifies arena
    ensures fresh(m) && arena.Valid() && m.Valid(arena)
    ensures Converted(old(arena.nodes), arena.nodes, m.states, m.init, m.tail, Literal(text))
    ensures |m.states| == |text| + 2
  {
    ghost var g0 := arena.nodes;
    var init := arena.NewState();
    ghost var g1 := arena.nodes;
    var end := arena.NewState();
    ghost var g2 := arena.nodes;
    var state := init;
    m := new NFAModel(arena, init, end);
    LiteralStart(g0, g1, g2, arena.nodes, init, end, text);
    ghost var chain: seq<nat> := [init];
    var k := 0;
    while k < |text|
      invariant 0 <= k <= |text| && |chain| == k + 1 && state == chain[k]
      invariant arena.Valid() && m.Valid(arena)
      invariant m.states == [init, end] + chain[1..] && m.init == init && m.tail == end
      invariant LiteralProgress(g0, arena.nodes, init, end, text, chain, k)
    {
      var target := LiteralLink(arena, m, state, init, end, g0, text, chain, k);
      chain := chain + [target];
      state := target;
      k := k + 1;
    }
    ghost var gC := arena.nodes;
    arena.EpsilonMoveTo(state, end);
    LiteralConverted(g0, gC, arena.nodes, init, end, text, chain);
  }

  /** One pass of the loop of `convert_literal_expression`, and the progress it makes. */
  method LiteralLink(arena: Arena, m: NFAModel, state: nat, init: nat, end: nat,
                     ghost g0: Graph, text: Text, ghost chain: seq<nat>, k: nat) returns (target: nat)
    requires arena.Valid() && m.Valid(arena) && k < |text| && |chain| == k + 1 && state == chain[k]
    requires m.states == [init, end] + chain[1..] && m.init == init && m.tail == end
    requires LiteralProgress(g0, arena.nodes, init, end, text, chain, k)
    modifies arena, m
    ensures arena.Valid() && m.Valid(arena)
    ensures m.states == [init, end] + (chain + [target])[1..] && m.init == init && m.tail == end
    ensures LiteralProgress(g0, arena.nodes, init, end, text, chain + [target], k + 1)
  {
    ghost var before := arena.nodes;
    var symbol := CharToIndex([text[k]]);
    target := AddLink(arena, m, state, symbol, chain);
    LiteralStep(g0, before, before + [NewNState], WithEdge(before + [NewNState], state, Edge(symbol, target)),
                arena.nodes, init, end, text, chain, k, target);
  }

  /**
   * One pass of the loop of `convert_literal_expression`: a new state, the
   * edge to it from the chain's last state labelled with the character's
   * symbol, and the new state added to the model.
   */
  method AddLink(arena: Arena, m: NFAModel, state: nat, symbol: Symbol, ghost chain: seq<nat>) returns (target: nat)
    requires arena.Valid() && m.Valid(arena) && state < |arena.nodes| && |chain| >= 1
    requires m.states == [m.init, m.tail] + chain[1..]
    modifies arena, m
    ensures arena.Valid() && m.Valid(arena) && m.init == old(m.init) && m.tail == old(m.tail)
    ensures m.states == [m.init, m.tail] + (chain + [target])[1..]
    ensures target == |old(arena.nodes)|
    ensures Retagged(WithEdge(old(arena.nodes) + [NewNState], state, Edge(symbol, target)), arena.nodes, [target])
  {
    ghost var before := arena.nodes;
    target := arena.NewState();
    ghost var g1 := arena.nodes;
    arena.MoveTo(state, symbol, target);
    ghost var g2 := arena.nodes;
    assert g2 == WithEdge(before + [NewNState], state, Edge(symbol, target));
    IndicesKeptTrans(before, g1, g2);
    IndexedKept(before, g2, m.states);
    ChainStates(m.states, m.init, m.tail, chain, target);
    m.AddStates(arena, [target]);
  }

  /**
   * `to_nfa_model(converter)`: each node kind dispatches to its conversion;
   * a range and a predicate node are converted as the batch of their
   * characters.
   */
  method Convert(arena: Arena, r: Regex) returns (m: NFAModel)
    requires arena.Valid()
    modifies arena
    ensures fresh(m) && arena.Valid() && m.Valid(arena)
    ensures Converted(old(arena.nodes), arena.nodes, m.states, m.init, m.tail, r)
    ensures r.Base? ==> CharShape(arena.nodes, |old(arena.nodes)|, m.init, m.tail, Some(r.ch))
    ensures r.Star? && r.inner.Base? ==> StarCharShape(arena.nodes, |old(arena.nodes)|, m.init, m.tail, Some(r.inner.ch))
    decreases r, 1
  {
    match r
    case Base(_) => m := ConvertBase(arena, r);
    case Empty => m := ConvertBase(arena, r);
    case Or(_, _) => m := ConvertOr(arena, r);
    case Concat(_, _) => m := ConvertConcat(arena, r);
    case Star(_) => m := ConvertStar(arena, r);
    case Literal(text) => m := ConvertLiteral(arena, text);
    case BatchOr(chars) => m := ConvertBatchOr(arena, chars);
    case Range(_, _) =>
      m := ConvertBatchOr(arena, MatchChars(r));
      SameConverted(old(arena.nodes), arena.nodes, m.states, m.init, m.tail, BatchOr(MatchChars(r)), r);
    case Function(_) =>
      m := ConvertBatchOr(arena, MatchChars(r));
      SameConverted(old(arena.nodes), arena.nodes, m.states, m.init, m.tail, BatchOr(MatchChars(r)), r);
  }
}
