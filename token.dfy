/**
 * Tokens and the registry of token rules.  `define(name, re)` converts the
 * expression into a fresh fragment of the shared arena and marks the
 * fragment's tail as accepting with the rule's position, so the `i`-th rule
 * accepts with token index `i`.
 */
module Tokens {
  import opened Wrappers
  import opened RegularExpression
  import opened NfaModel
  import opened NfaModelConverter
  import opened Fsa

  /** A `Token`: the index of its rule, the rule's name and the text it covers. */
  datatype Token = Token(tokenIndex: int, name: Text, value: Text)

  /** `repr(token)`: the name, an arrow, then the value in single quotes. */
  function Repr(t: Token): (s: Text)
    ensures |s| == |t.name| + |t.value| + 6
    ensures s[..|t.name|] == t.name && s[|t.name| + 5..|s| - 1] == t.value
    ensures s[|t.name|..|t.name| + 5] == Str(" -> '") && s[|s| - 1] == '\'' as int
  {
    var s := t.name + Str(" -> '") + t.value + Str("'");
    assert s[|t.name|..|t.name| + 5] == Str(" -> '");
    s
  }

  /** A `RETokenDefinition`: a rule's name and expression. */
  datatype Definition = Definition(name: Text, re: Regex)

  /** `RETokenDefinition.get_nfa_model()`: the converter's fragment for the rule's expression. */
  method GetNfaModel(arena: Arena, d: Definition) returns (m: NFAModel)
    requires arena.Valid()
    modifies arena
    ensures fresh(m) && arena.Valid() && m.Valid(arena)
    ensures Converted(old(arena.nodes), arena.nodes, m.states, m.init, m.tail, d.re)
    ensures d.re.Base? ==> CharShape(arena.nodes, |old(arena.nodes)|, m.init, m.tail, Some(d.re.ch))
    ensures d.re.Star? && d.re.inner.Base? ==> StarCharShape(arena.nodes, |old(arena.nodes)|, m.init, m.tail, Some(d.re.inner.ch))
  {
    m := Convert(arena, d.re);
  }

  /** Where a rule's model lies in the arena: its list of states, its init and tail, and its addresses `lo` up to `hi`. */
  datatype Frag = Frag(states: seq<nat>, init: nat, tail: nat, lo: nat, hi: nat)

  /**
   * Rule `i`'s model in the arena `g`: it occupies exactly the addresses
   * from `lo` up to `hi`, no edge leaves it, its tail alone accepts, with
   * token index `i`, and it recognizes exactly the words of `r`.
   */
  ghost predicate RuleOk(g: Graph, f: Frag, r: Regex, i: nat) {
    && f.lo < f.hi <= |g|
    && f.init in f.states && f.tail in f.states && f.init != f.tail
    && (forall s :: s in f.states ==> f.lo <= s < f.hi)
    && (forall s :: f.lo <= s < f.hi ==> s in f.states)
    && Closed(g, SetOf(f.states))
    && g[f.tail].tokenIndex == i
    && (forall s :: f.lo <= s < f.hi && s != f.tail ==> g[s].tokenIndex == -1)
    && Recognizes(g, f.init, f.tail, r, Fold)
  }

  /** The models lie side by side and fill the arena, in the order of their rules. */
  ghost predicate Tiled(fs: seq<Frag>, n: nat) {
    && (fs == [] ==> n == 0)
    && (fs != [] ==> fs[0].lo == 0 && fs[|fs| - 1].hi == n)
    && forall i :: 0 <= i < |fs| - 1 ==> fs[i].hi == fs[i + 1].lo
  }

  /** Every rule's model is in place in `g`, and together they fill it. */
  ghost predicate RulesOk(g: Graph, fs: seq<Frag>, defs: seq<Definition>) {
    && |fs| == |defs| && Tiled(fs, |g|)
    && forall i :: 0 <= i < |fs| ==> RuleOk(g, fs[i], defs[i].re, i)
  }

  /** The models list exactly the states, inits and tails recorded for them. */
  ghost predicate ModelsMatch(ms: seq<NFAModel>, fs: seq<Frag>)
    reads ms
  {
    |ms| == |fs| && forall i :: 0 <= i < |ms| ==> ms[i].states == fs[i].states && ms[i].init == fs[i].init && ms[i].tail == fs[i].tail
  }

  lemma {:induction false} ModelsAppend(ms: seq<NFAModel>, fs: seq<Frag>, m: NFAModel, f: Frag)
    requires ModelsMatch(ms, fs) && m.states == f.states && m.init == f.init && m.tail == f.tail
    ensures ModelsMatch(ms + [m], fs + [f])
  {
  }

  /** The depth at which the registry holds its invariant (see `Registered`). */
  ghost function Seal(): nat {
    3
  }

  /** `RulesOk`, sealed at `depth` as `Recognizes` is. */
  ghost predicate Registered(g: Graph, fs: seq<Frag>, defs: seq<Definition>, depth: nat)
    decreases depth
  {
    if depth > 0 then Registered(g, fs, defs, depth - 1) else RulesOk(g, fs, defs)
  }

  lemma {:induction false} OpenRules(g: Graph, fs: seq<Frag>, defs: seq<Definition>, depth: nat)
    requires Registered(g, fs, defs, depth)
    ensures RulesOk(g, fs, defs)
    decreases depth
  {
    if depth > 0 {
      OpenRules(g, fs, defs, depth - 1);
    }
  }

  lemma {:induction false} CloseRules(g: Graph, fs: seq<Frag>, defs: seq<Definition>, depth: nat)
    requires RulesOk(g, fs, defs)
    ensures Registered(g, fs, defs, depth)
    decreases depth
  {
    if depth > 0 {
      CloseRules(g, fs, defs, depth - 1);
    }
  }

  /** `ReTokenDefinitions`: the rules in order, each with the model its expression was converted to. */
  class ReTokenDefinitions {
    /** The arena every model of these rules lives in. */
    const arena: Arena
    var definitions: seq<Definition>
    var models: seq<NFAModel>
    ghost var frags: seq<Frag>

    ghost predicate Valid()
      reads this, arena, models
    {
      && arena.Valid()
      && ModelsMatch(models, frags)
      && Registered(arena.nodes, frags, definitions, Seal())
    }

    /** `ReTokenDefinitions(converter)`: no rules yet. */
    constructor()
      ensures Valid() && fresh(arena) && definitions == [] && models == []
      ensures arena.nodes == [] && frags == []
    {
      arena := new Arena();
      definitions := [];
      models := [];
      frags := [];
      new;
      CloseRules([], [], [], Seal());
    }

    /**
     * `define(name, re)`: converts `re`, appends the rule, and marks the
     * model's tail as accepting with the rule's position.  Earlier rules and
     * their states are untouched.
     */
    method Define(name: Text, re: Regex)
      requires Valid()
      modifies this, arena
      ensures Valid()
      ensures definitions == old(definitions) + [Definition(name, re)]
      ensures |models| == |old(models)| + 1 && models[..|old(models)|] == old(models)
      ensures fresh(models[|old(models)|])
      ensures Preserved(old(arena.nodes), arena.nodes)
      ensures |frags| == |old(frags)| + 1 && frags[..|old(frags)|] == old(frags)
      ensures re.Base? ==> CharShape(arena.nodes, |old(arena.nodes)|, frags[|frags| - 1].init, frags[|frags| - 1].tail, Some(re.ch))
      ensures re.Star? && re.inner.Base? ==>
        StarCharShape(arena.nodes, |old(arena.nodes)|, frags[|frags| - 1].init, frags[|frags| - 1].tail, Some(re.inner.ch))
    {
      ghost var g0 := arena.nodes;
      var definition := Definition(name, re);
      var model := GetNfaModel(arena, definition);
      ghost var g1 := arena.nodes;
      Append(definition, model, g0);
      ShapesRetagged(g0, g1, arena.nodes, model.init, model.tail, re);
    }

    /** The bookkeeping of `define` once the model is built: token index, definition and model appended. */
    method Append(definition: Definition, model: NFAModel, ghost g0: Graph)
      requires arena.Valid() && ModelsMatch(models, frags) && Registered(g0, frags, definitions, Seal())
      requires Converted(g0, arena.nodes, model.states, model.init, model.tail, definition.re)
      modifies this, arena
      ensures Valid()
      ensures definitions == old(definitions) + [definition] && models == old(models) + [model]
      ensures Preserved(g0, arena.nodes)
      ensures frags == old(frags) + [Frag(model.states, model.init, model.tail, |g0|, |old(arena.nodes)|)]
      ensures |arena.nodes| == |old(arena.nodes)|
      ensures forall s :: 0 <= s < |arena.nodes| ==> arena.nodes[s].outEdges == old(arena.nodes)[s].outEdges
    {
      ghost var g1 := arena.nodes;
      var tokenIndex := |definitions|;
      ghost var f := Frag(model.states, model.init, model.tail, |g0|, |g1|);
      arena.SetTokenIndex(model.tail, tokenIndex);
      DefineRegisters(g0, g1, arena.nodes, frags, definitions, f, definition.name, definition.re);
      ModelsAppend(models, frags, model, f);
      definitions := definitions + [definition];
      models := models + [model];
      frags := frags + [f];
    }

    /**
     * `get_token_definition(index)`: the definition of the `index`-th rule;
     * an index out of range raises (`None`), a negative one counts from the end.
     */
    function GetTokenDefinition(index: int): (r: Option<Definition>)
      reads this
      ensures r.Some? <==> -|definitions| <= index < |definitions|
      ensures 0 <= index < |definitions| ==> r == Some(definitions[index])
    {
      PyIndex(definitions, index)
    }

    /** The definition at `index` is the rule whose model's tail accepts with token index `index`. */
    lemma {:induction false} DefinitionOfToken(index: nat)
      requires Valid() && index < |definitions|
      ensures GetTokenDefinition(index) == Some(definitions[index])
      ensures models[index].tail < |arena.nodes| && arena.nodes[models[index].tail].tokenIndex == index
    {
      OpenRules(arena.nodes, frags, definitions, Seal());
      assert RuleOk(arena.nodes, frags[index], definitions[index].re, index);
    }
  }

  /**
   * A fragment keeps its language when the graph grows around it while its
   * own states keep their edges.
   */
  lemma {:induction false} KeepRecognizes(g0: Graph, g: Graph, S: set<nat>, init: nat, tail: nat, r: Regex)
    requires Closed(g0, S) && init in S && tail in S && EdgesGrow(g0, g)
    requires forall s :: s in S ==> s < |g| && g[s].outEdges == g0[s].outEdges
    requires Recognizes(g0, init, tail, r, Fold)
    ensures Recognizes(g, init, tail, r, Fold) && Closed(g, S)
  {
    OpenLanguage(g0, init, tail, r, Fold);
    forall w | Matches(r, w) ensures Reach(g, init, tail, w) {
      ReachGrow(g0, g, init, tail, w);
    }
    forall p | Walk(g, init, p, tail) ensures Matches(r, Word(p)) {
      StayInFragment(g0, g, S, init, tail, r, p);
    }
    CloseLanguage(g, init, tail, r, Fold);
  }

  /** A rule already in place stays in place when later states are added or retagged. */
  lemma {:induction false} KeepRule(g0: Graph, g: Graph, f: Frag, r: Regex, i: nat)
    requires RuleOk(g0, f, r, i) && |g0| <= |g|
    requires forall s :: 0 <= s < |g0| ==> g[s] == g0[s]
    ensures RuleOk(g, f, r, i)
  {
    KeepRecognizes(g0, g, SetOf(f.states), f.init, f.tail, r);
  }

  /** `DefineKeeps` for the sealed registry. */
  lemma {:induction false} DefineRegisters(g0: Graph, g1: Graph, g2: Graph, fs: seq<Frag>, defs: seq<Definition>, f: Frag, name: Text, re: Regex)
    requires Registered(g0, fs, defs, Seal())
    requires Converted(g0, g1, f.states, f.init, f.tail, re) && f.lo == |g0| && f.hi == |g1|
    requires g2 == g1[f.tail := g1[f.tail].(tokenIndex := |defs|)]
    ensures Registered(g2, fs + [f], defs + [Definition(name, re)], Seal())
    ensures Preserved(g0, g2)
  {
    OpenRules(g0, fs, defs, Seal());
    DefineKeeps(g0, g1, g2, fs, defs, f, name, re);
    CloseRules(g2, fs + [f], defs + [Definition(name, re)], Seal());
  }

  /** What `define` does to the rules: the old ones stay in place and the new one joins them. */
  lemma {:induction false} DefineKeeps(g0: Graph, g1: Graph, g2: Graph, fs: seq<Frag>, defs: seq<Definition>, f: Frag, name: Text, re: Regex)
    requires RulesOk(g0, fs, defs)
    requires Converted(g0, g1, f.states, f.init, f.tail, re) && f.lo == |g0| && f.hi == |g1|
    requires g2 == g1[f.tail := g1[f.tail].(tokenIndex := |defs|)]
    ensures RulesOk(g2, fs + [f], defs + [Definition(name, re)])
    ensures Preserved(g0, g2)
  {
    var fs', defs' := fs + [f], defs + [Definition(name, re)];
    NewRule(g0, g1, g2, f, re, |defs|);
    OldRules(g0, g2, fs, defs);
    forall i | 0 <= i < |fs'| ensures RuleOk(g2, fs'[i], defs'[i].re, i) {
      if i < |fs| {
        assert fs'[i] == fs[i] && defs'[i] == defs[i];
      }
    }
    assert Tiled(fs', |g2|) by {
      if fs != [] {
        assert fs'[|fs| - 1] == fs[|fs| - 1];
      }
    }
  }

  /** The rules in place before `define` stay in place. */
  lemma {:induction false} OldRules(g0: Graph, g2: Graph, fs: seq<Frag>, defs: seq<Definition>)
    requires RulesOk(g0, fs, defs) && |g0| <= |g2|
    requires forall s :: 0 <= s < |g0| ==> g2[s] == g0[s]
    ensures forall i :: 0 <= i < |fs| ==> RuleOk(g2, fs[i], defs[i].re, i)
  {
    forall i | 0 <= i < |fs| ensures RuleOk(g2, fs[i], defs[i].re, i) {
      KeepRule(g0, g2, fs[i], defs[i].re, i);
    }
  }

  /** Tagging the tail keeps the exact shape of a character or a starred character rule. */
  lemma {:induction false} ShapesRetagged(g0: Graph, g1: Graph, g2: Graph, init: nat, tail: nat, re: Regex)
    requires |g2| == |g1| && forall s :: 0 <= s < |g1| ==> g2[s].outEdges == g1[s].outEdges
    ensures re.Base? && CharShape(g1, |g0|, init, tail, Some(re.ch)) ==> CharShape(g2, |g0|, init, tail, Some(re.ch))
    ensures re.Star? && re.inner.Base? && StarCharShape(g1, |g0|, init, tail, Some(re.inner.ch)) ==>
      StarCharShape(g2, |g0|, init, tail, Some(re.inner.ch))
  {
  }

  /** The freshly converted model, its tail tagged with index `i`, is rule `i` in place. */
  lemma {:induction false} NewRule(g0: Graph, g1: Graph, g2: Graph, f: Frag, re: Regex, i: nat)
    requires Converted(g0, g1, f.states, f.init, f.tail, re) && f.lo == |g0| && f.hi == |g1|
    requires g2 == g1[f.tail := g1[f.tail].(tokenIndex := i)]
    ensures RuleOk(g2, f, re, i) && Preserved(g0, g2)
    ensures |g0| <= |g2| && forall s :: 0 <= s < |g0| ==> g2[s] == g0[s]
  {
    KeepRecognizes(g1, g2, SetOf(f.states), f.init, f.tail, re);
  }
}
