/**
 * The scanner: a reader over a text, the merge of every rule's NFA under
 * one init state, the DFA built from it and the machine that runs its
 * tables, and `token_stream`, which cuts the text into tokens by maximal
 * munch.  The stream is stated against `Scan`, a function of the tables, the
 * rules and the text; the lemmas say what `Scan` yields when it runs a DFA
 * built from the rules.
 */
module Scanner {
  import opened Wrappers
  import opened RegularExpression
  import opened NfaModel
  import opened NfaModelConverter
  import opened DfaModel
  import opened Fsa
  import opened Tokens
  import opened Runs
  import opened Merge

  /** The code `head()` returns at position `k`: the character there, or `EOF` at the end. */
  function CharAt(text: Text, k: nat): int {
    if k < |text| then text[k] else EOF
  }

  /** `StringReader(string)`: a text, as character codes, and the position of the next character. */
  class StringReader {
    const text: Text
    var index: nat

    ghost predicate Valid()
      reads this
    {
      index <= |text|
    }

    constructor(text: Text)
      ensures Valid() && this.text == text && index == 0
    {
      this.text := text;
      index := 0;
    }

    /** `head()`: the code of the next character, or `EOF` at the end; the position stays. */
    function Head(): (c: int)
      requires Valid()
      reads this
      ensures c == CharAt(text, index)
      ensures c == EOF <==> index == |text|
    {
      if index < |text| then text[index] else EOF
    }

    /** `peek()`: the code of the next character, which it passes; at the end, `EOF`, and it stays. */
    method Peek() returns (c: int)
      requires Valid()
      modifies this
      ensures Valid() && c == CharAt(text, old(index))
      ensures index == if old(index) < |text| then old(index) + 1 else old(index)
    {
      if index < |text| {
        c := text[index];
        index := index + 1;
      } else {
        c := EOF;
      }
    }

    /** `position()`: line 0, and the column of the next character, which is before the end exactly while `head()` is not `EOF`. */
    function Position(): (p: (int, int))
      requires Valid()
      reads this
      ensures p.0 == 0 && 0 <= p.1 <= |text|
      ensures p.1 < |text| <==> Head() != EOF
    {
      (0, index)
    }
  }

  // ---------------------------------------------------------------------------
  // Maximal munch over a pair of tables
  // ---------------------------------------------------------------------------

  /**
   * What feeding `EOF` to the machine does: `LastColumn`, as `input(EOF)`
   * does, reads column -1 of the row, which, counted from the end, is the
   * last one; `Dead`, as `token_stream` evidently intends, stops the machine.
   */
  datatype EofRule = LastColumn | Dead

  /** The state the machine moves `cur` to on `c`, `None` when a lookup raises. */
  function Feed(t: seq<seq<int>>, acc: seq<int>, cur: int, c: int, eof: EofRule): (r: Option<int>)
    ensures r.Some? ==> PyIndex(acc, cur).Some?
  {
    if c == EOF && eof == Dead then
      (if PyIndex(acc, cur).Some? then Some(0) else None)
    else
      Transit(t, acc, cur, c)
  }

  /** The states an index into `acc` can name (negative ones counting from the end). */
  function AccRows(acc: seq<int>): set<int> {
    Span(-|acc|, |acc|)
  }

  /** The integers from `lo` up to `hi`. */
  function Span(lo: int, hi: int): set<int>
    decreases hi - lo
  {
    if lo >= hi then {} else {lo} + Span(lo + 1, hi)
  }

  lemma {:induction false} SpanHas(lo: int, hi: int, x: int)
    requires lo <= x < hi
    ensures x in Span(lo, hi)
    decreases hi - lo
  {
    if x != lo {
      SpanHas(lo + 1, hi, x);
    }
  }

  /**
   * A state with an accept entry that has not been seen yet: seeing it
   * leaves fewer such states unseen.
   */
  lemma {:induction false} Fewer(acc: seq<int>, seen: set<int>, cur: int)
    requires PyIndex(acc, cur).Some? && cur !in seen
    ensures |AccRows(acc) - (seen + {cur})| < |AccRows(acc) - seen|
  {
    SpanHas(-|acc|, |acc|, cur);
    var r := AccRows(acc) - seen;
    assert AccRows(acc) - (seen + {cur}) == r - {cur};
    assert r - {cur} < r;
  }

  /** How one token's run of the machine ends. */
  datatype Stop =
    | Stopped(end: nat, last: int)   // the character at `end` moved state `last` to the dead state 0
    | BadChar(at: nat)               // a lookup raised on the character at `at`
    | Cycle                          // at the end, `EOF` leads round the same states for ever

  /**
   * The machine in state `cur` reading `text` from position `k` until it
   * stops.  `seen` holds the states that have already read `EOF` at the end,
   * where nothing else moves: meeting one again means the loop never ends.
   */
  function Munch(t: seq<seq<int>>, acc: seq<int>, text: Text, k: nat, cur: int, eof: EofRule, seen: set<int>): (s: Stop)
    requires k <= |text|
    ensures s.Stopped? ==> k <= s.end <= |text| && PyIndex(acc, s.last).Some?
    ensures s.Stopped? ==> Feed(t, acc, s.last, CharAt(text, s.end), eof) == Some(0)
    ensures s.BadChar? ==> k <= s.at <= |text|
    decreases |text| - k, |AccRows(acc) - seen|
  {
    if k == |text| && cur in seen then Cycle
    else match Feed(t, acc, cur, CharAt(text, k), eof)
      case None => BadChar(k)
      case Some(next) =>
        if next == 0 then Stopped(k, cur)
        else if k < |text| then Munch(t, acc, text, k + 1, next, eof, {})
        else
          Fewer(acc, seen, cur);
          Munch(t, acc, text, k, next, eof, seen + {cur})
  }

  /** Where `token_stream` ends. */
  datatype Outcome =
    | Done(tokens: seq<Token>)                  // these tokens, then the stream returns
    | Error(tokens: seq<Token>, value: Text)    // these tokens, then `error token: value` is raised
    | Crash(tokens: seq<Token>)                 // these tokens, then a lookup raises `IndexError`
    | Repeats(tokens: seq<Token>, token: Token) // these tokens, then `token` again and again, for ever
    | Hangs(tokens: seq<Token>)                 // these tokens, then the stream runs for ever without another

  function Prepend(ts: seq<Token>, o: Outcome): (r: Outcome)
    ensures r.tokens == ts + o.tokens
  {
    o.(tokens := ts + o.tokens)
  }

  /**
   * `token_stream` from position `k` with the machine in state `cur`: run
   * the machine until it stops; the text read by then is the token's value,
   * and the accept entry of the state it stopped from is the token index,
   * an error when -1.  The stream ends at `EOF`; otherwise the machine is
   * reset and the character that stopped it is read again.  An empty token
   * from the reset state at a character is followed by the very same
   * situation, so it repeats for ever.
   */
  function Scan(t: seq<seq<int>>, acc: seq<int>, defs: seq<Definition>, text: Text, k: nat, cur: int, eof: EofRule): (o: Outcome)
    requires k <= |text|
    decreases |text| - k, if cur == 1 then 0 else 1
  {
    match Munch(t, acc, text, k, cur, eof, {})
    case BadChar(_) => Crash([])
    case Cycle => Hangs([])
    case Stopped(j, last) =>
      var idx := PyIndex(acc, last).value;
      if idx == -1 then Error([], text[k..j])
      else match PyIndex(defs, idx)
        case None => Crash([])
        case Some(d) =>
          var tok := Token(idx, d.name, text[k..j]);
          if j == |text| then Done([tok])
          else if j == k && cur == 1 then Repeats([], tok)
          else Prepend([tok], Scan(t, acc, defs, text, j, 1, eof))
  }

  /** The values of a list of tokens, one after the other. */
  function Values(ts: seq<Token>): Text {
    if ts == [] then [] else ts[0].value + Values(ts[1..])
  }

  lemma {:induction false} ValuesCons(tok: Token, ts: seq<Token>)
    ensures Values([tok] + ts) == tok.value + Values(ts)
  {
    assert ([tok] + ts)[1..] == ts;
  }

  /**
   * The values of `o`'s tokens, one after the other, are the text from `k`
   * on: all of it when the stream ends, and the value of an error token
   * follows them.  A token repeated for ever is empty.
   */
  ghost predicate Covers(o: Outcome, text: Text, k: nat) {
    var v := Values(o.tokens);
    && k + |v| <= |text| && v == text[k..k + |v|]
    && (o.Done? ==> v == text[k..])
    && (o.Error? ==> k + |v| + |o.value| <= |text| && o.value == text[k + |v|..k + |v| + |o.value|])
    && (o.Repeats? ==> o.token.value == [] && k + |v| < |text|)
  }

  /** The tokens of every stream cover the text they were cut from. */
  lemma {:induction false} ScanCovers(t: seq<seq<int>>, acc: seq<int>, defs: seq<Definition>, text: Text, k: nat, cur: int, eof: EofRule)
    requires k <= |text|
    ensures Covers(Scan(t, acc, defs, text, k, cur, eof), text, k)
    decreases |text| - k, if cur == 1 then 0 else 1
  {
    var s := Munch(t, acc, text, k, cur, eof, {});
    if s.Stopped? {
      var j, last := s.end, s.last;
      var idx := PyIndex(acc, last).value;
      if idx != -1 && PyIndex(defs, idx).Some? {
        var tok := Token(idx, PyIndex(defs, idx).value.name, text[k..j]);
        if j == |text| {
          ValuesCons(tok, []);
        } else if !(j == k && cur == 1) {
          var rest := Scan(t, acc, defs, text, j, 1, eof);
          ScanCovers(t, acc, defs, text, j, 1, eof);
          CoversPrepend(tok, rest, text, k, j);
        }
      }
    }
  }

  /** A token whose value runs from `k` to `j`, followed by a stream that covers the text from `j`. */
  lemma {:induction false} CoversPrepend(tok: Token, rest: Outcome, text: Text, k: nat, j: nat)
    requires k <= j <= |text| && tok.value == text[k..j] && Covers(rest, text, j)
    ensures Covers(Prepend([tok], rest), text, k)
  {
    ValuesCons(tok, rest.tokens);
    var u := Values(rest.tokens);
    assert Prepend([tok], rest).tokens == [tok] + rest.tokens;
    assert text[k..j] + text[j..j + |u|] == text[k..j + |u|];
    assert text[k..j] + text[j..] == text[k..];
  }

  // ---------------------------------------------------------------------------
  // Maximal munch over a built DFA's tables
  // ---------------------------------------------------------------------------

  lemma {:induction false} EdgeTargetIn(ds: seq<DState>, es: seq<DEdge>, a: Code)
    requires TargetsIn(ds, es)
    ensures EdgeTarget(es, a) <= |ds|
    decreases |es|
  {
    if es != [] && es[|es| - 1].symbol != a {
      var p := es[..|es| - 1];
      assert forall k :: 0 <= k < |p| ==> p[k] == es[k];
      EdgeTargetIn(ds, p, a);
    }
  }

  /** A DFA step never leaves the DFA's states. */
  lemma {:induction false} NextIn(ds: seq<DState>, width: nat, i: nat, a: Code)
    requires EdgesFit(ds, width)
    ensures Next(ds, i, a) <= |ds|
  {
    if 1 <= i <= |ds| {
      EdgeTargetIn(ds, ds[i - 1].outEdges, a);
    }
  }

  /** Running a word and then one more symbol is one more step. */
  lemma {:induction false} RunSnoc(ds: seq<DState>, i: nat, w: Text, a: Code)
    ensures DfaRun(ds, i, w + [a]) == Next(ds, DfaRun(ds, i, w), a)
    decreases |w|
  {
    if w != [] {
      assert (w + [a])[1..] == w[1..] + [a];
      RunSnoc(ds, Next(ds, i, w[0]), w[1..], a);
    }
  }

  /** The DFA reading `text` from `k` to `i` from state `cur`: the first step, then the rest. */
  lemma {:induction false} RunFrom(ds: seq<DState>, cur: nat, text: Text, k: nat, i: nat)
    requires k < i <= |text|
    ensures DfaRun(ds, cur, text[k..i]) == DfaRun(ds, Next(ds, cur, text[k]), text[k + 1..i])
  {
    assert text[k..i][1..] == text[k + 1..i];
  }

  /**
   * Over a built DFA's tables, with the end of the input stopping the
   * machine, a run from a live state never cycles.  It stops where the next
   * character would kill the DFA, or at the end, having read the longest
   * live stretch, and stops in the state that stretch leads to; or it
   * raises on a character past the table's width.  Nothing is read back.
   */
  lemma {:induction false} MunchDead(ds: seq<DState>, width: nat, text: Text, k: nat, cur: nat)
    requires EdgesFit(ds, width) && width > 0 && k <= |text| && 1 <= cur <= |ds|
    ensures RunStops(ds, width, text, k, cur, Munch(Table(ds, width), Accepts(ds), text, k, cur, Dead, {}))
    decreases |text| - k
  {
    var t, acc := Table(ds, width), Accepts(ds);
    assert text[k..k] == [];
    if k < |text| {
      var c := text[k];
      TableCells(ds, width, cur, c);
      NextIn(ds, width, cur, c);
      var next := Next(ds, cur, c);
      if c < width && next != 0 {
        MunchDead(ds, width, text, k + 1, next);
        var s := Munch(t, acc, text, k + 1, next, Dead, {});
        assert Munch(t, acc, text, k, cur, Dead, {}) == s;
        RunStopsBack(ds, width, text, k, cur, s);
      } else if c < width {
        assert text[k..k + 1] == [c];
      }
    }
  }

  /** How a run from state `cur` at `k` that reads the text and stops, as `MunchDead` says, ends. */
  ghost predicate RunStops(ds: seq<DState>, width: nat, text: Text, k: nat, cur: nat, s: Stop) {
    && !s.Cycle?
    && (s.Stopped? ==>
          && k <= s.end <= |text| && s.last == DfaRun(ds, cur, text[k..s.end]) && 1 <= s.last <= |ds|
          && (s.end < |text| ==> text[s.end] < width && DfaRun(ds, cur, text[k..s.end + 1]) == 0))
    && (s.BadChar? ==> k <= s.at < |text| && text[s.at] >= width && 1 <= DfaRun(ds, cur, text[k..s.at]) <= |ds|)
  }

  /** A run that ends as `RunStops` says from the state after one live step ends so from the state before it. */
  lemma {:induction false} RunStopsBack(ds: seq<DState>, width: nat, text: Text, k: nat, cur: nat, s: Stop)
    requires k < |text| && text[k] < width
    requires RunStops(ds, width, text, k + 1, Next(ds, cur, text[k]), s)
    ensures RunStops(ds, width, text, k, cur, s)
  {
    if s.Stopped? {
      RunFrom(ds, cur, text, k, s.end);
      if s.end < |text| {
        RunFrom(ds, cur, text, k, s.end + 1);
      }
    } else if s.BadChar? {
      RunFrom(ds, cur, text, k, s.at);
    }
  }

  /**
   * `v` is the longest stretch of `text` from `p` that keeps the DFA alive:
   * it lies there, the DFA is live after it, and the next character, if
   * any, lies within the table and kills the DFA.  As the dead state has
   * no way out, no longer stretch is live either.
   */
  ghost predicate Longest(ds: seq<DState>, width: nat, text: Text, p: nat, v: Text) {
    && p + |v| <= |text| && text[p..p + |v|] == v && 1 <= DfaRun(ds, 1, v) <= |ds|
    && (p + |v| < |text| ==> text[p + |v|] < width && DfaRun(ds, 1, v + [text[p + |v|]]) == 0)
  }

  /** The DFA is live after the `n` characters from `p`, and the next one lies past the table's width. */
  ghost predicate BadAfter(ds: seq<DState>, width: nat, text: Text, p: nat, n: nat) {
    p + n < |text| && text[p + n] >= width && 1 <= DfaRun(ds, 1, text[p..p + n]) <= |ds|
  }

  /** A lookup past the table's width raises at the end of the live stretch from `p`. */
  ghost predicate BadAhead(ds: seq<DState>, width: nat, text: Text, p: nat) {
    exists n :: BadAfter(ds, width, text, p, n)
  }

  /** The longest live stretch from `p` has an accept entry that names no rule. */
  ghost predicate UnnamedAhead(ds: seq<DState>, width: nat, defs: seq<Definition>, text: Text, p: nat) {
    exists n :: Unnamed(ds, width, defs, text, p, n)
  }

  /** The longest live stretch from `p` is `n` long, and its accept entry names no rule. */
  ghost predicate Unnamed(ds: seq<DState>, width: nat, defs: seq<Definition>, text: Text, p: nat, n: nat) {
    && p + n <= |text| && Longest(ds, width, text, p, text[p..p + n])
    && var idx := Accepts(ds)[DfaRun(ds, 1, text[p..p + n])];
       idx != -1 && PyIndex(defs, idx).None?
  }

  /**
   * The tokens `ts` cut `text` from `p` by maximal munch: each is the
   * longest live stretch from where the previous one ended, its index is
   * the accept entry of the DFA state that stretch leads to, never -1, and
   * its name is that of the rule the index names.
   */
  ghost predicate Tokenized(ds: seq<DState>, width: nat, defs: seq<Definition>, ts: seq<Token>, text: Text, p: nat)
    decreases |ts|
  {
    ts != [] ==>
      var v := ts[0].value;
      && Longest(ds, width, text, p, v)
      && ts[0].tokenIndex == Accepts(ds)[DfaRun(ds, 1, v)] && ts[0].tokenIndex != -1
      && PyIndex(defs, ts[0].tokenIndex).Some? && ts[0].name == PyIndex(defs, ts[0].tokenIndex).value.name
      && Tokenized(ds, width, defs, ts[1..], text, p + |v|)
  }

  /**
   * What `token_stream` over a built DFA's tables yields from `k`, with the
   * end of the input stopping the machine: it never hangs; its tokens cut
   * the text by maximal munch, with no backtracking to a shorter accepted
   * stretch; the error token is the longest live stretch after them when
   * that stretch does not accept; an empty token repeats for ever only when
   * the start state accepts and the next character kills the DFA; and a
   * lookup raises only on a character past the table's width or an accept
   * entry that names no rule.
   */
  ghost predicate DeadOutcome(ds: seq<DState>, width: nat, defs: seq<Definition>, text: Text, k: nat, o: Outcome) {
    Tokenized(ds, width, defs, o.tokens, text, k) && DeadEnd(ds, width, defs, text, k + |Values(o.tokens)|, o)
  }

  /** How the stream ends once its tokens have brought it to `p`. */
  ghost predicate DeadEnd(ds: seq<DState>, width: nat, defs: seq<Definition>, text: Text, p: nat, o: Outcome) {
    && !o.Hangs? && p <= |text|
    && (o.Done? ==> p == |text|)
    && (o.Error? ==> Longest(ds, width, text, p, o.value) && Accepts(ds)[DfaRun(ds, 1, o.value)] == -1)
    && (o.Repeats? ==>
          && o.token.value == [] && Longest(ds, width, text, p, []) && p < |text|
          && o.token.tokenIndex == Accepts(ds)[1] != -1)
    && (o.Crash? ==> BadAhead(ds, width, text, p) || UnnamedAhead(ds, width, defs, text, p))
  }

  /** The stream over a built DFA's tables, from the start state, is as `DeadOutcome` says. */
  lemma {:induction false} ScanDead(ds: seq<DState>, width: nat, defs: seq<Definition>, text: Text, k: nat)
    requires EdgesFit(ds, width) && width > 0 && |ds| >= 1 && k <= |text|
    ensures DeadOutcome(ds, width, defs, text, k, Scan(Table(ds, width), Accepts(ds), defs, text, k, 1, Dead))
    decreases |text| - k
  {
    var j := Continues(ds, width, defs, text, k);
    if j > k {
      ScanDead(ds, width, defs, text, j);
      DeadStep(ds, width, defs, text, k, j);
    } else {
      DeadFirst(ds, width, defs, text, k);
    }
  }

  /**
   * Where the stream goes on after its first token from `k`: the end of
   * that token, when it is a non-empty token before the end that names a
   * rule; `k` otherwise.
   */
  ghost function Continues(ds: seq<DState>, width: nat, defs: seq<Definition>, text: Text, k: nat): (j: nat)
    requires EdgesFit(ds, width) && k <= |text|
    ensures k <= j <= |text|
  {
    var s := Munch(Table(ds, width), Accepts(ds), text, k, 1, Dead, {});
    if s.Stopped? && k < s.end < |text| && PyIndex(Accepts(ds), s.last).value != -1
       && PyIndex(defs, PyIndex(Accepts(ds), s.last).value).Some?
    then s.end else k
  }

  /** A stream that stops at its first token from `k`. */
  lemma {:induction false} DeadFirst(ds: seq<DState>, width: nat, defs: seq<Definition>, text: Text, k: nat)
    requires EdgesFit(ds, width) && width > 0 && |ds| >= 1 && k <= |text|
    requires Continues(ds, width, defs, text, k) == k
    ensures DeadOutcome(ds, width, defs, text, k, Scan(Table(ds, width), Accepts(ds), defs, text, k, 1, Dead))
  {
    MunchDead(ds, width, text, k, 1);
    var s := Munch(Table(ds, width), Accepts(ds), text, k, 1, Dead, {});
    if s.BadChar? {
      DeadBad(ds, width, defs, text, k, s.at);
    } else {
      StopLongest(ds, width, text, k, s.end, s.last);
      DeadStop(ds, width, defs, text, k, s.end, s.last);
    }
  }

  /** A first token from `k`, then the stream from its end at `j`. */
  lemma {:induction false} DeadStep(ds: seq<DState>, width: nat, defs: seq<Definition>, text: Text, k: nat, j: nat)
    requires EdgesFit(ds, width) && width > 0 && |ds| >= 1 && k <= |text|
    requires Continues(ds, width, defs, text, k) == j > k
    requires DeadOutcome(ds, width, defs, text, j, Scan(Table(ds, width), Accepts(ds), defs, text, j, 1, Dead))
    ensures DeadOutcome(ds, width, defs, text, k, Scan(Table(ds, width), Accepts(ds), defs, text, k, 1, Dead))
  {
    MunchDead(ds, width, text, k, 1);
    var last := Munch(Table(ds, width), Accepts(ds), text, k, 1, Dead, {}).last;
    StopLongest(ds, width, text, k, j, last);
    var tok := DeadNext(ds, width, defs, text, k, j, last);
    assert |tok.value| == j - k;
    assert NamedLongest(ds, width, defs, text, k, tok);
    DeadPrepend(ds, width, defs, text, k, j, tok, Scan(Table(ds, width), Accepts(ds), defs, text, j, 1, Dead));
  }

  /** A character past the table's width after a live stretch: the lookup raises. */
  lemma {:induction false} DeadBad(ds: seq<DState>, width: nat, defs: seq<Definition>, text: Text, k: nat, at: nat)
    requires EdgesFit(ds, width) && width > 0 && |ds| >= 1 && k <= |text|
    requires Munch(Table(ds, width), Accepts(ds), text, k, 1, Dead, {}) == BadChar(at)
    requires at < |text| && text[at] >= width && 1 <= DfaRun(ds, 1, text[k..at]) <= |ds|
    ensures DeadOutcome(ds, width, defs, text, k, Scan(Table(ds, width), Accepts(ds), defs, text, k, 1, Dead))
  {
    var o := Scan(Table(ds, width), Accepts(ds), defs, text, k, 1, Dead);
    assert o == Crash([]);
    var p := k + |Values(o.tokens)|;
    assert p == k;
    assert text[p..p + (at - k)] == text[k..at];
    assert BadAfter(ds, width, text, p, at - k);
  }

  /** Where the machine stops after a live stretch, that stretch is the longest live one. */
  lemma {:induction false} StopLongest(ds: seq<DState>, width: nat, text: Text, k: nat, j: nat, last: nat)
    requires k <= j <= |text| && last == DfaRun(ds, 1, text[k..j]) && 1 <= last <= |ds|
    requires j < |text| ==> text[j] < width && DfaRun(ds, 1, text[k..j + 1]) == 0
    ensures Longest(ds, width, text, k, text[k..j])
  {
    if j < |text| {
      assert text[k..j] + [text[j]] == text[k..j + 1];
    }
  }

  /**
   * The machine stops after the longest live stretch from `k`: the error
   * when its accept entry is -1, the raise when that entry names no rule,
   * the last token at the end, or an empty token for ever.
   */
  lemma {:induction false} DeadStop(ds: seq<DState>, width: nat, defs: seq<Definition>, text: Text, k: nat, j: nat, last: nat)
    requires EdgesFit(ds, width) && width > 0 && |ds| >= 1 && k <= j <= |text|
    requires Munch(Table(ds, width), Accepts(ds), text, k, 1, Dead, {}) == Stopped(j, last)
    requires Longest(ds, width, text, k, text[k..j]) && last == DfaRun(ds, 1, text[k..j])
    requires !(j < |text| && j != k && Accepts(ds)[last] != -1 && PyIndex(defs, Accepts(ds)[last]).Some?)
    ensures DeadOutcome(ds, width, defs, text, k, Scan(Table(ds, width), Accepts(ds), defs, text, k, 1, Dead))
  {
    var idx := Accepts(ds)[last];
    if idx == -1 || PyIndex(defs, idx).None? {
      DeadUnnamed(ds, width, defs, text, k, j, last);
    } else if j == |text| {
      DeadLast(ds, width, defs, text, k, j, last);
    } else {
      DeadEmpty(ds, width, defs, text, k, j, last);
    }
  }

  /** A longest live stretch whose accept entry is -1 or names no rule: the error, or the raise. */
  lemma {:induction false} DeadUnnamed(ds: seq<DState>, width: nat, defs: seq<Definition>, text: Text, k: nat, j: nat, last: nat)
    requires EdgesFit(ds, width) && |ds| >= 1 && k <= j <= |text|
    requires Munch(Table(ds, width), Accepts(ds), text, k, 1, Dead, {}) == Stopped(j, last)
    requires Longest(ds, width, text, k, text[k..j]) && last == DfaRun(ds, 1, text[k..j])
    requires Accepts(ds)[last] == -1 || PyIndex(defs, Accepts(ds)[last]).None?
    ensures DeadOutcome(ds, width, defs, text, k, Scan(Table(ds, width), Accepts(ds), defs, text, k, 1, Dead))
  {
    var o := Scan(Table(ds, width), Accepts(ds), defs, text, k, 1, Dead);
    assert o.tokens == [] && Values([]) == [];
    if Accepts(ds)[last] != -1 {
      assert text[k..k + (j - k)] == text[k..j];
      assert Unnamed(ds, width, defs, text, k, j - k);
    }
  }

  /** A longest live stretch that reaches the end and names a rule: the last token. */
  lemma {:induction false} DeadLast(ds: seq<DState>, width: nat, defs: seq<Definition>, text: Text, k: nat, j: nat, last: nat)
    requires EdgesFit(ds, width) && |ds| >= 1 && k <= j == |text|
    requires Munch(Table(ds, width), Accepts(ds), text, k, 1, Dead, {}) == Stopped(j, last)
    requires Longest(ds, width, text, k, text[k..j]) && last == DfaRun(ds, 1, text[k..j])
    requires Accepts(ds)[last] != -1 && PyIndex(defs, Accepts(ds)[last]).Some?
    ensures DeadOutcome(ds, width, defs, text, k, Scan(Table(ds, width), Accepts(ds), defs, text, k, 1, Dead))
  {
    var idx := Accepts(ds)[last];
    var tok := Token(idx, PyIndex(defs, idx).value.name, text[k..j]);
    assert Scan(Table(ds, width), Accepts(ds), defs, text, k, 1, Dead) == Done([tok]);
    ValuesCons(tok, []);
    assert [tok][1..] == [] && Values([]) == [];
  }

  /** An empty longest live stretch before the end that names a rule: that token for ever. */
  lemma {:induction false} DeadEmpty(ds: seq<DState>, width: nat, defs: seq<Definition>, text: Text, k: nat, j: nat, last: nat)
    requires EdgesFit(ds, width) && width > 0 && |ds| >= 1 && k == j < |text|
    requires Munch(Table(ds, width), Accepts(ds), text, k, 1, Dead, {}) == Stopped(j, last)
    requires Longest(ds, width, text, k, text[k..j]) && last == DfaRun(ds, 1, text[k..j])
    requires Accepts(ds)[last] != -1 && PyIndex(defs, Accepts(ds)[last]).Some?
    ensures DeadOutcome(ds, width, defs, text, k, Scan(Table(ds, width), Accepts(ds), defs, text, k, 1, Dead))
  {
    assert text[k..j] == [] && Values([]) == [];
  }

  /** A token that names a rule, then the stream from where it ended. */
  lemma {:induction false} DeadNext(ds: seq<DState>, width: nat, defs: seq<Definition>, text: Text, k: nat, j: nat, last: nat)
      returns (tok: Token)
    requires EdgesFit(ds, width) && |ds| >= 1 && k < j < |text|
    requires Munch(Table(ds, width), Accepts(ds), text, k, 1, Dead, {}) == Stopped(j, last)
    requires last == DfaRun(ds, 1, text[k..j])
    requires Accepts(ds)[last] != -1 && PyIndex(defs, Accepts(ds)[last]).Some?
    ensures tok.value == text[k..j] && tok.tokenIndex == Accepts(ds)[last]
    ensures tok.name == PyIndex(defs, tok.tokenIndex).value.name
    ensures Scan(Table(ds, width), Accepts(ds), defs, text, k, 1, Dead)
         == Prepend([tok], Scan(Table(ds, width), Accepts(ds), defs, text, j, 1, Dead))
  {
    var idx := Accepts(ds)[last];
    tok := Token(idx, PyIndex(defs, idx).value.name, text[k..j]);
  }

  /** `tok` is the longest live stretch from `k`, accepted and naming a rule: what `Tokenized` asks of each token. */
  ghost predicate NamedLongest(ds: seq<DState>, width: nat, defs: seq<Definition>, text: Text, k: nat, tok: Token) {
    && Longest(ds, width, text, k, tok.value)
    && tok.tokenIndex == Accepts(ds)[DfaRun(ds, 1, tok.value)] && tok.tokenIndex != -1
    && PyIndex(defs, tok.tokenIndex).Some? && tok.name == PyIndex(defs, tok.tokenIndex).value.name
  }

  /** A maximal-munch token in front of what follows it keeps `DeadOutcome`. */
  lemma {:induction false} DeadPrepend(ds: seq<DState>, width: nat, defs: seq<Definition>, text: Text, k: nat, j: nat, tok: Token, rest: Outcome)
    requires NamedLongest(ds, width, defs, text, k, tok) && j == k + |tok.value|
    requires DeadOutcome(ds, width, defs, text, j, rest)
    ensures DeadOutcome(ds, width, defs, text, k, Prepend([tok], rest))
  {
    var o := Prepend([tok], rest);
    var p := j + |Values(rest.tokens)|;
    TokenizedCons(ds, width, defs, text, k, j, tok, rest.tokens);
    ValuesCons(tok, rest.tokens);
    DeadEndTokens(ds, width, defs, text, p, rest, o);
    DeadOutcomeOf(ds, width, defs, text, k, p, o);
  }

  lemma {:induction false} DeadOutcomeOf(ds: seq<DState>, width: nat, defs: seq<Definition>, text: Text, k: nat, p: nat, o: Outcome)
    requires Tokenized(ds, width, defs, o.tokens, text, k) && p == k + |Values(o.tokens)|
    requires DeadEnd(ds, width, defs, text, p, o)
    ensures DeadOutcome(ds, width, defs, text, k, o)
  {
  }

  /** How a stream ends does not depend on the tokens before the end. */
  lemma {:induction false} DeadEndTokens(ds: seq<DState>, width: nat, defs: seq<Definition>, text: Text, p: nat, a: Outcome, b: Outcome)
    requires DeadEnd(ds, width, defs, text, p, a) && b == a.(tokens := b.tokens)
    ensures DeadEnd(ds, width, defs, text, p, b)
  {
  }

  /** An accepted longest token at `k` followed by tokens cutting the text from its end cuts the text from `k`. */
  lemma {:induction false} TokenizedCons(ds: seq<DState>, width: nat, defs: seq<Definition>, text: Text, k: nat, j: nat, tok: Token, ts: seq<Token>)
    requires NamedLongest(ds, width, defs, text, k, tok) && j == k + |tok.value|
    requires Tokenized(ds, width, defs, ts, text, j)
    ensures Tokenized(ds, width, defs, [tok] + ts, text, k)
  {
    assert ([tok] + ts)[0] == tok;
    assert ([tok] + ts)[1..] == ts;
  }

  // ---------------------------------------------------------------------------
  // The loop of `token_stream`, one input at a time
  // ---------------------------------------------------------------------------

  /**
   * The loop of `token_stream` is on its way to `whole`: it has emitted
   * `emitted`, the token under way started at `start` in state `rs`, and the
   * machine, in state `cur` at position `k`, is where that run has led.
   * Sealed at `depth` as `Registered` is.
   */
  ghost predicate OnTrack(t: seq<seq<int>>, acc: seq<int>, defs: seq<Definition>, text: Text, eof: EofRule,
                          emitted: seq<Token>, start: nat, rs: int, k: nat, cur: int, seen: set<int>, buffer: Text,
                          whole: Outcome, depth: nat)
    decreases depth
  {
    if depth > 0 then OnTrack(t, acc, defs, text, eof, emitted, start, rs, k, cur, seen, buffer, whole, depth - 1)
    else
      && start <= k <= |text| && (seen != {} ==> k == |text|) && buffer == text[start..k]
      && Munch(t, acc, text, start, rs, eof, {}) == Munch(t, acc, text, k, cur, eof, seen)
      && Prepend(emitted, Scan(t, acc, defs, text, start, rs, eof)) == whole
  }

  lemma {:induction false} OpenTrack(t: seq<seq<int>>, acc: seq<int>, defs: seq<Definition>, text: Text, eof: EofRule,
                          emitted: seq<Token>, start: nat, rs: int, k: nat, cur: int, seen: set<int>, buffer: Text,
                          whole: Outcome, depth: nat)
    requires OnTrack(t, acc, defs, text, eof, emitted, start, rs, k, cur, seen, buffer, whole, depth)
    ensures OnTrack(t, acc, defs, text, eof, emitted, start, rs, k, cur, seen, buffer, whole, 0)
    decreases depth
  {
    if depth > 0 {
      OpenTrack(t, acc, defs, text, eof, emitted, start, rs, k, cur, seen, buffer, whole, depth - 1);
    }
  }

  lemma {:induction false} CloseTrack(t: seq<seq<int>>, acc: seq<int>, defs: seq<Definition>, text: Text, eof: EofRule,
                          emitted: seq<Token>, start: nat, rs: int, k: nat, cur: int, seen: set<int>, buffer: Text,
                          whole: Outcome, depth: nat)
    requires OnTrack(t, acc, defs, text, eof, emitted, start, rs, k, cur, seen, buffer, whole, 0)
    ensures OnTrack(t, acc, defs, text, eof, emitted, start, rs, k, cur, seen, buffer, whole, depth)
    decreases depth
  {
    if depth > 0 {
      CloseTrack(t, acc, defs, text, eof, emitted, start, rs, k, cur, seen, buffer, whole, depth - 1);
    }
  }

  /** `whole` is the stream `Scan` gives from position `k` and state `cur`; sealed at `depth` as `OnTrack` is. */
  ghost predicate Streams(whole: Outcome, t: seq<seq<int>>, acc: seq<int>, defs: seq<Definition>, text: Text,
                          k: nat, cur: int, eof: EofRule, depth: nat)
    decreases depth
  {
    if depth > 0 then Streams(whole, t, acc, defs, text, k, cur, eof, depth - 1)
    else k <= |text| && whole == Scan(t, acc, defs, text, k, cur, eof)
  }

  lemma {:induction false} StreamIs(whole: Outcome, t: seq<seq<int>>, acc: seq<int>, defs: seq<Definition>, text: Text,
                                    k: nat, cur: int, eof: EofRule, depth: nat)
    requires Streams(whole, t, acc, defs, text, k, cur, eof, depth)
    ensures k <= |text| && whole == Scan(t, acc, defs, text, k, cur, eof)
    decreases depth
  {
    if depth > 0 {
      StreamIs(whole, t, acc, defs, text, k, cur, eof, depth - 1);
    }
  }

  /** Before the first input, the loop is on its way to the whole stream. */
  lemma {:induction false} TrackStart(t: seq<seq<int>>, acc: seq<int>, defs: seq<Definition>, text: Text, eof: EofRule, k: nat, cur: int)
    returns (whole: Outcome)
    requires k <= |text|
    ensures Streams(whole, t, acc, defs, text, k, cur, eof, Seal())
    ensures OnTrack(t, acc, defs, text, eof, [], k, cur, k, cur, {}, [], whole, Seal())
  {
    whole := Scan(t, acc, defs, text, k, cur, eof);
    assert Prepend([], whole) == whole;
    CloseTrack(t, acc, defs, text, eof, [], k, cur, k, cur, {}, [], whole, Seal());
    SealStream(whole, t, acc, defs, text, k, cur, eof, Seal());
  }

  lemma {:induction false} SealStream(whole: Outcome, t: seq<seq<int>>, acc: seq<int>, defs: seq<Definition>, text: Text,
                                      k: nat, cur: int, eof: EofRule, depth: nat)
    requires k <= |text| && whole == Scan(t, acc, defs, text, k, cur, eof)
    ensures Streams(whole, t, acc, defs, text, k, cur, eof, depth)
    decreases depth
  {
    if depth > 0 {
      SealStream(whole, t, acc, defs, text, k, cur, eof, depth - 1);
    }
  }

  /** The loop state keeps its bounds: the buffer is the text from where the token under way started. */
  lemma {:induction false} TrackBounds(t: seq<seq<int>>, acc: seq<int>, defs: seq<Definition>, text: Text, eof: EofRule,
                  emitted: seq<Token>, start: nat, rs: int, k: nat, cur: int, seen: set<int>, buffer: Text, whole: Outcome)
    requires OnTrack(t, acc, defs, text, eof, emitted, start, rs, k, cur, seen, buffer, whole, Seal())
    ensures start <= k <= |text| && (seen != {} ==> k == |text|) && buffer == text[start..k] && |buffer| == k - start
  {
    OpenTrack(t, acc, defs, text, eof, emitted, start, rs, k, cur, seen, buffer, whole, Seal());
  }

  /** Meeting, at the end of the text, a state already seen there: the stream hangs. */
  lemma {:induction false} TrackHangs(t: seq<seq<int>>, acc: seq<int>, defs: seq<Definition>, text: Text, eof: EofRule,
                  emitted: seq<Token>, start: nat, rs: int, k: nat, cur: int, seen: set<int>, buffer: Text, whole: Outcome)
    requires OnTrack(t, acc, defs, text, eof, emitted, start, rs, k, cur, seen, buffer, whole, Seal())
    requires k == |text| && cur in seen
    ensures whole == Hangs(emitted)
  {
    OpenTrack(t, acc, defs, text, eof, emitted, start, rs, k, cur, seen, buffer, whole, Seal());
  }

  /** An input whose lookup raises ends the stream. */
  lemma {:induction false} TrackCrash(t: seq<seq<int>>, acc: seq<int>, defs: seq<Definition>, text: Text, eof: EofRule,
                  emitted: seq<Token>, start: nat, rs: int, k: nat, cur: int, seen: set<int>, buffer: Text, whole: Outcome)
    requires OnTrack(t, acc, defs, text, eof, emitted, start, rs, k, cur, seen, buffer, whole, Seal())
    requires !(k == |text| && cur in seen) && Feed(t, acc, cur, CharAt(text, k), eof).None?
    ensures whole == Crash(emitted)
  {
    OpenTrack(t, acc, defs, text, eof, emitted, start, rs, k, cur, seen, buffer, whole, Seal());
  }

  /**
   * One input that does not stop the machine: the run goes on from the next
   * character, which joins the buffer, or, at the end, from the same
   * position with one more state seen.
   */
  lemma {:induction false} TrackMove(t: seq<seq<int>>, acc: seq<int>, defs: seq<Definition>, text: Text, eof: EofRule,
                  emitted: seq<Token>, start: nat, rs: int, k: nat, cur: int, seen: set<int>, buffer: Text, whole: Outcome,
                  next: int, k': nat, seen': set<int>, buffer': Text)
    requires OnTrack(t, acc, defs, text, eof, emitted, start, rs, k, cur, seen, buffer, whole, Seal())
    requires !(k == |text| && cur in seen) && Feed(t, acc, cur, CharAt(text, k), eof) == Some(next) && next != 0
    requires k' == (if k < |text| then k + 1 else k) && seen' == (if k < |text| then {} else seen + {cur})
    requires buffer' == if k < |text| then buffer + [text[k]] else buffer
    ensures OnTrack(t, acc, defs, text, eof, emitted, start, rs, k', next, seen', buffer', whole, Seal())
  {
    OpenTrack(t, acc, defs, text, eof, emitted, start, rs, k, cur, seen, buffer, whole, Seal());
    assert buffer' == text[start..k'];
    CloseTrack(t, acc, defs, text, eof, emitted, start, rs, k', next, seen', buffer', whole, Seal());
  }

  /** An input that stops the machine in a state that does not accept: the buffer is the error's value. */
  lemma {:induction false} TrackError(t: seq<seq<int>>, acc: seq<int>, defs: seq<Definition>, text: Text, eof: EofRule,
                  emitted: seq<Token>, start: nat, rs: int, k: nat, cur: int, seen: set<int>, buffer: Text, whole: Outcome)
    requires OnTrack(t, acc, defs, text, eof, emitted, start, rs, k, cur, seen, buffer, whole, Seal())
    requires !(k == |text| && cur in seen) && Feed(t, acc, cur, CharAt(text, k), eof) == Some(0)
    requires PyIndex(acc, cur) == Some(-1)
    ensures whole == Error(emitted, buffer)
  {
    OpenTrack(t, acc, defs, text, eof, emitted, start, rs, k, cur, seen, buffer, whole, Seal());
    assert Munch(t, acc, text, start, rs, eof, {}) == Stopped(k, cur);
  }

  /** An input that stops the machine in a state whose token index names no rule: the lookup raises. */
  lemma {:induction false} TrackNoRule(t: seq<seq<int>>, acc: seq<int>, defs: seq<Definition>, text: Text, eof: EofRule,
                  emitted: seq<Token>, start: nat, rs: int, k: nat, cur: int, seen: set<int>, buffer: Text, whole: Outcome)
    requires OnTrack(t, acc, defs, text, eof, emitted, start, rs, k, cur, seen, buffer, whole, Seal())
    requires !(k == |text| && cur in seen) && Feed(t, acc, cur, CharAt(text, k), eof) == Some(0)
    requires PyIndex(acc, cur).Some? && PyIndex(acc, cur).value != -1
    requires PyIndex(defs, PyIndex(acc, cur).value).None?
    ensures whole == Crash(emitted)
  {
    OpenTrack(t, acc, defs, text, eof, emitted, start, rs, k, cur, seen, buffer, whole, Seal());
    assert Munch(t, acc, text, start, rs, eof, {}) == Stopped(k, cur);
  }

  /**
   * An input that stops the machine in an accepting state ends the token
   * under way, the buffer: the stream ends with it at `EOF`, and repeats it
   * for ever when it is empty and began in state 1.
   */
  lemma {:induction false} TrackToken(t: seq<seq<int>>, acc: seq<int>, defs: seq<Definition>, text: Text, eof: EofRule,
                  emitted: seq<Token>, start: nat, rs: int, k: nat, cur: int, seen: set<int>, buffer: Text, whole: Outcome, idx: int, d: Definition)
    requires OnTrack(t, acc, defs, text, eof, emitted, start, rs, k, cur, seen, buffer, whole, Seal())
    requires !(k == |text| && cur in seen) && Feed(t, acc, cur, CharAt(text, k), eof) == Some(0)
    requires PyIndex(acc, cur) == Some(idx) && idx != -1 && PyIndex(defs, idx) == Some(d)
    ensures k == |text| ==> whole == Done(emitted + [Token(idx, d.name, buffer)])
    ensures k < |text| && buffer == [] && rs == 1 ==> whole == Repeats(emitted, Token(idx, d.name, buffer))
    ensures buffer == [] ==> k == start
  {
    OpenTrack(t, acc, defs, text, eof, emitted, start, rs, k, cur, seen, buffer, whole, Seal());
    assert Munch(t, acc, text, start, rs, eof, {}) == Stopped(k, cur);
  }

  /** Otherwise the stream goes on after that token with a fresh one from where the machine stopped. */
  lemma {:induction false} TrackNext(t: seq<seq<int>>, acc: seq<int>, defs: seq<Definition>, text: Text, eof: EofRule,
                  emitted: seq<Token>, start: nat, rs: int, k: nat, cur: int, seen: set<int>, buffer: Text, whole: Outcome, idx: int, d: Definition, emitted': seq<Token>)
    requires OnTrack(t, acc, defs, text, eof, emitted, start, rs, k, cur, seen, buffer, whole, Seal())
    requires !(k == |text| && cur in seen) && Feed(t, acc, cur, CharAt(text, k), eof) == Some(0)
    requires PyIndex(acc, cur) == Some(idx) && idx != -1 && PyIndex(defs, idx) == Some(d)
    requires k < |text| && !(buffer == [] && rs == 1)
    requires emitted' == emitted + [Token(idx, d.name, buffer)]
    ensures OnTrack(t, acc, defs, text, eof, emitted', k, 1, k, 1, {}, [], whole, Seal())
  {
    OpenTrack(t, acc, defs, text, eof, emitted, start, rs, k, cur, seen, buffer, whole, Seal());
    assert Munch(t, acc, text, start, rs, eof, {}) == Stopped(k, cur);
    var tok := Token(idx, d.name, text[start..k]);
    var rest := Scan(t, acc, defs, text, k, 1, eof);
    assert Scan(t, acc, defs, text, start, rs, eof) == Prepend([tok], rest);
    assert Prepend(emitted + [tok], rest) == whole;
    CloseTrack(t, acc, defs, text, eof, emitted', k, 1, k, 1, {}, [], whole, Seal());
  }

  // ---------------------------------------------------------------------------
  // The scanner
  // ---------------------------------------------------------------------------

  /**
   * The merge after `i` rules: the arena has two more states than `g0`, the
   * first `i` rules are merged in, and the merged model lists the two new
   * states and then those rules' states, each indexed by its last position.
   * Sealed at `depth` as `Registered` is.
   */
  ghost predicate Progress(g0: Graph, G: Graph, states: seq<nat>, fs: seq<Frag>, i: nat, depth: nat)
    decreases depth
  {
    if depth > 0 then Progress(g0, G, states, fs, i, depth - 1)
    else
      && i <= |fs| && |G| == |g0| + 2 && Merged(g0, G, fs[..i])
      && Indexed(G, states) && states == [|g0|, |g0| + 1] + Flat(fs[..i])
  }

  lemma {:induction false} OpenProgress(g0: Graph, G: Graph, states: seq<nat>, fs: seq<Frag>, i: nat, depth: nat)
    requires Progress(g0, G, states, fs, i, depth)
    ensures Progress(g0, G, states, fs, i, 0)
    decreases depth
  {
    if depth > 0 {
      OpenProgress(g0, G, states, fs, i, depth - 1);
    }
  }

  lemma {:induction false} CloseProgress(g0: Graph, G: Graph, states: seq<nat>, fs: seq<Frag>, i: nat, depth: nat)
    requires Progress(g0, G, states, fs, i, 0)
    ensures Progress(g0, G, states, fs, i, depth)
    decreases depth
  {
    if depth > 0 {
      CloseProgress(g0, G, states, fs, i, depth - 1);
    }
  }

  /** Nothing merged yet: the two new states, listed in a model of their own. */
  lemma {:induction false} ProgressStart(g0: Graph, G: Graph, states: seq<nat>, fs: seq<Frag>)
    requires |G| == |g0| + 2 && Merged(g0, G, []) && Indexed(G, states) && states == [|g0|, |g0| + 1]
    ensures Progress(g0, G, states, fs, 0, Seal())
  {
    assert fs[..0] == [];
    CloseProgress(g0, G, states, fs, 0, Seal());
  }

  /** Every rule merged: the merged arena's states carry distinct state indices. */
  lemma {:induction false} ProgressDone(g0: Graph, G: Graph, states: seq<nat>, fs: seq<Frag>, defs: seq<Definition>)
    requires Progress(g0, G, states, fs, |fs|, Seal()) && RulesOk(g0, fs, defs)
    ensures Merged(g0, G, fs) && DistinctIndices(G)
  {
    OpenProgress(g0, G, states, fs, |fs|, Seal());
    assert fs[..|fs|] == fs;
    MergedIndices(g0, G, fs, defs, states);
  }

  /** What the merge so far says of the arena's size and of the merged model's indexing. */
  lemma {:induction false} ProgressFacts(g0: Graph, G: Graph, states: seq<nat>, fs: seq<Frag>, i: nat)
    requires Progress(g0, G, states, fs, i, Seal())
    ensures i <= |fs| && |G| == |g0| + 2 && Indexed(G, states)
  {
    OpenProgress(g0, G, states, fs, i, Seal());
  }

  /**
   * Attaching rule `i`: its init reached from the new init, its tail
   * reaching the new tail, its states indexed after those listed so far.
   */
  lemma {:induction false} ProgressStep(g0: Graph, G: Graph, H: Graph, listed: seq<nat>, states: seq<nat>, fs: seq<Frag>, i: nat)
    requires Progress(g0, G, listed, fs, i, Seal()) && i < |fs| && fs[i].tail < |g0|
    requires Retagged(WithEdge(WithEdge(G, |g0|, Edge(None, fs[i].init)), fs[i].tail, Edge(None, |g0| + 1)), H, fs[i].states)
    requires Indexed(H, states) && states == listed + fs[i].states
    ensures Progress(g0, H, states, fs, i + 1, Seal())
  {
    OpenProgress(g0, G, listed, fs, i, Seal());
    MergeStep(g0, G, H, fs, i, fs[i].states);
    assert fs[..i + 1][..i] == fs[..i];
    CloseProgress(g0, H, states, fs, i + 1, Seal());
  }

  /**
   * One pass of the loop in `Scanner.init`: an epsilon edge from the new
   * init state to the rule's init and one from the rule's tail to the new
   * tail state, then the rule's states added to the merged model.
   */
  method Attach(arena: Arena, model: NFAModel, initState: nat, tailState: nat, m: NFAModel,
                ghost g0: Graph, ghost fs: seq<Frag>, ghost defs: seq<Definition>, ghost i: nat)
    requires RulesOk(g0, fs, defs) && i < |fs| && m.init == fs[i].init && m.tail == fs[i].tail && m.states == fs[i].states
    requires arena.Valid() && initState == |g0| && tailState == |g0| + 1 && model != m
    requires Progress(g0, arena.nodes, model.states, fs, i, Seal())
    modifies arena, model
    ensures arena.Valid() && Progress(g0, arena.nodes, model.states, fs, i + 1, Seal())
  {
    FragIn(g0, fs, defs, i);
    ghost var G := arena.nodes;
    ghost var listed := model.states;
    ProgressFacts(g0, G, listed, fs, i);
    arena.EpsilonMoveTo(initState, m.init);
    arena.EpsilonMoveTo(m.tail, tailState);
    IndexedKept(G, arena.nodes, listed);
    model.AddStates(arena, m.states);
    ProgressStep(g0, G, arena.nodes, listed, model.states, fs, i);
  }

  /** The start of `Scanner.init`: a new init state, a new tail state and a model over the two. */
  method NewModel(arena: Arena) returns (initState: nat, tailState: nat, model: NFAModel)
    requires arena.Valid()
    modifies arena
    ensures fresh(model) && arena.Valid() && Indexed(arena.nodes, model.states)
    ensures initState == |old(arena.nodes)| && tailState == initState + 1 && model.states == [initState, tailState]
    ensures |arena.nodes| == |old(arena.nodes)| + 2 && Merged(old(arena.nodes), arena.nodes, [])
  {
    ghost var g0 := arena.nodes;
    initState := arena.NewState();
    tailState := arena.NewState();
    model := new NFAModel(arena, initState, tailState);
    MergeNone(g0, arena.nodes);
  }

  /**
   * The merge of `Scanner.init`: two new states, the init and the tail, and
   * a model over them; every rule's model is then attached in turn.  The
   * merged arena's states carry distinct state indices, as `DFAModel`
   * needs.
   */
  method MergeModels(arena: Arena, models: seq<NFAModel>, ghost fs: seq<Frag>, ghost defs: seq<Definition>)
    returns (initState: nat, model: NFAModel)
    requires arena.Valid() && ModelsMatch(models, fs) && RulesOk(arena.nodes, fs, defs)
    modifies arena
    ensures fresh(model) && arena.Valid() && initState == |old(arena.nodes)|
    ensures Merged(old(arena.nodes), arena.nodes, fs) && DistinctIndices(arena.nodes)
  {
    ghost var g0 := arena.nodes;
    var tailState;
    initState, tailState, model := NewModel(arena);
    ProgressStart(g0, arena.nodes, model.states, fs);
    var i := 0;
    while i < |models|
      invariant 0 <= i <= |models| == |fs|
      invariant arena.Valid()
      invariant Progress(g0, arena.nodes, model.states, fs, i, Seal())
    {
      Attach(arena, model, initState, tailState, models[i], g0, fs, defs, i);
      assert Progress(g0, arena.nodes, model.states, fs, i + 1, Seal());
      i := i + 1;
    }
    ProgressDone(g0, arena.nodes, model.states, fs, defs);
  }

  /**
   * A `Scanner` over a reader and the token rules: the DFA built from the
   * merge of the rules' models, and the machine that runs its tables.
   */
  class Scanner {
    const definitions: ReTokenDefinitions
    const reader: StringReader
    const dfa: DFAModel
    const fsa: FiniteStateMachine
    /** `init()` returned; `false` where it raises because no rule has a symbol (`max` of an empty set). */
    const ready: bool
    /** The rules, where they lay in the arena, and the arena before the merge. */
    ghost const rules: seq<Definition>
    ghost const frags: seq<Frag>
    ghost const before: Graph

    ghost predicate Valid()
      reads this, reader, dfa
    {
      && reader.Valid()
      && RulesOk(before, frags, rules) && Merged(before, dfa.nfa, frags)
      && WellFormedGraph(dfa.nfa) && dfa.nfaInit == |before|
      && Built(dfa.nfa, dfa.nfaInit, dfa.dstates, dfa.allSymbols)
      && (ready <==> dfa.allSymbols != {})
      && (ready ==> Tables(dfa.dstates, dfa.allSymbols, fsa.transitionTable, fsa.acceptTable))
    }

    /**
     * `Scanner(reader, definitions)` and its `init()`: a new init and tail
     * state, a model of them, and for each rule's model an epsilon edge from
     * the init to the model's init, one from the model's tail to the tail,
     * and the model's states added; then the DFA of that model and a
     * machine over its tables.
     */
    constructor(reader: StringReader, definitions: ReTokenDefinitions)
      requires definitions.Valid() && reader.Valid()
      modifies definitions.arena
      ensures Valid() && fresh(dfa) && fresh(fsa)
      ensures this.reader == reader && this.definitions == definitions
      ensures rules == definitions.definitions && frags == definitions.frags && before == old(definitions.arena.nodes)
      ensures dfa.nfa == definitions.arena.nodes
      ensures fsa.currentState == 1 && fsa.lastState == None
    {
      var arena := definitions.arena;
      ghost var g0 := arena.nodes;
      OpenRules(g0, definitions.frags, definitions.definitions, Seal());
      var initState, model := MergeModels(arena, definitions.models, definitions.frags, definitions.definitions);
      var built := new DFAModel(arena.nodes, initState);
      var ok := built.Init();
      var machine := new FiniteStateMachine(built.transitionTable, built.acceptTable);
      dfa, ready, fsa := built, ok, machine;
      this.reader := reader;
      this.definitions := definitions;
      rules := definitions.definitions;
      frags := definitions.frags;
      before := g0;
    }

    /**
     * One input of the loop of `token_stream`: `input(c)`, or, at the end
     * of the text under `Dead`, `Finish`.  The machine moves as `Feed` says
     * and remembers the state it left; when a lookup raises, nothing changes.
     */
    method Step(c: int, eof: EofRule) returns (accept: Option<int>)
      modifies fsa
      ensures var next := Feed(fsa.transitionTable, fsa.acceptTable, old(fsa.currentState), c, eof);
        && (accept.Some? <==> next.Some?)
        && (next.Some? ==> fsa.currentState == next.value && fsa.lastState == Some(old(fsa.currentState)))
        && (next.None? ==> fsa.currentState == old(fsa.currentState))
    {
      if c == EOF && eof == Dead {
        accept := fsa.Finish();
      } else {
        accept := fsa.Input(c);
      }
    }

    /**
     * The machine stopped, having left `cur`: the token it read is an error
     * when `cur` accepts with -1, raises when its index names no rule, and is
     * otherwise emitted, ending the stream at `EOF` or when it would repeat
     * for ever, and resetting the machine for the next token.
     */
    method Emit(c: int, eof: EofRule, ghost text: Text, ghost whole: Outcome, emitted: seq<Token>, ghost start: nat,
                roundStart: int, ghost visited: set<int>, buffer: Text, ghost cur: int)
        returns (stopped: Option<Outcome>, emitted': seq<Token>)
      requires reader.Valid() && reader.text == text && c == CharAt(text, reader.index) && fsa.lastState == Some(cur)
      requires OnTrack(fsa.transitionTable, fsa.acceptTable, definitions.definitions, text, eof, emitted, start, roundStart,
                       reader.index, cur, visited, buffer, whole, Seal())
      requires !(reader.index == |text| && cur in visited)
      requires Feed(fsa.transitionTable, fsa.acceptTable, cur, c, eof) == Some(0)
      modifies fsa
      ensures stopped.Some? ==> stopped.value == whole
      ensures stopped.None? ==> reader.index < |text| && (start < reader.index || roundStart != 1)
      ensures stopped.None? ==> fsa.currentState == 1 && OnTrack(fsa.transitionTable, fsa.acceptTable, definitions.definitions,
                text, eof, emitted', reader.index, 1, reader.index, 1, {}, [], whole, Seal())
    {
      ghost var t, acc, defs, k := fsa.transitionTable, fsa.acceptTable, definitions.definitions, reader.index;
      TrackBounds(t, acc, defs, text, eof, emitted, start, roundStart, k, cur, visited, buffer, whole);
      emitted' := emitted;
      var idx := PyIndex(fsa.acceptTable, fsa.lastState.value).value;
      if idx == -1 {
        TrackError(t, acc, defs, text, eof, emitted, start, roundStart, k, cur, visited, buffer, whole);
        return Some(Error(emitted, buffer)), emitted';
      }
      var d := definitions.GetTokenDefinition(idx);
      if d.None? {
        TrackNoRule(t, acc, defs, text, eof, emitted, start, roundStart, k, cur, visited, buffer, whole);
        return Some(Crash(emitted)), emitted';
      }
      var token := Token(idx, d.value.name, buffer);
      TrackToken(t, acc, defs, text, eof, emitted, start, roundStart, k, cur, visited, buffer, whole, idx, d.value);
      if c == EOF {
        return Some(Done(emitted + [token])), emitted';
      }
      if buffer == [] && roundStart == 1 {
        return Some(Repeats(emitted, token)), emitted';
      }
      emitted' := emitted + [token];
      fsa.Reset();
      TrackNext(t, acc, defs, text, eof, emitted, start, roundStart, k, cur, visited, buffer, whole, idx, d.value, emitted');
      stopped := None;
    }

    /**
     * `token_stream()`, run until it ends or until it is clear that it
     * never will: the outcome `Scan` gives for the text from the reader's
     * position and the machine's state.  With `LastColumn` this is the loop
     * as written; with `Dead`, the end of the input stops the machine.
     * Only a scanner whose `init()` returned exists in the program, so the
     * scanner is `ready`.
     */
    method TokenStream(eof: EofRule) returns (out: Outcome)
      requires reader.Valid() && ready
      modifies reader, fsa
      ensures reader.Valid()
      ensures out == Scan(fsa.transitionTable, fsa.acceptTable, definitions.definitions, reader.text, old(reader.index), old(fsa.currentState), eof)
    {
      ghost var t, acc, defs, text := fsa.transitionTable, fsa.acceptTable, definitions.definitions, reader.text;
      ghost var k0, c0 := reader.index, fsa.currentState;
      var emitted: seq<Token> := [];
      var buffer: Text := [];
      ghost var start := reader.index;
      var roundStart := fsa.currentState;
      var visited: set<int> := {};
      ghost var whole := TrackStart(t, acc, defs, text, eof, reader.index, fsa.currentState);
      while true
        invariant reader.Valid() && reader.text == text
        invariant OnTrack(t, acc, defs, text, eof, emitted, start, roundStart, reader.index, fsa.currentState, visited, buffer, whole, Seal())
        decreases |text| - start, if roundStart == 1 then 0 else 1, |text| - reader.index, |AccRows(acc) - visited|
      {
        var cur := fsa.currentState;
        var c := reader.Head();
        TrackBounds(t, acc, defs, text, eof, emitted, start, roundStart, reader.index, cur, visited, buffer, whole);
        if c == EOF && cur in visited {
          TrackHangs(t, acc, defs, text, eof, emitted, start, roundStart, reader.index, cur, visited, buffer, whole);
          out := Hangs(emitted);
          break;
        }
        var accept := Step(c, eof);
        if accept.None? {
          TrackCrash(t, acc, defs, text, eof, emitted, start, roundStart, reader.index, cur, visited, buffer, whole);
          out := Crash(emitted);
          break;
        }
        if fsa.Stop() {
          var stopped;
          stopped, emitted := Emit(c, eof, text, whole, emitted, start, roundStart, visited, buffer, cur);
          if stopped.Some? {
            out := stopped.value;
            break;
          }
          buffer := [];
          start, roundStart, visited := reader.index, 1, {};
        } else {
          ghost var k, seen, held, next := reader.index, visited, buffer, fsa.currentState;
          if c == EOF {
            Fewer(acc, visited, cur);
            visited := visited + {cur};
          } else {
            buffer := buffer + [c];
          }
          var _ := reader.Peek();
          TrackMove(t, acc, defs, text, eof, emitted, start, roundStart, k, cur, seen, held, whole, next, reader.index, visited, buffer);
        }
      }
      StreamIs(whole, t, acc, defs, text, k0, c0, eof, Seal());
    }

    /**
     * The built DFA picks the first rule: after any word it is in a state
     * whose accept entry is the index of the first rule whose expression
     * matches the word, -1 when none does; and it is in the dead state
     * exactly when no state of the merged model is reachable.
     */
    lemma {:induction false} FirstRuleWins(w: Text)
      requires Valid()
      ensures var j := DfaRun(dfa.dstates, 1, w);
        && j <= |dfa.dstates|
        && Accepts(dfa.dstates)[j] == FirstMatch(rules, w, 0)
        && (j == 0 <==> Reachable(dfa.nfa, {|before|}, w) == {})
    {
      TokenOfWord(dfa.nfa, dfa.nfaInit, dfa.dstates, dfa.allSymbols, w);
      TokenIsFirstMatch(before, dfa.nfa, frags, rules, w);
    }

    /** The built DFA picks the first matching rule after every word. */
    lemma {:induction false} BuiltPicksFirst()
      requires Valid()
      ensures PicksFirst(dfa.dstates, rules)
    {
      forall w: Text ensures DfaRun(dfa.dstates, 1, w) <= |dfa.dstates| && Accepts(dfa.dstates)[DfaRun(dfa.dstates, 1, w)] == FirstMatch(rules, w, 0) {
        FirstRuleWins(w);
      }
    }

    /**
     * Once `init()` has returned, the machine's tables are those of a DFA
     * that picks the first matching rule, one column per symbol up to the
     * largest symbol of the rules.
     */
    ghost predicate Scans()
      reads this, dfa, fsa
    {
      && ready && dfa.allSymbols != {} && |dfa.dstates| >= 1 && PicksFirst(dfa.dstates, rules)
      && TablesOf(dfa.dstates, MaxOf(dfa.allSymbols) + 1, fsa.transitionTable, fsa.acceptTable)
    }

    lemma {:induction false} ReadyScans()
      requires Valid() && ready
      ensures Scans()
    {
      BuiltPicksFirst();
    }

    /**
     * `token_stream()` from position `k` in the reset state, with the end
     * of the input stopping the machine, is maximal munch by the first
     * matching rule, as `FirstMunch` says.
     */
    lemma {:induction false} StreamMeaning(text: Text, k: nat)
      requires Scans() && k <= |text|
      ensures var width, o := MaxOf(dfa.allSymbols) + 1, Scan(fsa.transitionTable, fsa.acceptTable, rules, text, k, 1, Dead);
        && DeadOutcome(dfa.dstates, width, rules, text, k, o)
        && Covers(o, text, k)
        && RuleTokens(rules, o.tokens)
        && (o.Error? ==> FirstMatch(rules, o.value, 0) == -1)
        && (o.Repeats? ==> o.token.tokenIndex == FirstMatch(rules, [], 0) != -1)
        && (o.Crash? ==> BadAhead(dfa.dstates, width, text, k + |Values(o.tokens)|))
    {
      FirstMunch(dfa.dstates, MaxOf(dfa.allSymbols) + 1, rules, text, k);
    }
  }

  /** After every word, the DFA `ds` is in a state whose accept entry is the first rule of `defs` matching the word, -1 when none does. */
  ghost predicate PicksFirst(ds: seq<DState>, defs: seq<Definition>) {
    forall w: Text {:trigger FirstMatch(defs, w, 0)} :: DfaRun(ds, 1, w) <= |ds| && Accepts(ds)[DfaRun(ds, 1, w)] == FirstMatch(defs, w, 0)
  }

  /**
   * Over the tables of a DFA that picks the first matching rule, with the
   * end of the input stopping the machine, the stream from `k` is maximal
   * munch by the first matching rule: it never hangs (`DeadOutcome`); its
   * tokens cover the text; each token is the longest live stretch from
   * where the previous one ended, with the index and name of the first rule
   * matching its value; an error token is a longest live stretch no rule
   * matches; a token repeats for ever only when it is empty and some rule
   * matches the empty word; and a lookup raises only on a character past
   * the table's width, never for want of a rule.
   */
  lemma {:induction false} FirstMunch(ds: seq<DState>, width: nat, defs: seq<Definition>, text: Text, k: nat)
    requires EdgesFit(ds, width) && width > 0 && |ds| >= 1 && k <= |text| && PicksFirst(ds, defs)
    ensures var o := Scan(Table(ds, width), Accepts(ds), defs, text, k, 1, Dead);
      && DeadOutcome(ds, width, defs, text, k, o)
      && Covers(o, text, k)
      && RuleTokens(defs, o.tokens)
      && (o.Error? ==> FirstMatch(defs, o.value, 0) == -1)
      && (o.Repeats? ==> o.token.tokenIndex == FirstMatch(defs, [], 0) != -1)
      && (o.Crash? ==> BadAhead(ds, width, text, k + |Values(o.tokens)|))
  {
    var o := Scan(Table(ds, width), Accepts(ds), defs, text, k, 1, Dead);
    ScanDead(ds, width, defs, text, k);
    ScanCovers(Table(ds, width), Accepts(ds), defs, text, k, 1, Dead);
    TokensByRules(ds, width, defs, o.tokens, text, k);
    var p := k + |Values(o.tokens)|;
    FirstEnd(ds, width, defs, text, p, o);
    assert o.Crash? ==> BadAhead(ds, width, text, p);
  }

  /** How the stream ends, over the tables of a DFA that picks the first matching rule. */
  lemma {:induction false} FirstEnd(ds: seq<DState>, width: nat, defs: seq<Definition>, text: Text, p: nat, o: Outcome)
    requires PicksFirst(ds, defs) && DeadEnd(ds, width, defs, text, p, o)
    ensures o.Error? ==> FirstMatch(defs, o.value, 0) == -1
    ensures o.Repeats? ==> o.token.tokenIndex == FirstMatch(defs, [], 0) != -1
    ensures o.Crash? ==> BadAhead(ds, width, text, p)
  {
    if o.Error? {
      assert FirstMatch(defs, o.value, 0) == Accepts(ds)[DfaRun(ds, 1, o.value)];
    } else if o.Repeats? {
      assert FirstMatch(defs, [], 0) == Accepts(ds)[DfaRun(ds, 1, [])];
    } else if o.Crash? {
      if UnnamedAhead(ds, width, defs, text, p) {
        var n :| Unnamed(ds, width, defs, text, p, n);
        FirstMatchMeaning(defs, text[p..p + n], 0);
      }
    }
  }

  /** Tokens cut by the tables of a DFA that picks the first matching rule carry that rule's index and name. */
  lemma {:induction false} TokensByRules(ds: seq<DState>, width: nat, defs: seq<Definition>, ts: seq<Token>, text: Text, p: nat)
    requires PicksFirst(ds, defs) && Tokenized(ds, width, defs, ts, text, p)
    ensures RuleTokens(defs, ts)
    decreases |ts|
  {
    if ts != [] {
      assert FirstMatch(defs, ts[0].value, 0) == Accepts(ds)[DfaRun(ds, 1, ts[0].value)];
      FirstMatchMeaning(defs, ts[0].value, 0);
      TokensByRules(ds, width, defs, ts[1..], text, p + |ts[0].value|);
      forall i | 1 <= i < |ts| ensures RuleToken(defs, ts[i]) {
        assert ts[i] == ts[1..][i - 1];
      }
    }
  }

  /** `tok` carries the first rule matching its value: that rule's index and name. */
  ghost predicate RuleToken(rules: seq<Definition>, tok: Token) {
    0 <= tok.tokenIndex < |rules| && tok.tokenIndex == FirstMatch(rules, tok.value, 0)
    && tok.name == rules[tok.tokenIndex].name
  }

  ghost predicate RuleTokens(rules: seq<Definition>, ts: seq<Token>) {
    forall i :: 0 <= i < |ts| ==> RuleToken(rules, ts[i])
  }

  /** The merged model lists every state of the arena, so distinct states carry distinct state indices. */
  lemma {:induction false} MergedIndices(g0: Graph, g: Graph, fs: seq<Frag>, defs: seq<Definition>, states: seq<nat>)
    requires RulesOk(g0, fs, defs) && |g| == |g0| + 2
    requires Indexed(g, states) && states == [|g0|, |g0| + 1] + Flat(fs)
    ensures DistinctIndices(g)
  {
    forall x | 0 <= x < |g| ensures x in states {
      if x < |g0| {
        RulesCover(g0, fs, defs, x);
        var j :| 0 <= j < |fs| && x in fs[j].states;
        FlatHas(fs, j, x);
      }
    }
    forall x, y | 0 <= x < |g| && 0 <= y < |g| && g[x].stateIndex == g[y].stateIndex ensures x == y {
      IndicesDistinct(g, states, x, y);
    }
  }
}
