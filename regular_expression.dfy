/**
 * The regular-expression algebra of the lexer generator: an immutable tree of
 * nodes, the combinators that build it, the character lists the batch nodes
 * enumerate, the diagnostic rendering, and a reference matcher (`Matches`)
 * that fixes the language of every node independently of any automaton.
 */
module RegularExpression {
  import opened Wrappers

  /** A Unicode code point: the value `ord` gives for a one-character string. */
  type Code = nat

  /** A string, as the sequence of its code points. */
  type Text = seq<Code>

  /** The predicate class tries every code from 0 up to this one. */
  const PredicateAlphabetMax: Code := 65535

  /** The code point of the Greek small letter epsilon, the rendering of the empty node. */
  const EpsilonSign: Code := 0x3B5

  /** The code points of a Dafny string literal. */
  function Str(s: string): (t: Text)
    ensures |t| == |s|
  {
    seq(|s|, i requires 0 <= i < |s| => s[i] as int)
  }

  /** One node kind per expression class; `Function` carries the user's predicate. */
  datatype Regex =
    | Base(ch: Code)                  // BaseRegularExpression: one character
    | Empty                           // EmptyRegularExpression: the empty word
    | BatchOr(chars: seq<Code>)       // BatchOrRegularExpression: one of the listed characters
    | Range(lo: Code, hi: Code)       // RangeRegularExpression: one character in lo..hi
    | Literal(text: Text)             // LiteralRegularExpression: the whole string
    | Or(left: Regex, right: Regex)   // OrRegularExpressionOp
    | Concat(left: Regex, right: Regex) // ConcatRegularExpressionOp
    | Star(inner: Regex)              // StarRegularExpressionOp
    | Function(pred: Code -> bool)    // FunctionRegularExpression: one character the predicate accepts

  /**
   * The reference matcher: `Matches(r, w)` holds iff the word `w` is in the
   * language of `r`.  A star splits off a non-empty first repetition.
   */
  ghost predicate Matches(r: Regex, w: Text)
    decreases r, |w|
  {
    match r
    case Base(c) => w == [c]
    case Empty => w == []
    case BatchOr(cs) => |w| == 1 && w[0] in cs
    case Range(lo, hi) => |w| == 1 && lo <= w[0] <= hi
    case Literal(s) => w == s
    case Or(a, b) => Matches(a, w) || Matches(b, w)
    case Concat(a, b) => exists k :: 0 <= k <= |w| && Matches(a, w[..k]) && Matches(b, w[k..])
    case Star(e) =>
      w == [] || exists k :: 0 < k <= |w| && Matches(e, w[..k]) && Matches(Star(e), w[k..])
    case Function(p) => |w| == 1 && w[0] <= PredicateAlphabetMax && p(w[0])
  }

  // ---------------------------------------------------------------------------
  // Combinators (RegularExpression.concat, union, +, radd, |, any_times, at_least_once)
  // ---------------------------------------------------------------------------

  /** `a.concat(b)` and `a + b`: the language of `a` followed by the language of `b`. */
  function ConcatWith(a: Regex, b: Regex): (r: Regex)
    ensures r.Concat? && r.left == a && r.right == b
    ensures forall u, v :: Matches(a, u) && Matches(b, v) ==> Matches(r, u + v)
  {
    var r := Concat(a, b);
    assert forall u, v :: Matches(a, u) && Matches(b, v) ==> Matches(r, u + v) by {
      forall u, v | Matches(a, u) && Matches(b, v) ensures Matches(r, u + v) {
        assert (u + v)[..|u|] == u && (u + v)[|u|..] == v;
      }
    }
    r
  }

  /** `b.__radd__(a)`: the other operand `a` goes on the left. */
  function RightAdd(self: Regex, other: Regex): (r: Regex)
    ensures r.Concat? && r.left == other && r.right == self
    ensures forall u, v :: Matches(other, u) && Matches(self, v) ==> Matches(r, u + v)
  {
    ConcatWith(other, self)
  }

  /** `a.union(b)` and `a | b`: the union of the two languages. */
  function Union(a: Regex, b: Regex): (r: Regex)
    ensures r.Or? && r.left == a && r.right == b
    ensures forall w :: Matches(r, w) <==> Matches(a, w) || Matches(b, w)
  {
    Or(a, b)
  }

  /** `e.any_times()`: the Kleene star; it contains the empty word and absorbs repetitions. */
  function AnyTimes(e: Regex): (r: Regex)
    ensures r.Star? && r.inner == e
    ensures Matches(r, [])
    ensures forall u, v :: u != [] && Matches(e, u) && Matches(r, v) ==> Matches(r, u + v)
  {
    var r := Star(e);
    assert forall u, v :: u != [] && Matches(e, u) && Matches(r, v) ==> Matches(r, u + v) by {
      forall u, v | u != [] && Matches(e, u) && Matches(r, v) ensures Matches(r, u + v) {
        assert (u + v)[..|u|] == u && (u + v)[|u|..] == v;
      }
    }
    r
  }

  /** `e.at_least_once()`: the node `e + e.any_times()`, which reuses `e` itself twice. */
  function AtLeastOnce(e: Regex): (r: Regex)
    ensures r.Concat? && r.left == e && r.right.Star? && r.right.inner == e
  {
    ConcatWith(e, AnyTimes(e))
  }

  /**
   * The language of `e.at_least_once()`: the words of `e*`, without the empty
   * word unless `e` itself matches it.
   */
  lemma {:induction false} AtLeastOnceLanguage(e: Regex, w: Text)
    ensures Matches(AtLeastOnce(e), w) <==> Matches(Star(e), w) && (w != [] || Matches(e, []))
  {
    if Matches(AtLeastOnce(e), w) {
      var k :| 0 <= k <= |w| && Matches(e, w[..k]) && Matches(Star(e), w[k..]);
      if k == 0 {
        assert w[k..] == w;
      } else {
        assert Matches(Star(e), w);
      }
    }
    if Matches(Star(e), w) && (w != [] || Matches(e, [])) {
      if w == [] {
        assert w[..0] == [] && w[0..] == [];
      } else {
        var k :| 0 < k <= |w| && Matches(e, w[..k]) && Matches(Star(e), w[k..]);
        assert Matches(Concat(e, Star(e)), w);
      }
    }
  }

  // ---------------------------------------------------------------------------
  // The characters a batch node enumerates (get_match_chars)
  // ---------------------------------------------------------------------------

  /** Strictly increasing codes. */
  ghost predicate Ascending(cs: seq<Code>) {
    forall i, j :: 0 <= i < j < |cs| ==> cs[i] < cs[j]
  }

  /** The list `[chr(i) for i in range(ord(lo), ord(hi) + 1)]` of a range node. */
  function RangeCodes(lo: Code, hi: Code): (cs: seq<Code>)
    ensures forall c :: c in cs <==> lo <= c <= hi
    ensures Ascending(cs)
    ensures hi < lo ==> cs == []
  {
    if hi < lo then []
    else
      var cs := seq(hi - lo + 1, i requires 0 <= i <= hi - lo => lo + i);
      assert forall c: Code | lo <= c <= hi :: c in cs by {
        forall c: Code | lo <= c <= hi ensures c in cs {
          assert cs[c - lo] == c;
        }
      }
      cs
  }

  /** The codes below `n` that `p` accepts, in ascending order. */
  function AcceptedBelow(p: Code -> bool, n: nat): (cs: seq<Code>)
    ensures forall c: Code :: c in cs <==> c < n && p(c)
    ensures Ascending(cs)
  {
    if n == 0 then []
    else
      var prefix := AcceptedBelow(p, n - 1);
      var cs := prefix + (if p(n - 1) then [n - 1] else []);
      assert forall i :: 0 <= i < |prefix| ==> prefix[i] < n - 1 by {
        forall i | 0 <= i < |prefix| ensures prefix[i] < n - 1 {
          assert prefix[i] in prefix;
        }
      }
      cs
  }

  /** The filtered generator of `cal_by(p)`: the codes 0..65535 that `p` accepts, ascending. */
  function PredicateCodes(p: Code -> bool): (cs: seq<Code>)
    ensures forall c: Code :: c in cs <==> c <= PredicateAlphabetMax && p(c)
    ensures Ascending(cs)
  {
    AcceptedBelow(p, PredicateAlphabetMax + 1)
  }

  /** The node kinds the converter turns into a batch or a chain of characters. */
  predicate IsBatch(e: Regex) {
    e.BatchOr? || e.Range? || e.Literal? || e.Function?
  }

  /**
   * `get_match_chars()` of a batch node: the listed characters, the range's
   * characters, the literal's characters in string order, or the characters
   * the predicate accepts.  Each one-character node matches exactly the
   * characters listed here.
   */
  function MatchChars(e: Regex): (cs: seq<Code>)
    requires IsBatch(e)
    ensures !e.Literal? ==> forall c :: c in cs <==> Matches(e, [c])
    ensures e.Literal? ==> Matches(e, cs)
  {
    match e
    case BatchOr(cs) => cs
    case Range(lo, hi) => RangeCodes(lo, hi)
    case Literal(s) => s
    case Function(p) => PredicateCodes(p)
  }

  /** `get_match_char()` of a character node: the character, or `''` for the empty node. */
  function MatchChar(e: Regex): (s: Text)
    requires e.Base? || e.Empty?
    ensures |s| <= 1
    ensures s == [] <==> e.Empty?
    ensures Matches(e, s)
  {
    if e.Empty? then [] else [e.ch]
  }

  /** `get_match_char_index()`: `ord` of the character, `None` for the empty node. */
  function MatchCharIndex(e: Regex): (r: Option<Code>)
    requires e.Base? || e.Empty?
    ensures r.None? <==> e.Empty?
    ensures r.Some? ==> Matches(e, [r.value])
  {
    if e.Empty? then None else Some(e.ch)
  }

  /** The inner expression of a node: the operand of a star, the node itself otherwise. */
  function InnerExpression(e: Regex): (r: Regex)
    ensures e.Star? ==> e == Star(r)
    ensures e.Star? ==> forall w :: Matches(e, w) <==> w == [] || (w != [] && Matches(Concat(r, e), w))
    ensures !e.Star? ==> r == e
  {
    if e.Star? then
      assert forall w :: Matches(e, w) <==> w == [] || (w != [] && Matches(Concat(e.inner, e), w)) by {
        forall w ensures Matches(e, w) <==> w == [] || (w != [] && Matches(Concat(e.inner, e), w)) {
          if w != [] && Matches(Concat(e.inner, e), w) {
            var k :| 0 <= k <= |w| && Matches(e.inner, w[..k]) && Matches(e, w[k..]);
            if k == 0 { assert w[k..] == w; }
          }
        }
      }
      e.inner
    else e
  }

  // ---------------------------------------------------------------------------
  // Rendering (get_expression_string)
  // ---------------------------------------------------------------------------

  /** `'|'.join(chars)` for one-character strings. */
  function JoinBars(cs: seq<Code>): (t: Text)
    ensures |t| == if cs == [] then 0 else 2 * |cs| - 1
    ensures forall i :: 0 <= i < |cs| ==> t[2 * i] == cs[i]
    ensures forall i :: 0 <= i < |cs| - 1 ==> t[2 * i + 1] == '|' as int
  {
    if |cs| <= 1 then cs else JoinBars(cs[..|cs| - 1]) + [('|' as int), cs[|cs| - 1]]
  }

  /** Text that opens with `(` and closes with `)`. */
  predicate Wrapped(t: Text) {
    |t| >= 2 && t[0] == '(' as int && t[|t| - 1] == ')' as int
  }

  /**
   * `get_expression_string()`: the diagnostic text of a node.  Each union,
   * concatenation and batch of listed characters is wrapped in parentheses,
   * a star's operand too, before its `*`; a character is itself, the empty
   * node is epsilon, a literal is its own text, a range shows its two ends
   * and a predicate node is the fixed text "by function".
   */
  function ExpressionString(e: Regex): (r: Text)
    ensures e.Literal? ==> r == e.text
    ensures e.Or? || e.Concat? || e.BatchOr? ==> Wrapped(r)
    ensures e.Concat? ==> |r| >= 4 && r[1] == '(' as int && r[|r| - 2] == ')' as int
    ensures e.Star? ==> |r| >= 3 && Wrapped(r[..|r| - 1]) && r[|r| - 1] == '*' as int
    ensures e.Range? ==> |r| == 6 && r[0] == '[' as int && r[1] == e.lo && r[4] == e.hi && r[5] == ']' as int
    ensures e.Base? ==> r == [e.ch]
    ensures e.Empty? ==> r == [EpsilonSign]
    ensures e.Function? ==> r == Str("by function")
  {
    match e
    case Base(c) => [c]
    case Empty => [EpsilonSign]
    case BatchOr(cs) => Str("(") + JoinBars(cs) + Str(")")
    case Range(lo, hi) => Str("[") + [lo] + Str(", ") + [hi] + Str("]")
    case Literal(s) => s
    case Or(a, b) => Str("(") + ExpressionString(a) + Str("|") + ExpressionString(b) + Str(")")
    case Concat(a, b) => Str("((") + ExpressionString(a) + Str(")(") + ExpressionString(b) + Str("))")
    case Star(x) => Str("(") + ExpressionString(x) + Str(")*")
    case Function(_) => Str("by function")
  }

  /** `s` is a node of the tree `e`, `e` itself included. */
  ghost predicate SubExpression(s: Regex, e: Regex) {
    s == e ||
    match e
    case Or(a, b) => SubExpression(s, a) || SubExpression(s, b)
    case Concat(a, b) => SubExpression(s, a) || SubExpression(s, b)
    case Star(x) => SubExpression(s, x)
    case _ => false
  }

  /** `t` occurs in `u` from position `i` on. */
  predicate InfixAt(t: Text, u: Text, i: int) {
    0 <= i <= |u| - |t| && u[i..i + |t|] == t
  }

  /** `t` occurs in `u` as a contiguous stretch. */
  ghost predicate Infix(t: Text, u: Text) {
    exists i :: InfixAt(t, u, i)
  }

  /** An infix of an infix is an infix. */
  lemma {:induction false} InfixTrans(t: Text, u: Text, v: Text)
    requires Infix(t, u) && Infix(u, v)
    ensures Infix(t, v)
  {
    var i :| InfixAt(t, u, i);
    var j :| InfixAt(u, v, j);
    forall k | 0 <= k < |t| ensures v[j + i..j + i + |t|][k] == t[k] {
      assert v[j + i + k] == v[j..j + |u|][i + k];
    }
    assert InfixAt(t, v, j + i);
  }

  /** The middle of `x + t + y` is `t`. */
  lemma {:induction false} InfixOf(x: Text, t: Text, y: Text)
    ensures Infix(t, x + t + y)
  {
    assert (x + t + y)[|x|..|x| + |t|] == t;
    assert InfixAt(t, x + t + y, |x|);
  }

  /** The operand `x` of a node rendered as `pre + ExpressionString(x) + post` shows every node of `x`. */
  lemma {:induction false} ShownThrough(s: Regex, x: Regex, pre: Text, post: Text, r: Text)
    requires Infix(ExpressionString(s), ExpressionString(x)) && r == pre + ExpressionString(x) + post
    ensures Infix(ExpressionString(s), r)
  {
    InfixOf(pre, ExpressionString(x), post);
    InfixTrans(ExpressionString(s), ExpressionString(x), r);
  }

  /** The rendering of a tree shows the rendering of every node in it. */
  lemma {:induction false} RenderingShowsNodes(s: Regex, e: Regex)
    requires SubExpression(s, e)
    ensures Infix(ExpressionString(s), ExpressionString(e))
  {
    if s == e {
      InfixSelf(ExpressionString(e));
    } else if e.Or? {
      var x := if SubExpression(s, e.left) then e.left else e.right;
      RenderingShowsNodes(s, x);
      ShownInOr(s, x, e.left, e.right);
    } else if e.Concat? {
      var x := if SubExpression(s, e.left) then e.left else e.right;
      RenderingShowsNodes(s, x);
      ShownInConcat(s, x, e.left, e.right);
    } else if e.Star? {
      RenderingShowsNodes(s, e.inner);
      ShownInStar(s, e.inner);
    }
  }

  /** Every text is an infix of itself. */
  lemma {:induction false} InfixSelf(t: Text)
    ensures Infix(t, t)
  {
    assert t[0..|t|] == t;
    assert InfixAt(t, t, 0);
  }

  lemma {:induction false} ShownInStar(s: Regex, x: Regex)
    requires Infix(ExpressionString(s), ExpressionString(x))
    ensures Infix(ExpressionString(s), ExpressionString(Star(x)))
  {
    ShownThrough(s, x, Str("("), Str(")*"), ExpressionString(Star(x)));
  }

  lemma {:induction false} ShownInOr(s: Regex, x: Regex, a: Regex, b: Regex)
    requires Infix(ExpressionString(s), ExpressionString(x)) && (x == a || x == b)
    ensures Infix(ExpressionString(s), ExpressionString(Or(a, b)))
  {
    var sa, sb := ExpressionString(a), ExpressionString(b);
    var p, q, r := Str("("), Str("|"), Str(")");
    assert ExpressionString(Or(a, b)) == p + sa + q + sb + r;
    Regroup(p, sa, q, sb, r);
    if x == a {
      ShownThrough(s, a, p, q + sb + r, ExpressionString(Or(a, b)));
    } else {
      ShownThrough(s, b, p + sa + q, r, ExpressionString(Or(a, b)));
    }
  }

  lemma {:induction false} ShownInConcat(s: Regex, x: Regex, a: Regex, b: Regex)
    requires Infix(ExpressionString(s), ExpressionString(x)) && (x == a || x == b)
    ensures Infix(ExpressionString(s), ExpressionString(Concat(a, b)))
  {
    var sa, sb := ExpressionString(a), ExpressionString(b);
    var p, q, r := Str("(("), Str(")("), Str("))");
    assert ExpressionString(Concat(a, b)) == p + sa + q + sb + r;
    Regroup(p, sa, q, sb, r);
    if x == a {
      ShownThrough(s, a, p, q + sb + r, ExpressionString(Concat(a, b)));
    } else {
      ShownThrough(s, b, p + sa + q, r, ExpressionString(Concat(a, b)));
    }
  }

  /** Five texts in a row, grouped around the second and around the fourth. */
  lemma {:induction false} Regroup(p: Text, u: Text, q: Text, v: Text, r: Text)
    ensures p + u + q + v + r == p + u + (q + v + r)
    ensures p + u + q + v + r == (p + u + q) + v + r
  {
  }

  // ---------------------------------------------------------------------------
  // The `RE` factory
  // ---------------------------------------------------------------------------

  /** `RE.chars(*cs)`: exactly the listed characters. */
  function Chars(cs: seq<Code>): (r: Regex)
    ensures forall w :: Matches(r, w) <==> |w| == 1 && w[0] in cs
  {
    BatchOr(cs)
  }

  /** `RE.range(lo, hi)`: exactly the characters with codes lo..hi; nothing when lo > hi. */
  function RangeOf(lo: Code, hi: Code): (r: Regex)
    ensures forall w :: Matches(r, w) <==> |w| == 1 && lo <= w[0] <= hi
    ensures IsBatch(r) && MatchChars(r) == RangeCodes(lo, hi)
  {
    Range(lo, hi)
  }

  /** `RE.cal_by(p)`: exactly the characters in 0..65535 that `p` accepts. */
  function CalBy(p: Code -> bool): (r: Regex)
    ensures forall w :: Matches(r, w) <==> |w| == 1 && w[0] <= PredicateAlphabetMax && p(w[0])
    ensures IsBatch(r) && MatchChars(r) == PredicateCodes(p)
  {
    Function(p)
  }

  /** `RE.literal(s)`: exactly the string `s`. */
  function LiteralOf(s: Text): (r: Regex)
    ensures forall w :: Matches(r, w) <==> w == s
  {
    Literal(s)
  }
}
