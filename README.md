# iparser's lexer generator, modelled and proved in Dafny

This project models the lexical core of iparser, which goes from regular
expressions to a running scanner:

- `RE` builds an expression tree (`regular_expression.py`).
- `NFAModelConverter` turns each node into a Thompson NFA fragment
  (`nfa_model_converter.py`). The fragment lives in a heap of `NFAState`
  objects (`nfa_model.py`).
- `ReTokenDefinitions.define` registers each token rule. It tags the rule's
  tail state with the rule's position (`token.py`).
- `Scanner.init` merges every rule under one new init state. `DFAModel` then
  runs the subset construction and lays the result out as a dense transition
  table plus an accept table (`dfa_model.py`).
- `FiniteStateMachine` walks those tables (`fsa.py`). `Scanner.token_stream`
  uses it to cut the text of a `StringReader` into tokens by maximal munch
  (`scanner.py`).

How the Dafny is laid out:

- **Expression trees.** The tree is a datatype. `Matches` is a reference
  matcher that gives every node a language without any automaton.
- **NFA states.** All NFA states live in one `Arena` class, a sequence of
  state values addressed by position. The position stands for object
  identity. `stateIndex` is the separate number that `add_state` rewrites.
- **Stateful classes.** `NFAModel`, `DFAModel`, `ReTokenDefinitions`,
  `FiniteStateMachine`, `StringReader` and `Scanner` are classes whose methods
  update their fields as the program's objects do.
- **Loops.** Recursive helpers and loops become methods with loop invariants:
  the closure helper, the worklist of `_build_model`, and the depth-first
  table fill.
- **The token stream.** `token_stream` is a method. Its result is the outcome
  of `Scan`, a function of the tables, the rules and the text. The lemmas
  about `Scan` carry the scanner's promises:
  - the tokens concatenate to the text;
  - each token is the longest stretch that keeps the DFA alive, with no
    backtracking;
  - the token index is that of the first rule whose expression matches the
    value;
  - an error is raised exactly when the accept entry of the last live state
    is -1;
  - an empty accepted token repeats for ever.

The proofs chain the stages together:

- Each conversion recognizes exactly the words of its expression (`Converted`).
- The merge keeps every rule's language.
- The DFA run tracks the set of NFA states reachable by walks (`RunIsReach`).
- The accept entry after a word is the first matching rule (`FirstRuleWins`).
- Over such tables the stream is maximal munch by the first matching rule
  (`FirstMunch`).

`FiniteStateMachine.stop()` is the predicate `Fsa.FiniteStateMachine.Stop`.
`RE.char(c)` and `RE.EMPTY` are the constructors `Base(c)` and `Empty`
themselves.

## Model

| member | source | states |
|---|---|---|
| RegularExpression.ConcatWith | iparser/lexical/regular_expression.py:12-19 | `a.concat(b)` / `a + b` is a concatenation node; every word of `a` followed by every word of `b` is matched |
| RegularExpression.RightAdd | iparser/lexical/regular_expression.py:21-22 | `__radd__` puts the other operand on the left: its words come first |
| RegularExpression.Union | iparser/lexical/regular_expression.py:15-16 | `a.union(b)` / `a \| b` matches a word iff `a` or `b` does |
| RegularExpression.AnyTimes | iparser/lexical/regular_expression.py:27-31 | `any_times()` matches the empty word and absorbs any non-empty word of its operand in front |
| RegularExpression.AtLeastOnceLanguage | iparser/lexical/regular_expression.py:33-34 | `at_least_once()` matches exactly the words of `e*`, the empty word only when `e` matches it |
| RegularExpression.RangeCodes | iparser/lexical/regular_expression.py:121-125 | the range list holds exactly the codes `lo..hi`, ascending, none when `hi < lo` |
| RegularExpression.PredicateCodes | iparser/lexical/regular_expression.py:153-159 | the predicate node lists exactly the codes 0..65535 the predicate accepts, ascending |
| RegularExpression.MatchChars | iparser/lexical/regular_expression.py:102-138 | `get_match_chars()`: for a one-character batch node, a code is listed iff the node matches it alone; a literal matches its list |
| RegularExpression.MatchChar | iparser/lexical/regular_expression.py:42-57 | `get_match_char()` is at most one character, empty exactly for the empty node, and matched by the node |
| RegularExpression.MatchCharIndex | iparser/lexical/regular_expression.py:45-60 | `get_match_char_index()` is `None` exactly for the empty node, otherwise a code the node matches |
| RegularExpression.InnerExpression | iparser/lexical/regular_expression.py:140-145 | (with the base method at regular_expression.py line 7, which returns the expression itself) a star's inner expression is exactly its operand (`e == Star(r)`), so it satisfies `x* = ε \| x x*`; any other node is its own inner expression |
| RegularExpression.ExpressionString | iparser/lexical/regular_expression.py:49-165 | (the `get_expression_string` overrides at lines 49-50, 62-63, 86-87, 96-97, 118-119, 127-128, 137-138, 147-148 and 164-165; every node class overrides the base method at lines 9-10) unions, concatenations and `BatchOr` nodes render inside parentheses; a concatenation wraps each operand again; a star renders its operand in parentheses and then `*`; a range shows its two ends in brackets; a literal renders as its own text, a character as itself, the empty node as epsilon, a predicate node as the fixed text `by function` |
| RegularExpression.RenderingShowsNodes | iparser/lexical/regular_expression.py:86-148 | (the union, concatenation and star renderings at lines 86-87, 96-97 and 147-148) the rendering of a tree contains, as a contiguous stretch, the rendering of every node in it |
| RegularExpression.Chars | iparser/lexical/regular_expression.py:176-177 | `RE.chars(*cs)` matches exactly one listed character |
| RegularExpression.RangeOf | iparser/lexical/regular_expression.py:180-181 | `RE.range(lo, hi)` matches exactly one character in `lo..hi` and enumerates the range list |
| RegularExpression.CalBy | iparser/lexical/regular_expression.py:187-189 | `RE.cal_by(p)` matches exactly one character in 0..65535 that `p` accepts, and enumerates those characters |
| RegularExpression.LiteralOf | iparser/lexical/regular_expression.py:184-185 | `RE.literal(s)` matches exactly the string `s` |
| NfaModel.LookupOfTargets | iparser/lexical/nfa_model.py:21-23 | the lookup built by successive `add_edge` calls has a key exactly for the labels used, and under each the targets of that label in insertion order |
| NfaModel.NState.CanEpsilonMoveStates | iparser/lexical/nfa_model.py:17 | the epsilon targets are exactly the targets of the state's `None` edges |
| NfaModel.NState.Lookup | iparser/lexical/nfa_model.py:10 | `linked_state_lookup[a]` holds exactly the targets of the edges labelled `a` |
| NfaModel.NState.ValidInputs | iparser/lexical/nfa_model.py:12 | corrected `valid_inputs()`: a code is an input iff some edge of the state carries it (see Findings) |
| NfaModel.Arena.NewState | iparser/lexical/nfa_model.py:6-10 | `NFAState()` appends a non-accepting, unindexed state without edges; nothing else changes |
| NfaModel.Arena.AddEdge | iparser/lexical/nfa_model.py:21-23 | `add_edge` appends the edge and extends the lookup under its label; no other state and no index changes |
| NfaModel.Arena.MoveTo | iparser/lexical/nfa_model.py:25-26 | `move_to(symbol, state)` adds exactly the edge `(symbol, state)` |
| NfaModel.Arena.EpsilonMoveTo | iparser/lexical/nfa_model.py:28-29 | `epsilon_move_to(state)` adds the `None` edge, after which the state is among the epsilon targets |
| NfaModel.Arena.SetTokenIndex | iparser/lexical/nfa_model.py:34-36 | the `token_index` setter changes that one field of that one state |
| NfaModel.IndicesDistinct | iparser/lexical/nfa_model.py:38-42 | within an indexed model, equal `state_index` (what `__eq__`/`__hash__` compare) means the same state |
| NfaModel.NFAModel.constructor | iparser/lexical/nfa_model.py:60-65 | `NFAModel(init, tail)` lists init then tail, indexing them 0 and 1 |
| NfaModel.NFAModel.SetInit | iparser/lexical/nfa_model.py:71-74 | the `init_state` setter appends the state, indexes it by its position, then designates it |
| NfaModel.NFAModel.SetTail | iparser/lexical/nfa_model.py:79-82 | the `tail_state` setter appends the state, indexes it by its position, then designates it |
| NfaModel.NFAModel.AddStates | iparser/lexical/nfa_model.py:88-94 | `add_state(*ss)` appends `ss`; each gets the list length at its last occurrence as index; only those indices change; a model's indexing is kept |
| NfaModelConverter.CharToIndex | iparser/lexical/nfa_model_converter.py:9-10 | `_char_to_index` is `None` exactly for the empty string, else the character's code |
| NfaModelConverter.CharToIndexOfMatchChar | iparser/lexical/nfa_model_converter.py:15 | the base edge's label is the node's `get_match_char_index()` |
| NfaModelConverter.ConvertBase | iparser/lexical/nfa_model_converter.py:12-17 | a fresh two-state fragment whose single edge carries the node's label, recognizing exactly the node's words |
| NfaModelConverter.BaseFragment | iparser/lexical/nfa_model_converter.py:12-17 | the two-state fragment is a closed conversion of the character or empty node |
| NfaModelConverter.ConvertOr | iparser/lexical/nfa_model_converter.py:19-34 | the alternation fragment recognizes exactly `Matches(Or(a, b))`; older states untouched |
| NfaModelConverter.OrAcceptsAll | iparser/lexical/nfa_model_converter.py:19-34 | every word of either operand is spelled from the new init to the new tail |
| NfaModelConverter.OrAcceptsOnly | iparser/lexical/nfa_model_converter.py:19-34 | every walk from the new init to the new tail spells a word of one operand |
| NfaModelConverter.OrFragment | iparser/lexical/nfa_model_converter.py:19-34 | the alternation around two converted operands is a closed conversion of `Or(a, b)` |
| NfaModelConverter.ConvertConcat | iparser/lexical/nfa_model_converter.py:36-43 | the joined fragment recognizes exactly `Matches(Concat(a, b))`, left operand converted first |
| NfaModelConverter.JoinConcat | iparser/lexical/nfa_model_converter.py:39-43 | joining two converted operands by one epsilon edge converts their concatenation |
| NfaModelConverter.ConcatAcceptsAll | iparser/lexical/nfa_model_converter.py:36-43 | a left word followed by a right word is spelled from the left init to the right tail |
| NfaModelConverter.ConcatAcceptsOnly | iparser/lexical/nfa_model_converter.py:36-43 | every such walk crosses the joining edge, splitting its word into a left and a right word |
| NfaModelConverter.ConcatFragment | iparser/lexical/nfa_model_converter.py:36-43 | the joined operands are a closed conversion of `Concat(a, b)` |
| NfaModelConverter.ConvertStar | iparser/lexical/nfa_model_converter.py:45-55 | the star fragment recognizes exactly `Matches(Star(e))` |
| NfaModelConverter.StarReach | iparser/lexical/nfa_model_converter.py:45-55 | every word of `e*` is spelled around the star fragment |
| NfaModelConverter.StarWalks | iparser/lexical/nfa_model_converter.py:45-55 | every walk from the star's init or tail to its tail spells a word of `e*` |
| NfaModelConverter.StarFragment | iparser/lexical/nfa_model_converter.py:45-55 | the star around a converted operand is a closed conversion of `Star(e)` |
| NfaModelConverter.ConvertBatchOr | iparser/lexical/nfa_model_converter.py:57-66 | the batch fragment has one init edge per listed character and recognizes exactly one listed character |
| NfaModelConverter.BatchLink | iparser/lexical/nfa_model_converter.py:61-65 | one loop pass adds the next character's branch and keeps the loop's progress invariant |
| NfaModelConverter.AddBranch | iparser/lexical/nfa_model_converter.py:62-65 | a new middle state, its epsilon edge to the tail, the labelled init edge to it, and the state added to the model |
| NfaModelConverter.BatchLanguage | iparser/lexical/nfa_model_converter.py:57-66 | init–char–middle–epsilon–tail branches recognize exactly one listed character |
| NfaModelConverter.BatchFragment | iparser/lexical/nfa_model_converter.py:57-66 | the batch fragment is a closed conversion of `BatchOr(chars)` |
| NfaModelConverter.ConvertLiteral | iparser/lexical/nfa_model_converter.py:68-79 | the chain fragment, `|text| + 2` states, recognizes exactly the literal's text |
| NfaModelConverter.LiteralLink | iparser/lexical/nfa_model_converter.py:73-77 | one loop pass extends the chain by one character and keeps the loop's progress invariant |
| NfaModelConverter.AddLink | iparser/lexical/nfa_model_converter.py:74-77 | a new state, the labelled edge to it from the chain's last state, and the state added to the model |
| NfaModelConverter.ChainLanguage | iparser/lexical/nfa_model_converter.py:68-79 | from the `j`-th chain state the end is reached on the rest of the literal, and only on it |
| NfaModelConverter.LiteralFragment | iparser/lexical/nfa_model_converter.py:68-79 | the chain is a closed conversion of `Literal(text)` |
| NfaModelConverter.SameConverted | iparser/lexical/regular_expression.py:161-162 | a conversion of one node is a conversion of any node with the same words, so range and predicate nodes are converted as batches |
| NfaModelConverter.Convert | iparser/lexical/regular_expression.py:52-162 | `to_nfa_model` on any node: a fresh closed fragment, older states untouched, recognizing exactly `Matches(r)` |
| DfaModel.ClosureClosed | iparser/lexical/dfa_model.py:87-103 | the closure has no epsilon edge leaving it |
| DfaModel.ClosureLeast | iparser/lexical/dfa_model.py:87-103 | the closure lies inside every epsilon-closed superset: it is the least one |
| DfaModel.ClosureUnion | iparser/lexical/dfa_model.py:97-102 | the closure of a union is the union of closures, which makes the per-state cache sound |
| DfaModel.ClosureIdempotent | iparser/lexical/dfa_model.py:87-103 | closing twice adds nothing |
| DfaModel.DFAModel.constructor | iparser/lexical/dfa_model.py:61-68 | nothing built, nothing cached, empty tables |
| DfaModel.DFAModel.ClosureHelper | iparser/lexical/dfa_model.py:90-95 | the recursive helper adds `state` and stays within the closure, leaving what it added epsilon-closed |
| DfaModel.DFAModel.GetClosure | iparser/lexical/dfa_model.py:87-103 | `_get_closure` returns exactly the epsilon closure and keeps the cache sound |
| DfaModel.DFAModel.CachedClosure | iparser/lexical/dfa_model.py:97-102 | one state's closure, from the cache or computed and cached, is its closure |
| DfaModel.DFAModel.MoveAndClosure | iparser/lexical/dfa_model.py:106-110 | `_move_and_closure(T, a)` is the closure of the move of `T` on `a` |
| DfaModel.MoveOnInputs | iparser/lexical/dfa_model.py:140-143 | a symbol that is not an input of `T` moves nowhere |
| DfaModel.MoveAdd | iparser/lexical/dfa_model.py:108-109 | the loop's `update` adds each state's targets on the symbol to the move |
| DfaModel.SignatureInjective | iparser/lexical/dfa_model.py:125-126 | with distinct state indices, equal signatures iff equal sets of NFA states |
| DfaModel.AcceptIndexMeaning | iparser/lexical/dfa_model.py:112-114 | `_get_accept_state`: -1 iff no member accepts, else the least token index of an accepting member |
| DfaModel.NewState | iparser/lexical/dfa_model.py:116-123 | `_create_dfa_state` makes a state numbered after those registered, with its NFA states, signature and accepting token, and no edges |
| DfaModel.DFAModel.CollectInputs | iparser/lexical/dfa_model.py:134-138 | the `valid_inputs` loop yields the input symbols of the DFA state's NFA states |
| DfaModel.DFAModel.TrySymbol | iparser/lexical/dfa_model.py:140-152 | one symbol: an empty move is skipped; otherwise an edge to the state registered under the move's signature, created and pushed when new |
| DfaModel.DFAModel.ProcessState | iparser/lexical/dfa_model.py:133-152 | one worklist pass: pop, collect the symbols, try each; the construction invariant is kept |
| DfaModel.DFAModel.BuildModel | iparser/lexical/dfa_model.py:128-152 | `_build_model` terminates with DFA state 1 holding the init's closure and the construction invariant for an empty worklist |
| DfaModel.BuiltOf | iparser/lexical/dfa_model.py:132 | once the worklist is empty, the DFA is complete: one edge per symbol whose move closes to something, to the state holding that closure |
| DfaModel.DistinctCount | iparser/lexical/dfa_model.py:146-152 | DFA states hold pairwise distinct sets of NFA states |
| DfaModel.ConfigsBounded | iparser/lexical/dfa_model.py:132-152 | every DFA state holds a subset of the NFA's states, which bounds the worklist |
| DfaModel.NextStep | iparser/lexical/dfa_model.py:140-152 | on one symbol a built DFA goes to the state holding the closure of the move, or dead iff that is empty |
| DfaModel.RunsAgree | iparser/lexical/dfa_model.py:140-152 | on any word, a built DFA goes to the state holding the NFA's subset run, or dead iff it is empty |
| DfaModel.FromStart | iparser/lexical/dfa_model.py:128-152 | from DFA state 1 the DFA tracks the NFA started in the closure of its init |
| DfaModel.DeadStays | iparser/lexical/dfa_model.py:156 | the dead state 0 leads only to itself |
| DfaModel.EdgeTargetOf | iparser/lexical/dfa_model.py:165-166 | with distinct edge symbols, the cell for `a` is the target of the edge labelled `a`, or 0 without one |
| DfaModel.RowCells | iparser/lexical/dfa_model.py:156-166 | each cell of a state's row is where its edges lead on that column |
| DfaModel.MaxOf | iparser/lexical/dfa_model.py:155 | `max(s)` is a member of `s` no member exceeds |
| DfaModel.TableMeaning | iparser/lexical/dfa_model.py:154-171 | every cell of the table is the DFA's `Next` state; accept entry 0 is -1, entry `i` is DFA state `i`'s token |
| DfaModel.FillTables | iparser/lexical/dfa_model.py:154-171 | the depth-first fill from state 1 leaves exactly the tables of the DFA |
| DfaModel.DfsStep | iparser/lexical/dfa_model.py:160-167 | one step of `helper` keeps the walk's invariant and decreases its measure |
| DfaModel.AllVisited | iparser/lexical/dfa_model.py:160-169 | the walk from state 1 visits every DFA state, each being entered from an earlier one |
| DfaModel.DFAModel.BuildTransitionTable | iparser/lexical/dfa_model.py:154-171 | `ok` iff some symbol was collected (`max` of an empty set raises); then the tables are those of the DFA, `max + 1` columns |
| DfaModel.DFAModel.Init | iparser/lexical/dfa_model.py:70-72 | `init()` builds the complete DFA of the NFA and, unless `max` raises, its tables |
| Runs.ClosureByWalks | iparser/lexical/dfa_model.py:87-103 | a state is in the closure iff a walk spelling nothing reaches it |
| Runs.StepByWalks | iparser/lexical/dfa_model.py:106-110 | walks from the closure's move on `a` continue exactly the walks from `S` spelling `a` first |
| Runs.RunIsReach | iparser/lexical/dfa_model.py:128-152 | the subset run the DFA tracks is exactly the set of states walks spelling the word reach |
| Runs.AcceptOfRun | iparser/lexical/dfa_model.py:116-123 | the accept entry of a DFA state is the accepting token of the NFA states it holds |
| Runs.TokenOfWord | iparser/lexical/dfa_model.py:112-123 | the accept entry after a word is the least token index among the states walks spelling it reach; dead iff none |
| Runs.TokenMeaning | iparser/lexical/dfa_model.py:112-114 | that token is -1 iff no reachable state accepts, else the least reachable accepting index |
| Merge.ContribFacts | iparser/lexical/scanner.py:56-58 | the merge adds the init's edges to the rules' inits and one edge to the new tail at each rule's tail, nothing else |
| Merge.InitEdges | iparser/lexical/scanner.py:57 | the new init's edges lead exactly to the rules' inits |
| Merge.NewStates | iparser/lexical/scanner.py:53-55 | the two new states accept nothing and the new tail has no edge |
| Merge.MergeNone | iparser/lexical/scanner.py:53-55 | before the loop, the two new states alone are a merge of no rules |
| Merge.MergeStep | iparser/lexical/scanner.py:56-59 | one loop pass merges one more rule |
| Merge.RuleInMerge | iparser/lexical/scanner.py:56-59 | inside the merge a rule's states keep their edges except its tail's new edge, and only its tail accepts |
| Merge.ReachRule | iparser/lexical/scanner.py:56-59 | every word of rule `j` reaches rule `j`'s tail, which accepts with index `j` |
| Merge.LeaveInit | iparser/lexical/scanner.py:56-59 | a walk from the new init to an accepting state ends at one rule's tail, spelling a word of that rule |
| Merge.FirstMatchMeaning | iparser/lexical/dfa_model.py:113-114 | the reference "first rule wins": -1 iff no rule matches, else the first matching rule |
| Merge.TokenIsFirstMatch | iparser/lexical/scanner.py:52-61 | in the merge, the token the reachable states accept with is that of the first rule matching the word, -1 when none does |
| Tokens.Repr | iparser/lexical/token.py:13-14 | `repr(token)` is the name, ` -> '`, the value, and `'` |
| Tokens.GetNfaModel | iparser/lexical/token.py:39-40 | a rule's model is the conversion of its expression |
| Tokens.ReTokenDefinitions.constructor | iparser/lexical/token.py:44-47 | no rules, no models |
| Tokens.ReTokenDefinitions.Define | iparser/lexical/token.py:49-55 | `define` appends the rule and a fresh model, earlier models and states untouched, and keeps the registry invariant: rule `i`'s tail alone accepts, with index `i`, recognizing exactly its expression |
| Tokens.ReTokenDefinitions.Append | iparser/lexical/token.py:52-55 | the bookkeeping after the conversion: tail tagged, rule and model appended |
| Tokens.DefineKeeps | iparser/lexical/token.py:49-55 | after `define` the old rules stay in place and the new one joins them |
| Tokens.NewRule | iparser/lexical/token.py:54 | the converted model with its tail tagged `i` is rule `i` in place |
| Tokens.ReTokenDefinitions.GetTokenDefinition | iparser/lexical/token.py:57-58 | `get_token_definition(i)` raises iff `i` is out of range; otherwise the `i`-th rule (negative from the end) |
| Tokens.ReTokenDefinitions.DefinitionOfToken | iparser/lexical/token.py:49-58 | the definition at `i` is the rule whose model's tail accepts with index `i` |
| Fsa.PyIndex | iparser/lexical/fsa.py:9-10 | a list lookup raises iff the index is outside `-n..n-1`; negative indices count from the end |
| Fsa.FiniteStateMachine.constructor | iparser/lexical/fsa.py:2-6 | starts in state 1 with no last state, over the given tables |
| Fsa.FiniteStateMachine.Input | iparser/lexical/fsa.py:8-13 | `input(c)` moves to the table cell, remembers the state it left and returns its accept entry; when a lookup raises nothing has changed |
| Fsa.FiniteStateMachine.Finish | iparser/lexical/scanner.py:81-82 | end of input as intended: the machine stops, remembering the state it left and returning its accept entry |
| Fsa.FiniteStateMachine.Reset | iparser/lexical/fsa.py:24-26 | back to state 1 with no last state |
| Fsa.TableCells | iparser/lexical/fsa.py:9 | over a built DFA's tables a symbol below the width moves to `Next`, `EOF` reads the last column, a larger symbol raises |
| Fsa.DeadRow | iparser/lexical/fsa.py:21-22 | once stopped the machine stays stopped on every symbol, `EOF` included |
| Scanner.StringReader.constructor | iparser/lexical/scanner.py:23-27 | at position 0 of the text |
| Scanner.StringReader.Head | iparser/lexical/scanner.py:29-32 | the code at the position, `EOF` iff at the end |
| Scanner.StringReader.Peek | iparser/lexical/scanner.py:34-39 | the code at the position, which it passes; at the end `EOF` and it stays |
| Scanner.StringReader.Position | iparser/lexical/scanner.py:41-42 | line 0 and the column, before the end iff `head()` is not `EOF` |
| Scanner.Feed | iparser/lexical/scanner.py:68-70 | one input under the given reading of `EOF`; a move implies the accept lookup succeeds |
| Scanner.Munch | iparser/lexical/scanner.py:67-86 | one token's run: it stops at a character that sends its last state to 0, or raises, or cycles at the end |
| Scanner.ScanCovers | iparser/lexical/scanner.py:64-86 | the tokens' values concatenate to the text from `k` (all of it when the stream ends), then the error's value; a repeated token is empty |
| Scanner.MunchDead | iparser/lexical/scanner.py:67-86 | with `EOF` stopping the machine, a run from a live state never cycles; it stops after the longest live stretch, in the state that stretch leads to, or raises on a character past the width |
| Scanner.ScanDead | iparser/lexical/scanner.py:64-86 | with `EOF` stopping the machine the stream never hangs; its tokens are successive longest live stretches, none accepted -1; errors, repeats and raises come only where `DeadEnd` says |
| Scanner.FirstMunch | iparser/lexical/scanner.py:64-86 | over a DFA that picks the first rule: maximal munch, tokens covering the text, each named by the first rule matching its value; an error value no rule matches; an empty repeated token only when a rule matches the empty word; raises only past the width |
| Scanner.TokensByRules | iparser/lexical/scanner.py:76-80 | every token of such a stream carries the index and name of the first rule matching its value |
| Scanner.NewModel | iparser/lexical/scanner.py:53-55 | two new states, indexed in a model of their own, a merge of no rules |
| Scanner.Attach | iparser/lexical/scanner.py:56-59 | one loop pass of `init()` merges the next rule |
| Scanner.MergeModels | iparser/lexical/scanner.py:52-59 | the merge of all rules, its states carrying distinct state indices, as `DFAModel` needs |
| Scanner.MergedIndices | iparser/lexical/scanner.py:59 | the merged model lists every state, so distinct states have distinct indices |
| Scanner.Scanner.constructor | iparser/lexical/scanner.py:45-62 | the merged NFA, its DFA built, the machine over its tables in state 1 |
| Scanner.Scanner.Step | iparser/lexical/scanner.py:68-70 | one input of the loop moves the machine as `Feed` says, or changes nothing when a lookup raises |
| Scanner.Scanner.Emit | iparser/lexical/scanner.py:73-84 | once the machine stopped: an error exactly when the state it left accepts with -1, a raise when the index names no rule, otherwise the token, ending the stream at `EOF` (or repeating for ever when empty from the reset state), else the machine reset; the outcome agrees with `Scan` |
| Scanner.Scanner.TokenStream | iparser/lexical/scanner.py:64-86 | the stream's outcome is `Scan` of the tables, the rules and the text from the reader's position and the machine's state |
| Scanner.Scanner.FirstRuleWins | iparser/lexical/scanner.py:60-62 | after any word the built DFA's accept entry is the first rule matching it, -1 when none; dead iff no merged state is reachable |
| Scanner.Scanner.BuiltPicksFirst | iparser/lexical/scanner.py:60-62 | the built DFA picks the first matching rule after every word |
| Scanner.Scanner.ReadyScans | iparser/lexical/scanner.py:60-62 | once `init()` returned, the machine's tables are those of such a DFA |
| Scanner.Scanner.StreamMeaning | iparser/lexical/scanner.py:64-86 | the scanner's own stream is maximal munch by the first matching rule, as `FirstMunch` says |
| Findings.ValidInputsAsWritten | iparser/lexical/nfa_model.py:12 | `valid_inputs()` as written holds every label used, epsilon's `None` included |
| Findings.WidthAsWritten | iparser/lexical/dfa_model.py:155 | `max(...) + 1` raises on an empty set and on one holding `None` |
| Findings.InitEpsilon | iparser/lexical/scanner.py:57 | the merge's init has an epsilon edge to the first rule |
| Findings.InitAlwaysRaises | iparser/lexical/dfa_model.py:134-155 | as written, every scanner with a rule puts `None` among the symbols and `init()` raises |
| Findings.Spent | iparser/lexical/regular_expression.py:157-159 | a second conversion sees each predicate node as a batch of no characters |
| Findings.AtLeastOnceAsWritten | iparser/lexical/regular_expression.py:33-34 | what the converter builds for `e.at_least_once()` after the left copy spent the generators |
| Findings.CalByOnce | iparser/lexical/regular_expression.py:153-159 | as written, `cal_by(p).at_least_once()` matches exactly the words of `cal_by(p)`: one accepted character |
| Findings.CalByOnceLosesTwo | iparser/lexical/regular_expression.py:33-34 | when `p` accepts `a`, `aa` is in the intended language of `cal_by(p).at_least_once()` and not matched as written |
| Findings.CharDfa | iparser/lexical/dfa_model.py:128-152 | whatever order states are met in, the DFA built for the one rule `a` has two states: a non-accepting start that `a` leads to an accepting state with no way out |
| Findings.StarDfa | iparser/lexical/dfa_model.py:128-152 | whatever order states are met in, the DFA built for the one rule `a*` has two accepting states, and `a` leads from the start to the second and from the second to itself |
| Findings.EofPhantomToken | iparser/lexical/scanner.py:68-82 | over the tables built for the one rule `a`, the empty input yields, as written, an `a` token with an empty value, and with `EOF` stopping the machine an error |
| Findings.EofHangs | iparser/lexical/scanner.py:81-86 | over the tables built for the one rule `a*`, the input `a` never ends as written; with `EOF` stopping the machine it is the one token `a` |
| Findings.PhantomTokenRun | iparser/lexical/scanner.py:45-86 | `define("a", RE.char(a))`, a scanner over the empty text and its `token_stream()` give the phantom token as written and an error with `EOF` stopping the machine |
| Findings.HangsRun | iparser/lexical/scanner.py:45-86 | `define` of `a*`, a scanner over `a` and its `token_stream()` never end as written and give the one token `a` with `EOF` stopping the machine |

## Left out

- NfaModel.NState.ValidInputs: states the evident intent, symbol keys only. The program's `valid_inputs()` is `Findings.ValidInputsAsWritten` (see Findings).
- DfaModel.DFAModel.MoveAndClosure: reading `linked_state_lookup[symbol]` (dfa_model.py:109) inserts an empty key into a `defaultdict`. The model's NFA is a frozen value, so the key never appears. The inserted key has no effect on the DFA: its move is empty, so it is skipped (dfa_model.py:142-143), and the symbol is already in `_all_symbols`. A later DFA state sharing that NFA state would still list the symbol among its `valid_inputs()` without an edge on it, which the model's inputs do not show.
- DfaModel.Signature: a set of state indices. The program keys states by `tuple(set(...))` (dfa_model.py:126, 144), whose order follows hash iteration. The model takes equal sets to give equal tuples. The program does not guarantee this: `tuple(set(...))` of two equal int sets can list their members in different orders when colliding elements were inserted in a different order (for example {0, 8}). The program can then register two DFA states for one NFA set; the recognized language is the same, but `DfaModel.DistinctCount` (pairwise distinct NFA sets) holds for the model only.
- DfaModel.DFAModel.BuildModel: the numbering of DFA states follows set iteration order (`for symbol in valid_inputs`, `for state in ...`). The model picks each member arbitrarily and pins the DFA only up to that numbering, so it does not prove two builds number states alike.
- DfaModel.DFAModel: the builder reads a snapshot of the NFA graph. The program holds references to live `NFAState` objects, which nothing changes during the build.
- The `print` calls in `_build_model` (dfa_model.py:139) and `token_stream` (scanner.py:66): console output, not modelled.
- Scanner.Scanner.TokenStream: the generator is run to its end rather than lazily. A stream that never ends is described by the outcomes `Repeats` and `Hangs` instead of by an infinite sequence.
- Scanner.Scanner.constructor: requires the rule registry as `define` left it. A second scanner over the same rules is not modelled; there the first scanner's epsilon edges stay on the rules' tails.
- Scanner.Scanner.TokenStream: `EOF` reads the last column as written (`LastColumn`). The maximal-munch lemmas are proved for the intended reading (`Dead`); the written one is shown in Findings.
- RegularExpression.CalBy: enumerates the predicate's characters afresh on every conversion, the evident intent. The one-shot generator is modelled only for `at_least_once` (`Findings.AtLeastOnceAsWritten`), not for a predicate node a user places in two rules.
- NfaModelConverter.CharToIndex: requires a string of at most one character, so multi-character strings, where `ord` raises `TypeError`, are not modelled (at conversion for `RE.char` and `RE.chars`, at construction for `RE.range`, regular_expression.py:123). The `Base`, `BatchOr` and `Range` nodes hold single code points: `RE.char('')` and an empty entry in `RE.chars`, which give an epsilon edge (nfa_model_converter.py:10, 15, 64), are not modelled; the empty node, which converts the same way, is.
- Strings are sequences of code points (`nat`). Characters are what `ord` gives, with no encoding; the predicate alphabet 0..65535 includes the surrogate codes.
- The abstract `Reader`, `TokenDefinition` and `BatchRegularExpression` bases are not classes of their own. `StringReader`, `Definition` and the batch node kinds stand for them.
- `NFAEdge.link_to`, `DFAEdge.link_to` and the plain property getters are not modelled: no core code calls them, or they only read a field.
- `Token.__str__` is `__repr__` (`Tokens.Repr`).
- `charset.py` is not part of this model.

## Findings

| source | as written | input that shows it | evidently intended | confidence | as-written member | corrected member |
|---|---|---|---|---|---|---|
| iparser/lexical/nfa_model.py:12 | `valid_inputs()` returns every lookup key, including `None` for epsilon edges. `_build_model` adds them to `_all_symbols` (and moves on `None`), so `max(self._all_symbols)` at dfa_model.py:155 compares `None` with an int and raises `TypeError` | any `Scanner` with one rule, e.g. `define("a", RE.char("a"))`: the merge's init has an epsilon edge, so `None` is collected from the start state | only symbols with edges are inputs; the width is the largest symbol plus one | high (not executed) | Findings.InitAlwaysRaises | NfaModel.NState.ValidInputs |
| iparser/lexical/regular_expression.py:157-159 | the predicate node's characters are a one-shot generator. `at_least_once` (:33-34) builds `self + self*`, and the left copy is converted first (nfa_model_converter.py:37-38), spending it; the starred copy is a batch of nothing | `RE.cal_by(lambda c: c == "a").at_least_once()` on `"aa"` | one or more accepted characters | high (not executed) | Findings.CalByOnceLosesTwo | RegularExpression.AtLeastOnceLanguage |
| iparser/lexical/scanner.py:70 | once row 1 is corrected (as written, `init()` raises first): at the end `input(EOF)` with `EOF = -1` (scanner.py:11) reads column -1 (fsa.py:9), the last column, that of the largest symbol | one rule `a`, empty input: yields an `a` token whose value is empty, which `a` does not match | at the end of the text the machine stops | high (not executed) | Findings.EofPhantomToken | Scanner.FirstMunch |
| iparser/lexical/scanner.py:81-86 | once row 1 is corrected (as written, `init()` raises first), the same reading: a state whose last column loops never stops at the end, and `peek()` keeps returning `EOF` | one rule `a*`, input `"a"`: the loop never ends and yields nothing | the stream is the one token `a` | high (not executed) | Findings.EofHangs | Scanner.FirstMunch |
