# MinimalRegEx in Dafny

A model of MinimalRegEx, a small compiler from regular expressions to
deterministic finite automata (DFA), in its two implementations:

- the C++ `RegEx::DFA` (`cpp/RegEx.cpp`), which uses the bit set `uint_set`
  (`cpp/uint_set.hpp`);
- the Python `RegEx.DFA` (`python/RegEx.py`).

## What is modelled

**`uint_set`: a growable bit set.** It is modelled as the class
`UintSets.UintSet`. The bytes are a `seq<bv8>` field, and a ghost set
`Contents` is tied to them by `Valid()`.

- Every operator is a method. Its `modifies` clause and its `ensures` clauses
  give the new bytes and the new set of members.
- The range-for iterator is the class `UintSets.UintSetIterator`.
- `Elements` is the range-for loop over a set. It is proved to list the
  members exactly, in ascending order.

**Automata.** An automaton is a start state, a set of accepting states and a
list of rules `(p, a, q)`.

- A run follows the FIRST rule in list order that leaves the current state on
  the input symbol, and is trapped when there is none. This is what
  `advance` does in both languages.
- The matcher state of a compiled automaton (current state, trapped flag) is
  the class `Automata.Matcher`. Its methods are `reset`, `advance` and
  `operator()` / `__call__`.

**The shared generic core.** The parts both implementations share are
written once, over any state type, any symbol type and any empty-move
symbol.

- `Nfa` gives a rule list its nondeterministic reading: empty-move closure,
  reached sets, language.
- `Subset` is the closure loop `E` and the worklist of `from_NFA`. It is
  proved to produce an automaton over groups of states that accepts what the
  rule list accepts nondeterministically.
- `Renumber` numbers the groups by first appearance, which is what the group
  constructor (C++) and `__init__` (Python) do. `FirstSeen` lists the rule
  ends in that order, and both constructors are proved to rename by position
  in it.
- `Thompson` proves the languages of the three nondeterministic automata
  that `kleene_star`, `concatenation` and `alternation` build.
- `Languages` holds the regular operations on (possibly infinite) sets of
  words, the syntax tree `Re` of a regular expression, and its meaning
  `LangRe`.

**The parser.** `RegexSyntax` is the operator-precedence parser of
`from_regex`, stated on syntax trees. `StepChar` handles one character,
`Scan` is the loop, and `Drain` is the final loop.

The two implementations run the same algorithm. They differ in two ways:

- C++ returns the top of the value stack: `CppParse`, `v_stack.back()`.
- Python returns the bottom of the value stack: `PyParse`, `dfa_s[0]`.
- Python builds an automaton at every evaluation, and a combinator can fail
  where C++ builds a tree. The functions of the parser therefore take the
  condition each evaluated tree must meet: `NoCheck` for C++, `Builds`
  (the tree's automaton can be built) for Python. A refused tree fails with
  `StateNotFound`.

**The two engines.**

- `CppRegEx` is the C++ engine. Its states are numbers, and `'\0'` is both the
  empty-move symbol and the end of a C string.
- `PyRegEx` is the Python engine. Its symbols are strings, `''` is the
  empty-move symbol, and the fresh start state is `-1`.

Each combinator is proved to build an automaton for the star, concatenation
or union of the languages of its operands. Each `from_regex` is proved to
return an automaton for the language of the tree its parse returns, or the
parser's error.

- In Python, `__init__` fails with the `ValueError` of `states.index` when
  the start state is not among the rule ends. The model represents this as
  the error `StateNotFound`.
- `PyRegEx.FromNfa` is proved to fail exactly when the start group has no
  move.
- `PyRegEx.FromRegex` is proved to return exactly the error of `PyParse`, and
  otherwise an automaton for the language of its tree.
- `PyRegEx.PyParseBuilds` proves that the Python parse succeeds exactly when
  every tree the unchecked parse builds can be built (`PyBuilds`), and then
  agrees with it. `RegexSyntax.PyParseErr` proves that a Python error other
  than `StateNotFound` is the C++ error.

**The test suites.** `SuiteAutomata` and `SuiteCases` restate the cases of
`cpp/test.cpp` and `python/test.py` on the model, with the answers the tests
expect. These are:

- the hand-written automaton for `b(a|b)*b`;
- `from_NFA` on an automaton for `(a|b)*b`;
- star, concatenation and union of one-word automata;
- the patterns `b(a|b)*b`, `""`, `()` and `(()|abc)`.

**Behaviour of the parser as written.** The parser, in both languages, has
these behaviours:

- **`()` pushes the empty word whenever `(` is on top of the operator
  stack.** This includes a group with a single literal. So `(a)` is the empty
  word in C++ (`RegexSyntax.SingleLiteralGroup`).
- **A `)` does not mark a value as last.** So nothing joins `()` to a
  following literal, and `()a` leaves two values
  (`SuiteCases.QuirkGroupThenLiteral`).
- **A leading `*` applies to the literal after it**
  (`SuiteCases.QuirkLeadingStar`).
- **Python refuses `()*`.** `from_NFA` of the star of the empty-word
  automaton emits no rule, and the constructor's `states.index` fails
  (`SuiteCases.QuirkStarOfEmptyGroup`, `SuiteCases.PyStarOfEmptyGroup`).

## Model

| member | source | states |
|---|---|---|
| `UintSets.UintSetIterator.constructor` | cpp/uint_set.hpp:16-19 | The iterator holds the bytes and the byte and bit indices it is given. |
| `UintSets.UintSetIterator.Get` | cpp/uint_set.hpp:21-24 | `operator*` is the value `8i + j` of byte `i` and bit `j`, at most `8 * size`. |
| `UintSets.UintSetIterator.Next` | cpp/uint_set.hpp:26-44 | `operator++` moves from a bit inside the bytes to the next member, or to the end position when there is none. At the end it stays put. |
| `UintSets.UintSet.constructor` | cpp/uint_set.hpp:66-69 | A new set is valid and empty. |
| `UintSets.UintSet.FromList` | cpp/uint_set.hpp:71-78 | The initializer-list constructor holds exactly the listed values. |
| `UintSets.UintSet.Copy` | cpp/uint_set.hpp:85-89 | A copy has the same bytes and the same members. |
| `UintSets.UintSet.Has` | cpp/uint_set.hpp:136-141 | `has(i)` holds exactly when `i` is a member. A member's byte lies inside the backing bytes. |
| `UintSets.UintSet.Capacity` | cpp/uint_set.hpp:161-164 | `capacity()` is 8 times the byte count, and every member lies below it. |
| `UintSets.UintSet.Allocate` | cpp/uint_set.hpp:337-351 | `allocate(size)` grows the bytes to `size`, keeping the old bytes and zeroing the new ones. It never shrinks, and the members stay the same. |
| `UintSets.UintSet.RShift` | cpp/uint_set.hpp:147-156 | `rshift(n)` prepends `n` zero bytes, which raises every member by `8n`. |
| `UintSets.UintSet.Add` | cpp/uint_set.hpp:169-175 | `add(i)` makes the members the old ones plus `i`. It grows to `i/8 + 1` bytes when needed, and every other byte keeps its value, or is zero if new. |
| `UintSets.UintSet.Remove` | cpp/uint_set.hpp:181-189 | `remove(i)` makes the members the old ones minus `i`. The length stays, and nothing changes past the backing bytes. |
| `UintSets.UintSet.IsEmpty` | cpp/uint_set.hpp:194-204 | `empty()` holds exactly when there is no member. |
| `UintSets.UintSet.Clear` | cpp/uint_set.hpp:209-212 | `clear()` zeroes every byte, keeping the length, and leaves no member. |
| `UintSets.UintSet.Pop` | cpp/uint_set.hpp:218-235 | `pop` returns only members. With at least 8 bytes, it finds one exactly when the set is nonempty, and that one is the least. |
| `UintSets.UintSet.Intersect` | cpp/uint_set.hpp:240-251 | `intersect` holds exactly when the two sets share a member. |
| `UintSets.UintSet.Equals` | cpp/uint_set.hpp:256-266 | `operator==` holds exactly when the two sets have the same members, whatever their byte lengths. |
| `UintSets.UintSet.UnionWith` | cpp/uint_set.hpp:276-285 | The OR-assign operator makes the members the union. The length becomes the longer of the two. |
| `UintSets.Union` | cpp/uint_set.hpp:290-295 | The OR operator is a fresh set holding the union. |
| `UintSets.UintSet.IntersectWith` | cpp/uint_set.hpp:300-312 | `operator&=` makes the members the intersection, and the length stays. |
| `UintSets.AndBytes` | cpp/uint_set.hpp:300-312 | The byte loops of `operator&=` AND the shared prefix and zero the rest. |
| `UintSets.AndPrefix` | cpp/uint_set.hpp:302-306 | The first loop ANDs the first `n` bytes and keeps the rest. |
| `UintSets.ZeroTail` | cpp/uint_set.hpp:307-310 | The second loop zeroes every byte from `n` on and keeps the prefix. |
| `UintSets.Intersection` | cpp/uint_set.hpp:317-322 | `operator&` is a fresh set holding the intersection. |
| `UintSets.NonZero` | cpp/uint_set.hpp:325-335 | `nonzero` holds exactly when some byte of the range is nonzero. |
| `UintSets.UintSet.End` | cpp/uint_set.hpp:128-131 | `end()` is the position one past the last byte. |
| `UintSets.UintSet.Begin` | cpp/uint_set.hpp:112-126 | `begin()` is the position of the least member, or the end position when the set is empty. |
| `UintSets.UintSet.Elements` | cpp/uint_set.hpp:112-131 | The range-for loop from `begin()` to `end()` lists exactly the members, strictly ascending. |
| `UintSets.MaskIsShift` | cpp/uint_set.hpp:140 | The mask table is `1 << j`. |
| `UintSets.OrBit` | cpp/uint_set.hpp:282 | A bit of the OR of `b` and `c` is set exactly when it is set in `b` or in `c`. |
| `UintSets.AndBit` | cpp/uint_set.hpp:305 | A bit of `b & c` is set exactly when it is set in both. |
| `UintSets.SetBit` | cpp/uint_set.hpp:174 | Setting bit `j` sets it and keeps the other bits. |
| `UintSets.ClearBit` | cpp/uint_set.hpp:187 | Clearing bit `j` clears it and keeps the other bits. |
| `UintSets.ZeroByte` | cpp/uint_set.hpp:194-204 | A byte is zero exactly when none of its eight bits is set. |
| `UintSets.PadIff` | cpp/uint_set.hpp:337-351 | Appending zero bytes keeps membership. |
| `UintSets.PrependIff` | cpp/uint_set.hpp:147-156 | Prepending `n` zero bytes moves every member up by `8n`. |
| `UintSets.ClearMembers` | cpp/uint_set.hpp:181-189 | Clearing the bit of `i` removes exactly `i`. |
| `UintSets.OrBytesIff` | cpp/uint_set.hpp:276-285 | A bytewise OR encodes the union. |
| `UintSets.AndBytesMembers` | cpp/uint_set.hpp:300-312 | AND over the shared prefix followed by zeros encodes the intersection. |
| `UintSets.AndZeroDisjoint` | cpp/uint_set.hpp:240-251 | A shared prefix that ANDs to zero means no shared member. |
| `UintSets.AndNonZeroShared` | cpp/uint_set.hpp:240-251 | A nonzero AND at some byte yields a shared member. |
| `UintSets.EqualsCase` | cpp/uint_set.hpp:256-266 | The comparison of the shared prefix and the excess bytes of `operator==` holds exactly when the two byte sequences encode the same members. |
| `UintSets.CollectDone` | cpp/uint_set.hpp:26-44 | Values collected up to the end position are exactly the members, ascending. |
| `Automata.FirstRule` | cpp/RegEx.cpp:291-302 | The index `advance` uses is that of a rule leaving the state on the symbol, with no earlier one doing so, or the list length. |
| `Automata.Step` | cpp/RegEx.cpp:291-302 | `advance` traps exactly when no rule leaves the state on the symbol. Otherwise it goes to a rule's target. |
| `Automata.StepFunctional` | cpp/RegEx.cpp:291-302 | In a rule list without clashing pairs, the first match is the only match. |
| `Automata.RunCons` | cpp/RegEx.cpp:304-317 | A run of a nonempty tape is a step followed by a run of the rest. |
| `Automata.RunInIds` | cpp/RegEx.cpp:304-317 | After a first step, a run only visits states the rules mention. |
| `Automata.Matcher.constructor` | cpp/RegEx.cpp:54-73 | Building an automaton keeps its parts and resets it. |
| `Automata.Matcher.Reset` | cpp/RegEx.cpp:285-289 | `reset` returns to the start and clears the trap. |
| `Automata.Matcher.Advance` | cpp/RegEx.cpp:291-302 | `advance` follows the first matching rule, or traps and keeps the state. |
| `Automata.Matcher.Call` | cpp/RegEx.cpp:304-317 | `operator()` accepts exactly the tapes whose run is never trapped and ends in an accepting state. |
| `Automata.MapRules` | cpp/RegEx.cpp:115-125 | Renaming a rule list renames both ends of every rule and keeps the symbols. |
| `Automata.StepRenamed` | cpp/RegEx.cpp:115-125 | A one-to-one renaming commutes with a step. |
| `Automata.RunRenamed` | cpp/RegEx.cpp:115-125 | A one-to-one renaming commutes with a run. |
| `Automata.AcceptsRenamed` | cpp/RegEx.cpp:75-113 | A renaming that separates accepting from other states keeps acceptance. |
| `Automata.NoDupPairsRenamed` | cpp/RegEx.cpp:75-113 | A one-to-one renaming keeps every (state, symbol) pair to one rule. |
| `Automata.RenamedDfaLang` | cpp/RegEx.cpp:115-125 | Renaming every state one-to-one keeps the language. |
| `Automata.StatesRenamed` | cpp/RegEx.cpp:115-125 | The states of a renamed automaton are the renamed states. |
| `Automata.DetLikeRenamed` | cpp/RegEx.cpp:115-125 | A one-to-one renaming keeps a rule list deterministic. |
| `Automata.LoopLang` | cpp/RegEx.cpp:194 | The automaton `e` (one accepting state with an empty-move loop) accepts only the empty word. |
| `Automata.EdgeLang` | cpp/RegEx.cpp:255 | One rule reading `c` into the only accepting state accepts only the word `c`. |
| `Languages.LangReAvoids` | cpp/RegEx.cpp:253-268 | A word of a regular expression holds only characters its literals hold. |
| `Languages.StarAvoids` | cpp/RegEx.cpp:324-335 | A word of a star holds only symbols the words of the starred language hold. |
| `Nfa.ClBasic` | cpp/RegEx.cpp:127-143 | The closure contains its argument, is closed under empty moves, and adds only rule targets. |
| `Nfa.ClLeast` | cpp/RegEx.cpp:127-143 | The closure is the least superset closed under empty moves. |
| `Nfa.ClUnion` | cpp/RegEx.cpp:127-143 | The closure distributes over union. |
| `Nfa.ClMono` | cpp/RegEx.cpp:127-143 | The closure is monotonic. |
| `Nfa.DeltaStarUnion` | cpp/RegEx.cpp:145-190 | The set reached from a union is the union of the reached sets. |
| `Nfa.DeltaStarCons` | cpp/RegEx.cpp:145-190 | Reading a nonempty word is one subset step, then the rest. |
| `Nfa.LocalCl` | cpp/RegEx.cpp:337-354 | Inside a confined part of a rule list, the closure sees only that part. |
| `Nfa.LocalDeltaStar` | cpp/RegEx.cpp:337-354 | Inside a confined part, the reached sets see only that part. |
| `Nfa.DetCl` | cpp/RegEx.cpp:127-143 | With empty moves only on self-loops, a single state is closed. |
| `Nfa.DetPost` | cpp/RegEx.cpp:291-302 | In a functional rule list, one state's successor set is the first match's target. |
| `Nfa.DetDeltaStar` | cpp/RegEx.cpp:304-317 | Read nondeterministically, a deterministic rule list reaches the run's state. |
| `Nfa.DetNfaLang` | cpp/RegEx.cpp:145-190 | Read nondeterministically, a deterministic rule list accepts the same words. |
| `Nfa.EmbeddedRun` | cpp/RegEx.cpp:337-354 | A deterministic part confined in a larger rule list reaches from one state what its run reaches. |
| `Subset.FirstExit` | cpp/RegEx.cpp:132-141 | One scan of `E` finds the first empty rule that leads out of the set, or none. |
| `Subset.Closure` | cpp/RegEx.cpp:127-143 | `E` computes the empty-move closure. |
| `Subset.Successors` | cpp/RegEx.cpp:158-166 | The map `cs` holds exactly the non-empty symbols read by rules leaving the group, each with the targets of those rules. |
| `Subset.EmitGroup` | cpp/RegEx.cpp:167-177 | Processing a popped group emits one rule per symbol, to the closure of its targets. It queues each successor that is neither the group nor seen before, and keeps the worklist invariant. |
| `Subset.EmitSymbols` | cpp/RegEx.cpp:167-176 | The loop over `cs`, in any order the map yields, keeps every invariant that one emit step keeps. |
| `Subset.Determinize` | cpp/RegEx.cpp:145-189 | The processed groups start at the closure of the start state. From every group, each (group, symbol) pair has one rule, which is that group's subset step. The accepting groups are those meeting `F`. There are rules exactly when the start group moves. The group automaton accepts what the rule list accepts nondeterministically. |
| `Subset.AcceptingGroups` | cpp/RegEx.cpp:180-186 | The final loop keeps exactly the processed groups that meet `F`. |
| `Subset.Push` | cpp/RegEx.cpp:172-175 | A successor is queued unless it is the group itself, or was queued or processed before. |
| `Subset.GroupRun` | cpp/RegEx.cpp:145-190 | A run of the group automaton follows the reached sets of the nondeterministic reading, and stays among the groups. |
| `Subset.GroupLang` | cpp/RegEx.cpp:145-190 | The group automaton accepts what the rule list accepts nondeterministically. |
| `Subset.MovesStart` | cpp/RegEx.cpp:145-190 | The group automaton has rules exactly when its start group has a move. |
| `Subset.SubsetsComplete` | cpp/RegEx.cpp:148-179 | Every group is a subset of the start and the rule targets, which bounds the worklist. |
| `Subset.Shrinks` | cpp/RegEx.cpp:148-179 | Processing a new group brings the processed groups nearer to all such subsets, which makes the loop terminate. |
| `Renumber.IndexOf` | cpp/RegEx.cpp:81-101 | `std::find(...) - begin()` is the position of the first equal group, or the list length. |
| `Renumber.IndexOfInjective` | cpp/RegEx.cpp:81-101 | In a list without repetitions, positions tell groups apart. |
| `Renumber.Renumber` | cpp/RegEx.cpp:79-103 | The renumbering loop lists the rule ends as `FirstSeen` does: each once, by first appearance, source before target. It renames every rule by position in that list. |
| `Renumber.FirstSeenHead` | cpp/RegEx.cpp:79-94 | The source of the first rule is numbered `0`. |
| `Renumber.NumberedBelow` | cpp/RegEx.cpp:79-103 | Renumbered rule ends are positions in the list of groups. |
| `Renumber.RenamedLang` | cpp/RegEx.cpp:75-113 | Renumbering keeps the language, also when the start group is no rule end and so gets the number one past the list. |
| `Thompson.AltLang` | cpp/RegEx.cpp:356-371 | A fresh start with empty moves to two disjoint deterministic parts accepts the union of their languages. |
| `Thompson.AltClosure` | cpp/RegEx.cpp:365-368 | The fresh start closes to itself and both old starts. |
| `Thompson.AltWord` | cpp/RegEx.cpp:356-371 | A word is accepted by the alternation automaton exactly when one part accepts it. |
| `Thompson.CatLang` | cpp/RegEx.cpp:337-354 | Empty moves from the left part's accepting states to the right part's start accept the concatenation of the two languages. |
| `Thompson.CatClosure` | cpp/RegEx.cpp:347-350 | From a left-part state, the closure adds the right start exactly when that state accepts. |
| `Thompson.CatAcc` | cpp/RegEx.cpp:337-354 | From a left-part state, the automaton accepts exactly the words that split there into a left-accepted prefix and a right-accepted rest. |
| `Thompson.StarLang` | cpp/RegEx.cpp:324-335 | A fresh accepting start and empty moves from it and from every accepting state back to the old start accept the Kleene star. |
| `Thompson.StarClosure` | cpp/RegEx.cpp:329-332 | The closure of an old state adds the old start exactly when the state accepts or is the fresh start. |
| `Thompson.StarAcc` | cpp/RegEx.cpp:324-335 | From an old state, the star automaton accepts exactly an accepted prefix followed by a word of the star. |
| `Thompson.StarWord` | cpp/RegEx.cpp:324-335 | A word is accepted by the star automaton exactly when it is in the star. |
| `Thompson.StarFromStart` | cpp/RegEx.cpp:324-335 | A nonempty word is in the star exactly when a nonempty accepted prefix is followed by a word of the star. |
| `RegexSyntax.EvalRe` | cpp/RegEx.cpp:373-416 | `_eval` fails on `(`, or with a missing operand when the stack is too short. Otherwise it replaces the one or two top values by one and keeps the rest, or fails with `StateNotFound` when the new value does not meet the condition. |
| `RegexSyntax.Unwind` | cpp/RegEx.cpp:221-225 | The evaluation loops leave a prefix of the operator stack whose top stops the loop. Their only error is a missing operand. |
| `RegexSyntax.StepChar` | cpp/RegEx.cpp:204-270 | One character fails only at `)`, the alternation operator or a literal after a value, with a missing `(` or a missing operand. Otherwise it leaves a nonempty stack. |
| `RegexSyntax.Scan` | cpp/RegEx.cpp:202-271 | The main loop over a nonempty pattern leaves a nonempty stack or fails. It never fails with a missing `)` or an unknown operator. |
| `RegexSyntax.Drain` | cpp/RegEx.cpp:272-280 | The final loop fails only with a missing `)` or a missing operand. It leaves a value when there was anything to evaluate. |
| `RegexSyntax.ParseStack` | cpp/RegEx.cpp:195-282 | A nonempty pattern that parses leaves a nonempty value stack. |
| `RegexSyntax.ScanErr` | cpp/RegEx.cpp:202-271 | The first error ends the scan, and the rest of the pattern is not read. |
| `RegexSyntax.ScanNext` | cpp/RegEx.cpp:202-271 | The scan advances by one step of the parser. |
| `RegexSyntax.ScanStopsAt` | cpp/RegEx.cpp:202-271 | A character refused after a prefix fails the whole scan with that error. |
| `RegexSyntax.Finish` | cpp/RegEx.cpp:272-282 | When scan and drain succeed, C++ returns the top value and Python the bottom one. |
| `RegexSyntax.FinishErr` | cpp/RegEx.cpp:272-282 | A failing scan or drain fails the parse in both languages with the same error. |
| `RegexSyntax.ParseChecked` | python/RegEx.py:181-228 | A parse under any condition either fails with `StateNotFound` or equals the unchecked (C++) parse. |
| `RegexSyntax.PyParseErr` | python/RegEx.py:181-228 | A Python parse error other than `StateNotFound` is the C++ error, and every pattern C++ refuses Python refuses too. |
| `RegexSyntax.TestParse` | cpp/test.cpp:125 | Under any condition that holds of its four subtrees, `BAB` leaves its tree alone on the stack. |
| `RegexSyntax.SingleLiteralGroup` | cpp/RegEx.cpp:216-236 | `(a)` is the empty word in C++ but `a` in Python. |
| `RegexSyntax.TestPattern` | cpp/test.cpp:125 | `BAB` parses to `b`, then the star of the alternation of `a` and `b`, then `b`, in both languages. |
| `CppRegEx.NewDfa` | cpp/RegEx.cpp:54-73 | The constructor `DFA(s, F, R)` keeps the parts. `m_num_states` counts the distinct rule ends. |
| `CppRegEx.EpsDfaLang` | cpp/RegEx.cpp:194 | `e` is of the built shape and accepts only the empty word. |
| `CppRegEx.LitDfaLang` | cpp/RegEx.cpp:255 | The literal automaton is of the built shape and accepts only its character. |
| `CppRegEx.PClone` | cpp/RegEx.cpp:115-125 | `pclone(offset)` raises every state by `8 * offset`, keeps determinism, and accepts the same language. |
| `CppRegEx.EpsRules` | cpp/RegEx.cpp:329-332 | The loop over `F` emits exactly one empty move from each accepting state to the target, in increasing order. |
| `CppRegEx.FromGroups` | cpp/RegEx.cpp:75-113 | The group constructor renames every rule, the start and the accepting groups by position in `FirstSeen`. So it makes one rule per group rule with the same symbol, renumbers below twice the rule count, gives the start one past the last state exactly when it is no rule end, keeps determinism, and keeps the language. |
| `CppRegEx.Positions` | cpp/RegEx.cpp:108-112 | The loop over `F_set` gives each accepting group its position in the list of groups. |
| `CppRegEx.FromNfa` | cpp/RegEx.cpp:145-190 | `from_NFA` returns an automaton of the built shape that accepts what the rule list accepts nondeterministically, with rules exactly when the start group moves. |
| `CppRegEx.KleeneStar` | cpp/RegEx.cpp:324-335 | `kleene_star` accepts the Kleene star of the language. |
| `CppRegEx.Apart` | cpp/RegEx.cpp:342 | The clone at offset `m_num_states / 8 + 1` lies above every state of this automaton. |
| `CppRegEx.Concatenation` | cpp/RegEx.cpp:337-354 | `concatenation` accepts the concatenation of the two languages. |
| `CppRegEx.Alternation` | cpp/RegEx.cpp:356-371 | `alternation` accepts the union of the two languages. Its start `other.m_num_states + offset * 8 + 1` is fresh. |
| `CppRegEx.CStr` | cpp/RegEx.cpp:202 | The characters read from a C string are those before the first `'\0'`. |
| `CppRegEx.EmptyDfa` | cpp/RegEx.cpp:194 | `e` accepts exactly the empty word. |
| `CppRegEx.LitDfa` | cpp/RegEx.cpp:255 | The literal automaton accepts exactly the one-character word. |
| `CppRegEx.Eval` | cpp/RegEx.cpp:373-416 | `_eval` on automata fails exactly as on trees, and otherwise yields automata whose languages are those of the evaluated trees. |
| `CppRegEx.UnwindDfa` | cpp/RegEx.cpp:221-225 | The evaluation loops on automata mirror the loops on trees, errors included. |
| `CppRegEx.CloseDfa` | cpp/RegEx.cpp:216-236 | The `)` branch on automata mirrors the step on trees, errors included. |
| `CppRegEx.LiteralDfa` | cpp/RegEx.cpp:253-268 | The literal branch on automata mirrors the step on trees, errors included. |
| `CppRegEx.StepDfa` | cpp/RegEx.cpp:204-270 | One character of `from_regex` on automata mirrors the step on trees, errors included. |
| `CppRegEx.DrainDfa` | cpp/RegEx.cpp:272-280 | The final loop on automata mirrors the drain on trees, errors included. |
| `CppRegEx.FromRegex` | cpp/RegEx.cpp:192-283 | `from_regex` fails exactly with the parse error of the C string. Otherwise it returns an automaton for the language of the top tree. |
| `CppRegEx.Compile` | cpp/RegEx.cpp:17-20 | `compile` is `from_regex`. |
| `CppRegEx.Call` | cpp/RegEx.cpp:304-322 | `operator()` and `match` accept exactly when the C string of the tape is in the language. |
| `CppRegEx.Match` | cpp/RegEx.cpp:11-15 | `match(pattern, str)` fails with the parse error, or answers whether the string is in the language of the pattern's tree. |
| `PyRegEx.Init` | python/RegEx.py:17-45 | `DFA(S, Fs, Rs)` fails exactly when the start or an accepting state is no rule end. Otherwise it renames the rules, the start and the accepting states by position in `FirstSeen` (first appearance), and keeps determinism and the language. |
| `PyRegEx.IndexAll` | python/RegEx.py:43 | The set comprehension over `Fs` fails exactly when some state is not listed. Otherwise it gives their positions. |
| `PyRegEx.InitLang` | python/RegEx.py:17-45 | The numbered automaton accepts the language of the original one. |
| `PyRegEx.InitBelow` | python/RegEx.py:17-45 | Every state of the numbered automaton lies below `num_states`. |
| `PyRegEx.EmptyDfa` | python/RegEx.py:185 | `e` accepts exactly the empty word and has no move from its start. |
| `PyRegEx.LitDfa` | python/RegEx.py:215 | The literal automaton accepts exactly the one-symbol word and moves from its start. |
| `PyRegEx.PClone` | python/RegEx.py:47-53 | `pclone(offset)` raises every state by `offset`, keeps determinism and the language, and keeps whether the start moves. |
| `PyRegEx.FromNfa` | python/RegEx.py:72-101 | `from_NFA` fails with `StateNotFound` exactly when the start group has no move. Otherwise it accepts what the rule list accepts nondeterministically. |
| `PyRegEx.EpsRulesTo` | python/RegEx.py:129-130 | The loop over `Fs_` emits exactly one empty move from each state of the set to the target. |
| `PyRegEx.KleeneStar` | python/RegEx.py:125-132 | `kleene_star` succeeds exactly when the start moves, and then accepts the Kleene star. |
| `PyRegEx.PyApart` | python/RegEx.py:136 | The clone at offset `num_states` lies above every state of this automaton. |
| `PyRegEx.Concatenation` | python/RegEx.py:134-144 | `concatenation` succeeds exactly when the left start moves, or accepts while the right start moves. It then accepts the concatenation. |
| `PyRegEx.Alternation` | python/RegEx.py:146-156 | `alternation` succeeds exactly when one of the starts moves, and then accepts the union. |
| `PyRegEx.Chars` | python/RegEx.py:116 | Iterating a Python string gives one one-character string per character. |
| `PyRegEx.EmptyWord` | python/RegEx.py:114-120 | The empty tape is accepted exactly when the start accepts. |
| `PyRegEx.Eval` | python/RegEx.py:159-178 | `_eval` on automata fails exactly as `_eval` on trees under `Builds`, and otherwise pushes an automaton for the new tree. |
| `PyRegEx.UnwindDfa` | python/RegEx.py:201-202 | The evaluation loops on automata fail exactly as the loops on trees under `Builds`, and otherwise mirror them. |
| `PyRegEx.CloseDfa` | python/RegEx.py:198-206 | The `)` branch on automata fails exactly as the step on trees under `Builds`, and otherwise mirrors it. |
| `PyRegEx.LiteralDfa` | python/RegEx.py:214-221 | The literal branch on automata fails exactly as the step on trees under `Builds`, and otherwise mirrors it. |
| `PyRegEx.StepDfa` | python/RegEx.py:192-221 | One character of `from_regex` on automata fails exactly as the step on trees under `Builds`, and otherwise mirrors it. |
| `PyRegEx.DrainDfa` | python/RegEx.py:222-226 | The final loop on automata fails exactly as the drain on trees under `Builds`, and otherwise mirrors it. |
| `PyRegEx.SpoiledSnoc` | python/RegEx.py:159-178 | Once a tree on the stack cannot be built, pushing another keeps it so. |
| `PyRegEx.ScanSpoiled` | python/RegEx.py:192-221 | A tree that cannot be built stays on the stack to the end of the scan. |
| `PyRegEx.DrainSpoiled` | python/RegEx.py:222-226 | A tree that cannot be built stays on the stack through the final loop. |
| `PyRegEx.PyParseBuilds` | python/RegEx.py:181-228 | The Python parse succeeds exactly when the unchecked parse does and every tree it builds can be built, and then the two agree. |
| `PyRegEx.FromRegex` | python/RegEx.py:181-228 | `from_regex` fails with exactly the error of the Python parse. Otherwise it returns an automaton for the language of the bottom tree. |
| `PyRegEx.CharsLang` | python/RegEx.py:114-120 | A string read as one-character strings is in the language over strings exactly when it is in the language over characters. |
| `PyRegEx.CharsStar` | python/RegEx.py:125-132 | The same holds for a star. |
| `PyRegEx.Compile` | python/RegEx.py:8-9 | `compile` is `from_regex`: the same error, or an automaton for the language of the parse. |
| `PyRegEx.Call` | python/RegEx.py:114-120 | `__call__` accepts exactly when the string's symbols are in the language. |
| `PyRegEx.DfaMatch` | python/RegEx.py:122-123 | `DFA.match` answers as `__call__`. |
| `PyRegEx.Match` | python/RegEx.py:3-5 | `match(pattern, string)` fails with exactly the error of the Python parse. Otherwise it answers whether the string is in the language of the pattern's tree. |
| `SuiteAutomata.ChainLang` | cpp/test.cpp:53-61 | The chain automaton of a word accepts that word and nothing else. |
| `SuiteAutomata.ChainDet` | cpp/test.cpp:53-61 | The chain automaton is deterministic. |
| `SuiteAutomata.ChainRun` | cpp/test.cpp:53-61 | From position `k`, the chain reaches its end exactly on the rest of the word. |
| `SuiteAutomata.StarWords` | cpp/test.cpp:67-69 | The star of `xy` holds the empty word and `xyxyxy`, and not `xyxxxy`. |
| `SuiteAutomata.BasicLang` | cpp/test.cpp:12-22 | The hand-written automaton accepts the words over `a` and `b` of length at least two that start and end with `b`. |
| `SuiteAutomata.BasicIsBab` | cpp/test.cpp:12-22 | The hand-written automaton accepts the language of `BAB`. |
| `SuiteAutomata.BasicTapes` | cpp/test.cpp:26-30 | `bbb` and `baabbaabab` are in `BAB`, and `ab` is not. |
| `SuiteAutomata.CppBasicDfa` | cpp/test.cpp:12-22 | The C++ automaton of `test_basic` accepts `BAB`. |
| `SuiteAutomata.CppBasic` | cpp/test.cpp:10-31 | `test_basic` in C++ gets the answers its asserts expect. |
| `SuiteAutomata.SuffixClosures` | cpp/test.cpp:35-42 | The closures reached in `test_nfa_to_dfa` are `{q0, q1}` and `{q0, q1, q2}`. |
| `SuiteAutomata.SuffixDelta` | cpp/test.cpp:35-42 | The subset steps from those two sets. |
| `SuiteAutomata.SuffixIsEndsWith` | cpp/test.cpp:35-42 | The automaton of `test_nfa_to_dfa` accepts the words over `a` and `b` that end with `b`. |
| `SuiteAutomata.CppSuffixNfa` | cpp/test.cpp:35-42 | C++ `from_NFA` on it accepts the same words. |
| `SuiteAutomata.CppFromNfa` | cpp/test.cpp:33-49 | `test_nfa_to_dfa` in C++ gets the expected answers. |
| `SuiteAutomata.CppWord` | cpp/test.cpp:53-61 | The chain automaton in C++ is of the built shape and accepts its one word. |
| `SuiteAutomata.CppKleeneStar` | cpp/test.cpp:51-70 | `test_kleene_star` in C++ gets the expected answers. |
| `SuiteAutomata.CatWords` | cpp/test.cpp:72-94 | The concatenation of two one-word languages is their concatenated word. |
| `SuiteAutomata.CppConcat` | cpp/test.cpp:72-94 | `test_concat` in C++ gets the expected answers. |
| `SuiteAutomata.CppBabOrBba` | cpp/test.cpp:96-114 | The alternation of `bab` and `bba` accepts exactly those two words. |
| `SuiteAutomata.CppUnion` | cpp/test.cpp:96-121 | `test_union` in C++ gets the expected answers. |
| `SuiteAutomata.CharsInjective` | python/test.py:5-24 | Different strings give different symbol sequences. |
| `SuiteAutomata.PyWord` | python/test.py:45-50 | The chain automaton in Python builds and accepts its one word. |
| `SuiteAutomata.PyBasicIsBab` | python/test.py:6-15 | The hand-written automaton over one-character strings accepts `BAB`. |
| `SuiteAutomata.PyBasicDfa` | python/test.py:6-15 | The Python automaton of `test_basic` accepts `BAB`. |
| `SuiteAutomata.PyBasic` | python/test.py:5-24 | `test_basic` in Python gets the expected answers. |
| `SuiteAutomata.PySuffixNfa` | python/test.py:27-41 | Python `from_NFA` on the automaton of `test_nfa_to_dfa` accepts the words ending with `b`. |
| `SuiteAutomata.PyFromNfa` | python/test.py:27-41 | `test_nfa_to_dfa` in Python gets the expected answers. |
| `SuiteAutomata.PyString` | python/test.py:45-50 | The Python chain automaton of a string accepts that string. |
| `SuiteAutomata.PyStarTapes` | python/test.py:44-61 | The strings `test_kleene_star` tries on the star of `ab`. |
| `SuiteAutomata.PyStarOfAb` | python/test.py:51 | `kleene_star` of the `ab` automaton accepts its star. |
| `SuiteAutomata.PyKleeneStar` | python/test.py:44-61 | `test_kleene_star` in Python gets the expected answers. |
| `SuiteAutomata.PyAbThenBa` | python/test.py:77 | `concatenation` of `ab` and `ba` accepts exactly `abba`. |
| `SuiteAutomata.PyConcat` | python/test.py:64-84 | `test_concat` in Python gets the expected answers. |
| `SuiteAutomata.PyBabOrBba` | python/test.py:102 | `alternation` of `bab` and `bba` accepts exactly those two. |
| `SuiteAutomata.PyUnion` | python/test.py:87-110 | `test_union` in Python gets the expected answers. |
| `SuiteCases.StarABWords` | cpp/test.cpp:125 | the star of the alternation of `a` and `b` denotes the words over `a` and `b`. |
| `SuiteCases.BabWords` | cpp/test.cpp:125-132 | `BAB` denotes the words over `a` and `b` of length at least two that start and end with `b`. |
| `SuiteCases.OptABCWords` | cpp/test.cpp:145-148 | `OptABC` denotes the empty word and `abc`. |
| `SuiteCases.ParseEmptyGroup` | cpp/test.cpp:139 | `()` leaves the empty word alone on the stack, under either condition. |
| `SuiteCases.ParseBab` | cpp/test.cpp:125 | `BAB` leaves its tree alone on the stack, under either condition. |
| `SuiteCases.ParseOptABC` | cpp/test.cpp:145 | Under any build check that accepts its trees (the C++ parse, which checks nothing, and Python's), `(()|abc)` leaves the tree `OptABC` alone on the stack. |
| `SuiteCases.ErrorOpenGroup` | cpp/RegEx.cpp:274-277 | `(a` fails with a missing `)` in both languages. |
| `SuiteCases.ErrorCloseGroup` | cpp/RegEx.cpp:227-234 | `a)` fails with a missing `(` in both languages. |
| `SuiteCases.ErrorLoneStar` | cpp/RegEx.cpp:377-385 | `*` fails with a missing operand. |
| `SuiteCases.ErrorEmptyAlternative` | cpp/RegEx.cpp:399-410 | A group whose alternation has nothing on its left fails with a missing operand for the alternation. |
| `SuiteCases.PyRegexErrors` | python/RegEx.py:181-228 | Python `from_regex` of `(a`, `a)`, `*` and `(|abc)` fails with a missing `)`, a missing `(`, and a missing operand for the star and for the alternation. |
| `SuiteCases.CppFails` | cpp/RegEx.cpp:192-283 | C++ `from_regex` of a pattern without `'\0'` fails with the error of its parse. |
| `SuiteCases.CppRegexErrors` | cpp/RegEx.cpp:195-282 | C++ `from_regex` of the same four patterns fails with the same four errors. |
| `SuiteCases.QuirkGroupThenLiteral` | cpp/RegEx.cpp:216-236 | `()a` leaves two values: C++ returns `a` and Python the empty word. |
| `SuiteCases.QuirkLeadingStar` | cpp/RegEx.cpp:248-252 | `*a` parses to `a*`. |
| `SuiteCases.QuirkStarOfEmptyGroup` | python/RegEx.py:125-132 | `()*` parses to the star of the empty word in C++. Python cannot build it, so its parse fails with `StateNotFound`. |
| `SuiteCases.PyStarOfEmptyGroup` | python/RegEx.py:125-132 | Python `from_regex("()*")` fails with `StateNotFound`, because `kleene_star` of `e` does. |
| `SuiteCases.CppAsk` | cpp/RegEx.cpp:304-317 | Running a C++ automaton on a string without `'\0'` answers membership. |
| `SuiteCases.PyAsk` | python/RegEx.py:114-120 | Running a Python automaton compiled from a tree answers membership in the tree's language. |
| `SuiteCases.CppCompile` | cpp/RegEx.cpp:192-283 | C++ `from_regex` on a parsing pattern accepts the language of the top tree. |
| `SuiteCases.PyCompile` | python/RegEx.py:181-228 | Python `from_regex` on a pattern whose trees build accepts the language of the bottom tree. |
| `SuiteCases.CppCompileEmpty` | cpp/RegEx.cpp:195-198 | C++ `from_regex("")` accepts the empty word only. |
| `SuiteCases.BabRefuses` | cpp/test.cpp:126-130 | `""`, `b` and `ba` are not in `BAB`. |
| `SuiteCases.BabAccepts` | cpp/test.cpp:128-131 | `bb` and `bab` are in `BAB`. |
| `SuiteCases.BabAcceptsLong` | cpp/test.cpp:132 | `bababbaab` is in `BAB`. |
| `SuiteCases.CppCompileBab` | cpp/test.cpp:125 | C++ `from_regex` of `BAB` accepts its language. |
| `SuiteCases.CppRegexBab` | cpp/test.cpp:125-132 | C++ `BAB` gets the expected answers. |
| `SuiteCases.CppRegexEmpty` | cpp/test.cpp:135-141 | C++ `""` and `()` accept the empty string and refuse `a`. |
| `SuiteCases.OptABCTapes` | cpp/test.cpp:146-148 | `""` and `abc` are in `OptABC`, and `abcabc` is not. |
| `SuiteCases.CppCompileOptional` | cpp/test.cpp:145 | C++ `from_regex` of `OptABC` accepts its language. |
| `SuiteCases.CppRegexOptional` | cpp/test.cpp:145-148 | C++ `OptABC` gets the expected answers. |
| `SuiteCases.BuildsBab` | python/test.py:120 | Python can build every automaton along `BAB`. |
| `SuiteCases.PyCompileBab` | python/test.py:120 | Python `from_regex` of `BAB` accepts its language. |
| `SuiteCases.PyRegexBab` | python/test.py:120-127 | Python `BAB` gets the expected answers. |
| `SuiteCases.PyRegexEmpty` | python/test.py:130-136 | Python `""` and `()` accept the empty string and refuse `a`. |
| `SuiteCases.BuildsOptABC` | python/test.py:140 | Python can build every automaton along `OptABC`. |
| `SuiteCases.PyCompileOptional` | python/test.py:140 | Python `from_regex` of `OptABC` accepts its language. |
| `SuiteCases.PyRegexOptional` | python/test.py:140-143 | Python `OptABC` gets the expected answers. |

## Left out

- Memory management: the vectors and `uint_set`'s buffer are values here, and the default constructor's `allocate(128)` is not modelled (a new set has no bytes). Membership does not depend on the capacity.
- UintSets.UintSet.Pop: the contract says nothing about finding the least member of a set with fewer than 8 bytes. The inner loop of `pop` is bounded by `j < m_bytes_size` rather than by 8 bits. So with fewer than 8 bytes it can miss set bits, and the model does not pin down that behaviour.
- The automaton layer uses sets of numbers (`set<nat>`) where the C++ code uses `uint_set`. `UintSets` proves that the operations the engine uses (`has`, `add`, `rshift`, `intersect`, `==`) agree with the set operations.
- CppRegEx.FromGroups: the group constructor does not initialise `m_num_states`. The model sets it to the number of distinct groups, which is what the combinators need their offsets to be above.
- The order in which `std::unordered_map` (C++) and `dict` (Python) yield the symbols of `cs`: `EmitSymbols` is proved for whatever order the map yields.
- The `throw()` on C++ `_eval` (letting an exception escape is program termination) and the texts of the error messages: errors are values of `ParseError`. The C++ message for a short concatenation names `'|'`.
- C strings: patterns and tapes are `seq<char>`. Reading stops at the first `'\0'` (`CStr`), and `'\0'` is never a literal symbol.
- Python raises `ValueError` from `states.index`; the model has the error value `StateNotFound`.
- C++ `unsigned` arithmetic: state numbers, `m_R.size() * 2 + 1` (`kleene_star`), `offset * 8` (`pclone`), the fresh start `other.m_num_states + (m_num_states / 8 + 1) * 8 + 1` of `alternation`, and `uint_set`'s `i * 8 + j` are unbounded `nat`. Wrap-around at 2^32 is not modelled; it needs automata with billions of states.
- Python states and symbols: the states of `from_NFA`'s groups are sets, and symbols are strings of any length. The pattern only ever produces one-character strings.
- Console output of the test drivers and their `main` functions.
- The `div3` case `(1(01*0)*1|0)*` of both suites: its parse and its automaton are covered by `FromRegex` for every pattern, but the answer for each number up to the test's bound is not restated.
- `python/test.py` calls `kstar`, `concat` and `union`, which `RegEx.DFA` does not define. The suite cases are stated with `kleene_star`, `concatenation` and `alternation`.
- `cpp/RegEx.h` and `cpp/test_uint_set.cpp` are not part of this model beyond the declarations the source files use.
