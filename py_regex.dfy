/** The Python `RegEx.DFA`: automata whose symbols are strings, with the empty
    string `''` as the empty-move symbol and integer states.  The constructor
    numbers the states of any rule list by first appearance, and fails (the
    `ValueError` of `list.index`) when the start or an accepting state is not
    among the rule ends.  The combinators build nondeterministic automata in
    the Thompson style, with `-1` as the fresh start, and hand them to
    `from_NFA`; `from_regex` drives them with the parser of `RegexSyntax` and
    returns the automaton at the bottom of the stack. */
module PyRegEx {
  import opened Automata
  import opened Nfa
  import opened Languages
  import opened Subset
  import opened Thompson
  import opened Renumber
  import opened RegexSyntax

  /** The empty-move symbol `''`. */
  const Empty: string := ""

  /** A `DFA` object: `S`, `Fs`, `Rs` and `num_states`. */
  datatype PyDfa = PyDfa(S: int, Fs: set<int>, Rs: seq<Rule<int, string>>, numStates: nat)

  /** The words (sequences of symbols) the automaton accepts. */
  ghost function Lang(d: PyDfa): iset<seq<string>>
  {
    DfaLang(d.Rs, Empty, d.S, d.Fs)
  }

  /** What every automaton the constructor returns satisfies: its states are
      `0 .. num_states - 1`, and its rules read deterministically.  This is what
      makes `-1` fresh and the clone at offset `num_states` apart. */
  ghost predicate Good(d: PyDfa)
  {
    DetLike(d.Rs, Empty) &&
    forall x :: x in States(d.S, d.Fs, d.Rs) ==> 0 <= x < d.numStates
  }

  /** Some rule reads a symbol from the start. */
  ghost predicate Starts(d: PyDfa)
  {
    Moves(d.Rs, Empty, {d.S})
  }

  // ------------------------------------------------------------ __init__

  /** The start and every accepting state are rule ends, so that
      `states.index` finds them. */
  ghost predicate Listed<T>(S: T, Fs: seq<T>, Rs: seq<Rule<T, string>>)
  {
    S in Ids(Rs) && forall k :: 0 <= k < |Fs| ==> Fs[k] in Ids(Rs)
  }

  /** `d` is the automaton `(S, Fs, Rs)` with its states numbered by first
      appearance in the rules, the source of each rule before its target. */
  ghost predicate FirstNumbered<T>(S: T, Fs: seq<T>, Rs: seq<Rule<T, string>>, d: PyDfa)
  {
    d.Rs == MapRules(Rs, Pos(FirstSeen(Rs))) && d.S == IndexOf(FirstSeen(Rs), S) &&
    d.Fs == (set k | 0 <= k < |Fs| :: IndexOf(FirstSeen(Rs), Fs[k]))
  }

  /** What the numbering keeps of `(S, Fs, Rs)` in `d`: one number per rule
      end, the rules in the same order with the same symbols, the first rule
      still leaving the start, determinism, and the language. */
  ghost predicate NumberedAs<T>(S: T, Fs: seq<T>, Rs: seq<Rule<T, string>>, d: PyDfa)
  {
    d.numStates == |Ids(Rs)| && |d.Rs| == |Rs| &&
    (forall x :: x in States(d.S, d.Fs, d.Rs) ==> 0 <= x < d.numStates) &&
    (forall k :: 0 <= k < |Rs| ==> d.Rs[k].a == Rs[k].a) &&
    (|Rs| > 0 && Rs[0].p == S ==> d.Rs[0].p == d.S) &&
    (DetLike(Rs, Empty) ==> DetLike(d.Rs, Empty)) &&
    Lang(d) == DfaLang(Rs, Empty, S, Elems(Fs))
  }

  /** `DFA(S, Fs, Rs)`: number the rule ends by first appearance, then look up
      the start and the accepting states.  It fails, with the `ValueError` of
      `states.index`, exactly when one of them is not a rule end. */
  method Init<T(==)>(S: T, Fs: seq<T>, Rs: seq<Rule<T, string>>) returns (r: Result<PyDfa, ParseError>)
    ensures r.Err? <==> !Listed(S, Fs, Rs)
    ensures r.Err? ==> r.error == StateNotFound
    ensures r.Ok? ==> FirstNumbered(S, Fs, Rs, r.value) && NumberedAs(S, Fs, Rs, r.value)
  {
    var states, R := Renumber.Renumber(Rs);
    IndexOfIn(states, S);
    var s := IndexOf(states, S);
    if s == |states| {
      return Err(StateNotFound);
    }
    var found := IndexAll(states, Fs);
    if found.None? {
      return Err(StateNotFound);
    }
    var F := found.value;
    var d := PyDfa(s, F, IntRules(R), |states|);
    IntRulesRenamed(Rs, states, R);
    InitNumbered(S, Fs, Rs, states, d);
    return Ok(d);
  }

  /** `set([states.index(s) for s in Fs])`: the positions of all of `Fs`, or
      `None` when one of them is missing (the `ValueError` of `index`). */
  method IndexAll<T(==)>(states: seq<T>, Fs: seq<T>) returns (F: Option<set<int>>)
    ensures F.None? <==> exists k :: 0 <= k < |Fs| && Fs[k] !in states
    ensures F.Some? ==> F.value == set k | 0 <= k < |Fs| :: IndexOf(states, Fs[k])
  {
    var G: set<int> := {};
    for i := 0 to |Fs|
      invariant G == set k | 0 <= k < i :: IndexOf(states, Fs[k])
      invariant forall k :: 0 <= k < i ==> Fs[k] in states
    {
      IndexOfIn(states, Fs[i]);
      var f := IndexOf(states, Fs[i]);
      if f == |states| {
        return None;
      }
      G := G + {f};
    }
    return Some(G);
  }

  lemma InitNumbered<T>(S: T, Fs: seq<T>, Rs: seq<Rule<T, string>>, states: seq<T>, d: PyDfa)
    requires Distinct(states) && Elems(states) == Ids(Rs)
    requires d.Rs == MapRules(Rs, Pos(states)) && d.S == IndexOf(states, S)
    requires d.Fs == (set k | 0 <= k < |Fs| :: IndexOf(states, Fs[k])) && d.numStates == |states|
    requires Listed(S, Fs, Rs) && states == FirstSeen(Rs)
    ensures NumberedAs(S, Fs, Rs, d)
  {
    DistinctCard(states);
    InitBelow(S, Fs, Rs, states, d);
    IndexOfOneToOne(Rs, states);
    if DetLike(Rs, Empty) {
      DetLikeRenamed(Rs, Pos(states), Empty);
    }
    InitLang(S, Fs, Rs, states, d);
  }

  lemma InitBelow<T>(S: T, Fs: seq<T>, Rs: seq<Rule<T, string>>, states: seq<T>, d: PyDfa)
    requires Elems(states) == Ids(Rs)
    requires d.Rs == MapRules(Rs, Pos(states)) && d.S == IndexOf(states, S)
    requires d.Fs == (set k | 0 <= k < |Fs| :: IndexOf(states, Fs[k])) && d.numStates == |states|
    requires Listed(S, Fs, Rs)
    ensures forall x :: x in States(d.S, d.Fs, d.Rs) ==> 0 <= x < d.numStates
  {
    IndexOfIn(states, S);
    AcceptingBelow(Fs, Rs, states, d.Fs);
    RulesBelow(Rs, states, d.Rs);
    StatesBelow(d.S, d.Fs, d.Rs, d.numStates);
  }

  lemma StatesBelow(s: int, F: set<int>, R: seq<Rule<int, string>>, n: int)
    requires 0 <= s < n && forall x :: x in F ==> 0 <= x < n
    requires forall x :: x in Ids(R) ==> 0 <= x < n
    ensures forall x :: x in States(s, F, R) ==> 0 <= x < n
  {
  }

  lemma AcceptingBelow<T>(Fs: seq<T>, Rs: seq<Rule<T, string>>, states: seq<T>, F: set<int>)
    requires Elems(states) == Ids(Rs) && forall k :: 0 <= k < |Fs| ==> Fs[k] in Ids(Rs)
    requires F == set k | 0 <= k < |Fs| :: IndexOf(states, Fs[k])
    ensures forall x :: x in F ==> 0 <= x < |states|
  {
    forall x | x in F ensures x < |states| {
      var k :| 0 <= k < |Fs| && x == IndexOf(states, Fs[k]);
      IndexOfIn(states, Fs[k]);
    }
  }

  /** Numbered rule ends are positions in the list of states. */
  lemma RulesBelow<T, A>(Rs: seq<Rule<T, A>>, states: seq<T>, R: seq<Rule<int, A>>)
    requires Elems(states) == Ids(Rs) && R == MapRules(Rs, Pos(states))
    ensures forall x :: x in Ids(R) ==> 0 <= x < |states|
  {
    forall k | 0 <= k < |Rs| ensures R[k].p < |states| && R[k].q < |states| {
      RuleBelow(Rs, states, R, k);
    }
    forall x | x in Ids(R) ensures 0 <= x < |states| {
      var r :| r in R && (x == r.p || x == r.q);
      var k :| 0 <= k < |R| && R[k] == r;
    }
  }

  lemma RuleBelow<T, A>(Rs: seq<Rule<T, A>>, states: seq<T>, R: seq<Rule<int, A>>, k: nat)
    requires Elems(states) == Ids(Rs) && R == MapRules(Rs, Pos(states)) && k < |Rs|
    ensures R[k].p < |states| && R[k].q < |states|
  {
    assert Rs[k] in Rs;
    assert R[k] == Rule(IndexOf(states, Rs[k].p), Rs[k].a, IndexOf(states, Rs[k].q));
    assert Rs[k].p in Ids(Rs) && Rs[k].q in Ids(Rs);
    IndexOfIn(states, Rs[k].p);
    IndexOfIn(states, Rs[k].q);
  }

  /** Positions in a list without repetition tell its elements apart. */
  lemma IndexOfOneToOne<T, A>(Rs: seq<Rule<T, A>>, states: seq<T>)
    requires Distinct(states) && Elems(states) == Ids(Rs)
    ensures InjectiveOn(Pos(states), Ids(Rs))
  {
    forall x, y | x in Ids(Rs) && y in Ids(Rs) && IndexOf(states, x) == IndexOf(states, y) ensures x == y {
      IndexOfInjective(states, x, y);
    }
  }

  lemma InitLang<T>(S: T, Fs: seq<T>, Rs: seq<Rule<T, string>>, states: seq<T>, d: PyDfa)
    requires Distinct(states) && Elems(states) == Ids(Rs)
    requires d.Rs == MapRules(Rs, Pos(states)) && d.S == IndexOf(states, S)
    requires d.Fs == (set k | 0 <= k < |Fs| :: IndexOf(states, Fs[k]))
    requires Listed(S, Fs, Rs)
    ensures Lang(d) == DfaLang(Rs, Empty, S, Elems(Fs))
  {
    var f := Pos(states);
    assert d.Fs == Image(Elems(Fs), f) by {
      forall g | g in Elems(Fs) ensures f(g) in d.Fs {
        var k :| 0 <= k < |Fs| && Fs[k] == g;
      }
    }
    assert States(S, Elems(Fs), Rs) == Ids(Rs);
    IndexOfOneToOne(Rs, states);
    RenamedDfaLang(Rs, f, Empty, S, Elems(Fs));
  }

  /** A state's number: its position in the list of states. */
  function Pos<T(==)>(states: seq<T>): T -> int
  {
    x => IndexOf(states, x)
  }

  /** The numbered rules, read as rules over integer states. */
  function IntRules<A>(R: seq<Rule<nat, A>>): (R': seq<Rule<int, A>>)
    ensures |R'| == |R| && forall i :: 0 <= i < |R| ==> R'[i] == Rule(R[i].p as int, R[i].a, R[i].q as int)
  {
    seq(|R|, i requires 0 <= i < |R| => Rule(R[i].p as int, R[i].a, R[i].q as int))
  }

  lemma IntRulesRenamed<T, A>(Rs: seq<Rule<T, A>>, states: seq<T>, R: seq<Rule<nat, A>>)
    requires R == MapRules(Rs, x => IndexOf(states, x))
    ensures IntRules(R) == MapRules(Rs, Pos(states))
  {
  }

  /** `e = DFA(0, {0}, [(0, '', 0)])`: the empty word only, and no move. */
  method EmptyDfa() returns (d: PyDfa)
    ensures Good(d) && !Starts(d) && Lang(d) == iset{[]}
  {
    var R := [Rule(0, Empty, 0)];
    assert Ids(R) == {0};
    var r := Init(0, [0], R);
    d := r.value;
    EmptyBuilt(d);
  }

  lemma EmptyBuilt(d: PyDfa)
    requires NumberedAs(0, [0], [Rule(0, Empty, 0)], d)
    ensures Good(d) && !Starts(d) && Lang(d) == iset{[]}
  {
    var R := [Rule(0, Empty, 0)];
    assert DetLike(R, Empty);
    assert d.Rs == [Rule(d.Rs[0].p, Empty, d.Rs[0].q)];
    LoopLang<int, string>(0, Empty);
    assert Elems([0]) == {0};
  }

  /** `DFA(0, {1}, [(0, a, 1)])` for a character `a` of the pattern: the
      one-symbol word `a` only, with a move from the start. */
  method LitDfa(c: char) returns (d: PyDfa)
    ensures Good(d) && Starts(d) && Lang(d) == iset{[[c]]}
  {
    var a: string := [c];
    assert a != Empty by {
      assert |a| == 1;
    }
    var R := [Rule(0, a, 1)];
    assert Ids(R) == {0, 1};
    var r := Init(0, [1], R);
    d := r.value;
    LitBuilt(a, d);
  }

  lemma LitBuilt(a: string, d: PyDfa)
    requires a != Empty && NumberedAs(0, [1], [Rule(0, a, 1)], d)
    ensures Good(d) && Starts(d) && Lang(d) == iset{[a]}
  {
    var R := [Rule(0, a, 1)];
    assert DetLike(R, Empty);
    assert d.Rs[0] in d.Rs && d.Rs[0].p == d.S && d.Rs[0].a == a;
    EdgeLang<int, string>(0, a, 1, Empty);
    assert Elems([1]) == {1};
  }

  // ------------------------------------------------------------- pclone

  /** Adding `k` to every state. */
  function ShiftBy(k: int): int -> int
  {
    x => x + k
  }

  ghost function Moved(X: set<int>, k: int): set<int>
  {
    Image(X, ShiftBy(k))
  }

  /** `pclone(offset)`: the start, accepting states and rules with `offset`
      added to every state.  The copy accepts the same words, occupies the
      shifted states, and moves from its start exactly when the original does. */
  method PClone(d: PyDfa, offset: int) returns (S: int, Fs: set<int>, Rs: seq<Rule<int, string>>)
    ensures S == d.S + offset && Fs == Moved(d.Fs, offset) && Rs == MapRules(d.Rs, ShiftBy(offset))
    ensures States(S, Fs, Rs) == Moved(States(d.S, d.Fs, d.Rs), offset)
    ensures DetLike(d.Rs, Empty) ==> DetLike(Rs, Empty)
    ensures DfaLang(Rs, Empty, S, Fs) == Lang(d)
    ensures Moves(Rs, Empty, {S}) <==> Starts(d)
  {
    S := d.S + offset;
    Fs := set f | f in d.Fs :: f + offset;
    assert Fs == Moved(d.Fs, offset);
    Rs := [];
    for i := 0 to |d.Rs|
      invariant |Rs| == i
      invariant forall j :: 0 <= j < i ==> Rs[j] == Rule(d.Rs[j].p + offset, d.Rs[j].a, d.Rs[j].q + offset)
    {
      Rs := Rs + [Rule(d.Rs[i].p + offset, d.Rs[i].a, d.Rs[i].q + offset)];
    }
    ShiftStates(d, offset, S, Fs, Rs);
    ShiftDet(d, offset, S, Fs, Rs);
    ShiftLang(d, offset, S, Fs, Rs);
    ShiftMoves(d, offset, S, Fs, Rs);
  }

  lemma ShiftStates(d: PyDfa, offset: int, S: int, Fs: set<int>, Rs: seq<Rule<int, string>>)
    requires S == d.S + offset && Fs == Moved(d.Fs, offset) && Rs == MapRules(d.Rs, ShiftBy(offset))
    ensures States(S, Fs, Rs) == Moved(States(d.S, d.Fs, d.Rs), offset)
  {
    var f := ShiftBy(offset);
    assert f(d.S) == S;
    StatesRenamed(d.Rs, f, d.S, d.Fs);
  }
  lemma ShiftDet(d: PyDfa, offset: int, S: int, Fs: set<int>, Rs: seq<Rule<int, string>>)
    requires S == d.S + offset && Fs == Moved(d.Fs, offset) && Rs == MapRules(d.Rs, ShiftBy(offset))
    ensures DetLike(d.Rs, Empty) ==> DetLike(Rs, Empty)
  {
    var f := ShiftBy(offset);
    if DetLike(d.Rs, Empty) {
      DetLikeRenamed(d.Rs, f, Empty);
    }
  }
  lemma ShiftLang(d: PyDfa, offset: int, S: int, Fs: set<int>, Rs: seq<Rule<int, string>>)
    requires S == d.S + offset && Fs == Moved(d.Fs, offset) && Rs == MapRules(d.Rs, ShiftBy(offset))
    ensures DfaLang(Rs, Empty, S, Fs) == Lang(d)
  {
    var f := ShiftBy(offset);
    assert InjectiveOn(f, States(d.S, d.Fs, d.Rs)) by {
      forall x, y | f(x) == f(y) ensures x == y {
      }
    }
    assert f(d.S) == S;
    RenamedDfaLang(d.Rs, f, Empty, d.S, d.Fs);
  }
  lemma ShiftMoves(d: PyDfa, offset: int, S: int, Fs: set<int>, Rs: seq<Rule<int, string>>)
    requires S == d.S + offset && Rs == MapRules(d.Rs, ShiftBy(offset))
    ensures Moves(Rs, Empty, {S}) <==> Starts(d)
  {
    if Moves(Rs, Empty, {S}) {
      var r :| r in Rs && r.a != Empty && r.p in {S};
      var k :| 0 <= k < |Rs| && Rs[k] == r;
      ShiftedRule(d, offset, Rs, k);
    }
    if Starts(d) {
      var r :| r in d.Rs && r.a != Empty && r.p in {d.S};
      var k :| 0 <= k < |d.Rs| && d.Rs[k] == r;
      ShiftedRule(d, offset, Rs, k);
    }
  }

  lemma ShiftedRule(d: PyDfa, offset: int, Rs: seq<Rule<int, string>>, k: nat)
    requires Rs == MapRules(d.Rs, ShiftBy(offset)) && k < |d.Rs|
    ensures d.Rs[k] in d.Rs && Rs[k] in Rs
    ensures Rs[k].p == d.Rs[k].p + offset && Rs[k].a == d.Rs[k].a
  {
  }

  // ----------------------------------------------------------- from_NFA

  /** `from_NFA(S, Fs, Rs)`: the subset construction, then the constructor on
      the groups.  It fails exactly when the start closure has no move (no
      rule is emitted, so `states.index(S_)` raises); otherwise the result has
      the language of the nondeterministic automaton and a move from its start. */
  method FromNfa(S: int, Fs: set<int>, Rs: seq<Rule<int, string>>) returns (r: Result<PyDfa, ParseError>)
    ensures r.Ok? <==> Moves(Rs, Empty, Cl(Rs, Empty, {S}))
    ensures r.Err? ==> r.error == StateNotFound
    ensures r.Ok? ==> Good(r.value) && Starts(r.value) && Lang(r.value) == NfaLang(Rs, Empty, S, Fs)
  {
    var s0, FG, RG := Determinize(Rs, Empty, S, Fs);
    GroupsListed(s0, FG, RG);
    r := Init(s0, FG, RG);
    if r.Ok? {
      assert RG[0] in RG;
      GroupsKept(s0, FG, RG, r.value);
    }
  }

  /** The start group and the accepting groups of a subset construction that
      emits a rule are rule ends. */
  lemma GroupsListed(s0: set<int>, FG: seq<set<int>>, RG: seq<Rule<set<int>, string>>)
    requires forall g :: g in FG ==> g in Groups(s0, RG)
    requires |RG| > 0 ==> RG[0].p == s0
    ensures |RG| > 0 ==> Listed(s0, FG, RG)
  {
    if |RG| > 0 {
      assert RG[0] in RG;
      forall k | 0 <= k < |FG| ensures FG[k] in Ids(RG) {
        assert FG[k] in FG;
        if FG[k] != s0 {
          var q :| q in RG && q.q == FG[k];
        }
      }
    }
  }

  /** The numbered automaton of a subset construction is deterministic, has a
      move from its start, and keeps the language of the groups. */
  lemma GroupsKept(s0: set<int>, FG: seq<set<int>>, RG: seq<Rule<set<int>, string>>, d: PyDfa)
    requires NoDupPairs(RG) && (forall r :: r in RG ==> r.a != Empty) && |RG| > 0 && RG[0].p == s0
    requires NumberedAs(s0, FG, RG, d)
    ensures Good(d) && Starts(d) && Lang(d) == DfaLang(RG, Empty, s0, Elems(FG))
  {
    NoDupPairsFunctional(RG);
    assert EpsLoopsOnly(RG, Empty);
    assert DetLike(RG, Empty);
    assert RG[0] in RG && d.Rs[0] in d.Rs;
  }

  /** `for f in Fs_: Rs_.append([f, '', q])`: one empty move from every state
      of the set to `q`, in the order the set is visited, which is any order. */
  method EpsRulesTo(F: set<int>, q: int) returns (rs: seq<Rule<int, string>>)
    ensures forall r :: r in rs <==> r.p in F && r.a == Empty && r.q == q
  {
    rs := [];
    var rest := F;
    while rest != {}
      invariant rest <= F
      invariant forall r :: r in rs <==> r.p in F - rest && r.a == Empty && r.q == q
      decreases |rest|
    {
      Inhabited(rest);
      var f :| f in rest;
      rs := rs + [Rule(f, Empty, q)];
      rest := rest - {f};
    }
  }

  /** A set that is not empty has an element. */
  lemma Inhabited(X: set<int>)
    requires X != {}
    ensures exists x :: x in X
  {
    if forall x :: x !in X {
      assert false;
    }
  }

  // -------------------------------------------------------- combinators

  /** `kleene_star()`: the fresh start `-1`, which also accepts, and an empty
      move from it and from every accepting state to the old start.  It fails
      exactly when the operand has no move from its start; otherwise it accepts
      the star of the operand's language. */
  method KleeneStar(d: PyDfa) returns (r: Result<PyDfa, ParseError>)
    ensures r.Err? ==> r.error == StateNotFound
    ensures Good(d) ==> (r.Ok? <==> Starts(d))
    ensures Good(d) && r.Ok? ==> Good(r.value) && Starts(r.value) && Lang(r.value) == StarL(Lang(d))
  {
    var S := -1;
    var F := d.Fs + {S};
    var back := EpsRulesTo(F, d.S);
    var R := d.Rs + back;
    r := FromNfa(S, F, R);
    if Good(d) {
      StarBuilt(d, back, R);
    }
  }

  lemma StarBuilt(d: PyDfa, back: seq<Rule<int, string>>, R: seq<Rule<int, string>>)
    requires Good(d) && R == d.Rs + back
    requires forall r :: r in back <==> r.p in d.Fs + {-1} && r.a == Empty && r.q == d.S
    ensures NfaLang(R, Empty, -1, d.Fs + {-1}) == StarL(Lang(d))
    ensures Moves(R, Empty, Cl(R, Empty, {-1})) <==> Starts(d)
  {
    assert -1 !in States(d.S, d.Fs, d.Rs);
    assert Rule(-1, Empty, d.S) in back;
    assert forall f :: f in d.Fs ==> Rule(f, Empty, d.S) in back;
    StarLang(R, d.Rs, Empty, -1, d.S, d.Fs);
    StarClosure(R, d.Rs, Empty, -1, d.S, d.Fs, -1);
    if Moves(R, Empty, {-1, d.S}) {
      var r :| r in R && r.a != Empty && r.p in {-1, d.S};
      assert r in d.Rs && r.p in States(d.S, d.Fs, d.Rs);
    }
    if Starts(d) {
      var r :| r in d.Rs && r.a != Empty && r.p in {d.S};
      assert r in R;
    }
  }

  /** The clone at offset `num_states` lies above the states of the left operand. */
  lemma PyApart(d: PyDfa, o: PyDfa, So: int, Fo: set<int>, Ro: seq<Rule<int, string>>)
    requires Good(d) && Good(o)
    requires States(So, Fo, Ro) == Moved(States(o.S, o.Fs, o.Rs), d.numStates)
    ensures States(d.S, d.Fs, d.Rs) !! States(So, Fo, Ro)
    ensures forall y :: y in States(So, Fo, Ro) ==> y >= d.numStates
  {
  }

  /** `concatenation(other)`: clone `other` at offset `num_states`, keep this
      start, take the clone's accepting states, and add an empty move from
      every accepting state of this automaton to the clone's start.  It fails
      exactly when neither this start nor, when this start accepts, the other
      start has a move; otherwise it accepts the concatenation. */
  method Concatenation(d: PyDfa, o: PyDfa) returns (r: Result<PyDfa, ParseError>)
    ensures r.Err? ==> r.error == StateNotFound
    ensures Good(d) && Good(o) ==> (r.Ok? <==> Starts(d) || (d.S in d.Fs && Starts(o)))
    ensures Good(d) && Good(o) && r.Ok? ==> Good(r.value) && Starts(r.value) && Lang(r.value) == CatL(Lang(d), Lang(o))
  {
    var So, Fo, Ro := PClone(o, d.numStates);
    var bridge := EpsRulesTo(d.Fs, So);
    var R := d.Rs + Ro + bridge;
    r := FromNfa(d.S, Fo, R);
    if Good(d) && Good(o) {
      CatBuilt(d, o, So, Fo, Ro, bridge, R);
    }
  }

  lemma CatBuilt(d: PyDfa, o: PyDfa, So: int, Fo: set<int>, Ro: seq<Rule<int, string>>,
                 bridge: seq<Rule<int, string>>, R: seq<Rule<int, string>>)
    requires Good(d) && Good(o)
    requires States(So, Fo, Ro) == Moved(States(o.S, o.Fs, o.Rs), d.numStates)
    requires DetLike(Ro, Empty) && DfaLang(Ro, Empty, So, Fo) == Lang(o)
    requires Moves(Ro, Empty, {So}) <==> Starts(o)
    requires forall r :: r in bridge <==> r.p in d.Fs && r.a == Empty && r.q == So
    requires R == d.Rs + Ro + bridge
    ensures NfaLang(R, Empty, d.S, Fo) == CatL(Lang(d), Lang(o))
    ensures Moves(R, Empty, Cl(R, Empty, {d.S})) <==> Starts(d) || (d.S in d.Fs && Starts(o))
  {
    PyApart(d, o, So, Fo, Ro);
    assert forall f :: f in d.Fs ==> Rule(f, Empty, So) in bridge;
    CatLang(R, d.Rs, Ro, Empty, d.S, d.Fs, So, Fo);
    CatMoves(d, o, So, Fo, Ro, bridge, R);
  }

  lemma CatMoves(d: PyDfa, o: PyDfa, So: int, Fo: set<int>, Ro: seq<Rule<int, string>>,
                 bridge: seq<Rule<int, string>>, R: seq<Rule<int, string>>)
    requires Good(d) && Good(o)
    requires States(So, Fo, Ro) == Moved(States(o.S, o.Fs, o.Rs), d.numStates)
    requires DetLike(Ro, Empty) && DfaLang(Ro, Empty, So, Fo) == Lang(o)
    requires Moves(Ro, Empty, {So}) <==> Starts(o)
    requires forall r :: r in bridge <==> r.p in d.Fs && r.a == Empty && r.q == So
    requires R == d.Rs + Ro + bridge
    requires States(d.S, d.Fs, d.Rs) !! States(So, Fo, Ro)
    requires forall f :: f in d.Fs ==> Rule(f, Empty, So) in bridge
    ensures Moves(R, Empty, Cl(R, Empty, {d.S})) <==> Starts(d) || (d.S in d.Fs && Starts(o))
  {
    CatClosure(R, d.Rs, Ro, Empty, d.S, d.Fs, So, Fo, d.S);
    CatConfined(R, d.Rs, Ro, Empty, d.S, d.Fs, So, Fo);
    var B: set<int> := if d.S in d.Fs then {So} else {};
    MovesUnion(R, Empty, {d.S}, B);
    MovesWithin(R, d.Rs, Empty, {d.S});
    if d.S in d.Fs {
      MovesWithin(R, Ro, Empty, {So});
    }
  }

  /** `alternation(other)`: clone `other` at offset `num_states`, add the fresh
      start `-1` with empty moves to both starts, and accept where either
      accepts.  It fails exactly when neither start has a move; otherwise it
      accepts the union. */
  method Alternation(d: PyDfa, o: PyDfa) returns (r: Result<PyDfa, ParseError>)
    ensures r.Err? ==> r.error == StateNotFound
    ensures Good(d) && Good(o) ==> (r.Ok? <==> Starts(d) || Starts(o))
    ensures Good(d) && Good(o) && r.Ok? ==> Good(r.value) && Starts(r.value) && Lang(r.value) == Lang(d) + Lang(o)
  {
    var So, Fo, Ro := PClone(o, d.numStates);
    var S := -1;
    var F := d.Fs + Fo;
    var R := d.Rs + Ro + [Rule(S, Empty, d.S), Rule(S, Empty, So)];
    r := FromNfa(S, F, R);
    if Good(d) && Good(o) {
      AltBuilt(d, o, So, Fo, Ro, R);
    }
  }

  lemma AltBuilt(d: PyDfa, o: PyDfa, So: int, Fo: set<int>, Ro: seq<Rule<int, string>>, R: seq<Rule<int, string>>)
    requires Good(d) && Good(o)
    requires States(So, Fo, Ro) == Moved(States(o.S, o.Fs, o.Rs), d.numStates)
    requires DetLike(Ro, Empty) && DfaLang(Ro, Empty, So, Fo) == Lang(o)
    requires Moves(Ro, Empty, {So}) <==> Starts(o)
    requires R == d.Rs + Ro + [Rule(-1, Empty, d.S), Rule(-1, Empty, So)]
    ensures NfaLang(R, Empty, -1, d.Fs + Fo) == Lang(d) + Lang(o)
    ensures Moves(R, Empty, Cl(R, Empty, {-1})) <==> Starts(d) || Starts(o)
  {
    PyApart(d, o, So, Fo, Ro);
    assert -1 !in States(d.S, d.Fs, d.Rs) + States(So, Fo, Ro);
    AltLang(R, d.Rs, Ro, Empty, -1, d.S, d.Fs, So, Fo);
    AltMoves(d, o, So, Fo, Ro, R);
  }

  lemma AltMoves(d: PyDfa, o: PyDfa, So: int, Fo: set<int>, Ro: seq<Rule<int, string>>, R: seq<Rule<int, string>>)
    requires Good(d) && Good(o)
    requires States(So, Fo, Ro) == Moved(States(o.S, o.Fs, o.Rs), d.numStates)
    requires DetLike(Ro, Empty) && DfaLang(Ro, Empty, So, Fo) == Lang(o)
    requires Moves(Ro, Empty, {So}) <==> Starts(o)
    requires R == d.Rs + Ro + [Rule(-1, Empty, d.S), Rule(-1, Empty, So)]
    requires States(d.S, d.Fs, d.Rs) !! States(So, Fo, Ro)
    requires -1 !in States(d.S, d.Fs, d.Rs) + States(So, Fo, Ro)
    ensures Moves(R, Empty, Cl(R, Empty, {-1})) <==> Starts(d) || Starts(o)
  {
    AltClosure(R, d.Rs, Ro, Empty, -1, d.S, d.Fs, So, Fo);
    AltConfined(R, d.Rs, Ro, Empty, -1, d.S, d.Fs, So, Fo);
    MovesUnion(R, Empty, {-1} + {d.S}, {So});
    MovesUnion(R, Empty, {-1}, {d.S});
    MovesWithin(R, d.Rs, Empty, {d.S});
    MovesWithin(R, Ro, Empty, {So});
    FreshStill(d.Rs, Ro, -1, d.S, So);
  }

  /** A start that no rule of either part mentions has only its two empty moves. */
  lemma FreshStill(RA: seq<Rule<int, string>>, RB: seq<Rule<int, string>>, s: int, t: int, u: int)
    requires s !in Ids(RA) && s !in Ids(RB)
    ensures !Moves(RA + RB + [Rule(s, Empty, t), Rule(s, Empty, u)], Empty, {s})
  {
    assert forall r :: r in RA ==> r.p in Ids(RA);
    assert forall r :: r in RB ==> r.p in Ids(RB);
  }

  // ------------------------------------------------------------ from_regex

  /** The syntax tree over Python symbols: a character `c` of the pattern is
      the one-character string `[c]` the automata read. */
  function MapRe(re: Re<char>): Re<string>
  {
    match re
    case Eps => Eps
    case Lit(c) => Lit([c])
    case Cat(l, r) => Cat(MapRe(l), MapRe(r))
    case Alt(l, r) => Alt(MapRe(l), MapRe(r))
    case Star(e) => Star(MapRe(e))
  }

  /** A Python string as the automata read it: one one-character string per
      character. */
  function Chars(t: seq<char>): (w: seq<string>)
    ensures |w| == |t| && forall i :: 0 <= i < |t| ==> w[i] == [t[i]]
  {
    seq(|t|, i requires 0 <= i < |t| => [t[i]])
  }

  predicate Built(vs: seq<Re<char>>)
  {
    forall k :: 0 <= k < |vs| ==> Builds(vs[k])
  }

  /** The pattern is empty, or its parse without a check succeeds and every
      tree it leaves can be built. */
  predicate PyBuilds(p: seq<char>)
  {
    |p| == 0 || (ParseStack(NoCheck, p).Ok? && Built(ParseStack(NoCheck, p).value))
  }

  /** A stack of automata against a stack of trees: each automaton is well
      formed, accepts the words of its tree, and moves from its start unless
      its tree is the empty group. */
  ghost predicate PyModels(vals: seq<PyDfa>, res: seq<Re<char>>)
  {
    |vals| == |res| &&
    forall k :: 0 <= k < |vals| ==>
      Good(vals[k]) && Builds(res[k]) && (Starts(vals[k]) <==> res[k] != Eps) &&
      Lang(vals[k]) == LangRe(MapRe(res[k]))
  }

  lemma PyModelsPush(vals: seq<PyDfa>, res: seq<Re<char>>, m: nat, d: PyDfa, re: Re<char>)
    requires PyModels(vals, res) && m <= |vals|
    requires Good(d) && Builds(re) && (Starts(d) <==> re != Eps) && Lang(d) == LangRe(MapRe(re))
    ensures PyModels(vals[..m] + [d], res[..m] + [re])
  {
  }

  /** The empty word is accepted exactly when the start accepts. */
  lemma EmptyWord(d: PyDfa)
    ensures [] in Lang(d) <==> d.S in d.Fs
  {
    assert Run(d.Rs, d.S, []) == Some(d.S);
  }

  /** `_eval(op, v_stack)`: `*` replaces the top automaton by its star; `+`
      and `|` pop the right operand, then the left one, and push their
      concatenation or alternation.  Too few operands is an error, and so is
      an operator `_eval` does not know.  An automaton that cannot be built
      is a `StateNotFound`: exactly the trees Python's check refuses. */
  method Eval(op: Op, vals: seq<PyDfa>, ghost res: seq<Re<char>>) returns (r: Result<seq<PyDfa>, ParseError>)
    requires PyModels(vals, res)
    ensures EvalRe(Builds, op, res).Err? ==> r == Err(EvalRe(Builds, op, res).error)
    ensures EvalRe(Builds, op, res).Ok? ==> r.Ok? && PyModels(r.value, EvalRe(Builds, op, res).value)
  {
    var n := |vals|;
    match op
    case StarOp =>
      if n < 1 {
        return Err(MissingOperand(op));
      }
      r := EvalStar(vals, res);
    case CatOp =>
      if n < 2 {
        return Err(MissingOperand(op));
      }
      r := EvalCat(vals, res);
    case AltOp =>
      if n < 2 {
        return Err(MissingOperand(op));
      }
      r := EvalAlt(vals, res);
    case LParen =>
      return Err(UnknownOperator);
  }

  /** `_eval('*', ...)` on a stack with an operand. */
  method EvalStar(vals: seq<PyDfa>, ghost res: seq<Re<char>>) returns (r: Result<seq<PyDfa>, ParseError>)
    requires PyModels(vals, res) && |vals| >= 1
    ensures EvalRe(Builds, StarOp, res).Err? ==> r == Err(EvalRe(Builds, StarOp, res).error)
    ensures EvalRe(Builds, StarOp, res).Ok? ==> r.Ok? && PyModels(r.value, EvalRe(Builds, StarOp, res).value)
  {
    var n := |vals|;
    var s := KleeneStar(vals[n - 1]);
    ghost var t := Star(res[n - 1]);
    if s.Err? {
      assert !Builds(t);
      return Err(s.error);
    }
    assert Builds(t) && EvalRe(Builds, StarOp, res) == Ok(res[..n - 1] + [t]);
    PyModelsPush(vals, res, n - 1, s.value, t);
    return Ok(vals[..n - 1] + [s.value]);
  }

  /** `_eval('+', ...)` on a stack with two operands. */
  method EvalCat(vals: seq<PyDfa>, ghost res: seq<Re<char>>) returns (r: Result<seq<PyDfa>, ParseError>)
    requires PyModels(vals, res) && |vals| >= 2
    ensures EvalRe(Builds, CatOp, res).Err? ==> r == Err(EvalRe(Builds, CatOp, res).error)
    ensures EvalRe(Builds, CatOp, res).Ok? ==> r.Ok? && PyModels(r.value, EvalRe(Builds, CatOp, res).value)
  {
    var n := |vals|;
    var rhs := vals[n - 1];
    var lhs := vals[n - 2];
    var c := Concatenation(lhs, rhs);
    ghost var t := Cat(res[n - 2], res[n - 1]);
    if res[n - 2] == Eps {
      EmptyWord(lhs);
    }
    if c.Err? {
      assert !Builds(t);
      return Err(c.error);
    }
    assert Builds(t) && EvalRe(Builds, CatOp, res) == Ok(res[..n - 2] + [t]);
    PyModelsPush(vals, res, n - 2, c.value, t);
    return Ok(vals[..n - 2] + [c.value]);
  }

  /** `_eval('|', ...)` on a stack with two operands. */
  method EvalAlt(vals: seq<PyDfa>, ghost res: seq<Re<char>>) returns (r: Result<seq<PyDfa>, ParseError>)
    requires PyModels(vals, res) && |vals| >= 2
    ensures EvalRe(Builds, AltOp, res).Err? ==> r == Err(EvalRe(Builds, AltOp, res).error)
    ensures EvalRe(Builds, AltOp, res).Ok? ==> r.Ok? && PyModels(r.value, EvalRe(Builds, AltOp, res).value)
  {
    var n := |vals|;
    var rhs := vals[n - 1];
    var lhs := vals[n - 2];
    var a := Alternation(lhs, rhs);
    ghost var t := Alt(res[n - 2], res[n - 1]);
    if a.Err? {
      assert !Builds(t);
      return Err(a.error);
    }
    assert Builds(t) && EvalRe(Builds, AltOp, res) == Ok(res[..n - 2] + [t]);
    PyModelsPush(vals, res, n - 2, a.value, t);
    return Ok(vals[..n - 2] + [a.value]);
  }

  // ------------------------------------------ Python's parse and the plain one

  /** Every step of the parser keeps the trees it has built inside the trees
      it builds next, so once a tree that does not build is on the stack, the
      plain parse fails or ends with such a tree. */
  lemma SpoiledSnoc(vs: seq<Re<char>>, x: Re<char>)
    requires !Built(vs)
    ensures !Built(vs + [x])
  {
    var k :| 0 <= k < |vs| && !Builds(vs[k]);
    assert (vs + [x])[k] == vs[k];
  }

  lemma EvalSpoiled(op: Op, vs: seq<Re<char>>)
    requires !Built(vs) && EvalRe(NoCheck, op, vs).Ok?
    ensures !Built(EvalRe(NoCheck, op, vs).value)
  {
    var k :| 0 <= k < |vs| && !Builds(vs[k]);
    var ws := EvalRe(NoCheck, op, vs).value;
    var m := |ws| - 1;
    if k < m {
      assert ws[k] == ws[..m][k] == vs[..m][k] == vs[k];
    } else {
      assert !Builds(ws[m]);
    }
  }

  lemma {:induction false} UnwindSpoiled(u: Until, ops: seq<Op>, vs: seq<Re<char>>)
    requires !Built(vs)
    ensures Unwind(NoCheck, u, ops, vs).Err? || !Built(Unwind(NoCheck, u, ops, vs).value.1)
    decreases |ops|
  {
    if |ops| > 0 && !Stops(u, ops[|ops| - 1]) {
      var e := EvalRe(NoCheck, ops[|ops| - 1], vs);
      if e.Ok? {
        EvalSpoiled(ops[|ops| - 1], vs);
        UnwindSpoiled(u, ops[..|ops| - 1], e.value);
      }
    }
  }

  lemma StepSpoiled(st: PState<Re<char>>, c: char)
    requires !Built(st.vals)
    ensures StepChar(NoCheck, st, c).Err? || !Built(StepChar(NoCheck, st, c).value.vals)
  {
    if c == ')' {
      var vals := if |st.ops| > 0 && st.ops[|st.ops| - 1] == LParen then st.vals + [Eps] else st.vals;
      if vals != st.vals {
        SpoiledSnoc(st.vals, Eps);
      }
      UnwindSpoiled(UntilParen, st.ops, vals);
    } else if c == '|' {
      UnwindSpoiled(UntilAlt, st.ops, st.vals);
    } else if c != '(' && c != '*' {
      if st.last {
        UnwindSpoiled(UntilLit, st.ops, st.vals);
        var u := Unwind(NoCheck, UntilLit, st.ops, st.vals);
        if u.Ok? {
          SpoiledSnoc(u.value.1, Lit(c));
        }
      } else {
        SpoiledSnoc(st.vals, Lit(c));
      }
    }
  }

  lemma {:induction false} ScanSpoiled(p: seq<char>, i: nat, st: PState<Re<char>>)
    requires i <= |p| && Scan(NoCheck, p[..i]) == Ok(st) && !Built(st.vals)
    ensures Scan(NoCheck, p).Err? || !Built(Scan(NoCheck, p).value.vals)
    decreases |p|
  {
    if i == |p| {
      assert p[..i] == p;
    } else {
      var pre := p[..|p| - 1];
      assert pre[..i] == p[..i];
      ScanSpoiled(pre, i, st);
      assert p[..|p| - 1] == pre;
      if Scan(NoCheck, pre).Ok? {
        StepSpoiled(Scan(NoCheck, pre).value, p[|p| - 1]);
      }
    }
  }

  lemma {:induction false} DrainSpoiled(ops: seq<Op>, vs: seq<Re<char>>)
    requires !Built(vs)
    ensures Drain(NoCheck, ops, vs).Err? || !Built(Drain(NoCheck, ops, vs).value)
    decreases |ops|
  {
    if |ops| > 0 && ops[|ops| - 1] != LParen {
      var e := EvalRe(NoCheck, ops[|ops| - 1], vs);
      if e.Ok? {
        EvalSpoiled(ops[|ops| - 1], vs);
        DrainSpoiled(ops[..|ops| - 1], e.value);
      }
    }
  }

  /** Where Python's check refuses a tree, the plain parse builds a tree that
      does not build. */
  lemma EvalRefused(op: Op, vs: seq<Re<char>>)
    requires EvalRe(Builds, op, vs) == Err(StateNotFound)
    ensures EvalRe(NoCheck, op, vs).Ok? && !Built(EvalRe(NoCheck, op, vs).value)
  {
    var ws := EvalRe(NoCheck, op, vs).value;
    assert !Builds(ws[|ws| - 1]);
  }

  lemma {:induction false} UnwindRefused(u: Until, ops: seq<Op>, vs: seq<Re<char>>)
    requires Unwind(Builds, u, ops, vs) == Err(StateNotFound)
    ensures Unwind(NoCheck, u, ops, vs).Err? || !Built(Unwind(NoCheck, u, ops, vs).value.1)
    decreases |ops|
  {
    var op := ops[|ops| - 1];
    EvalChecked(Builds, op, vs);
    var e := EvalRe(Builds, op, vs);
    if e.Ok? {
      UnwindRefused(u, ops[..|ops| - 1], e.value);
    } else {
      EvalRefused(op, vs);
      UnwindSpoiled(u, ops[..|ops| - 1], EvalRe(NoCheck, op, vs).value);
    }
  }

  lemma StepRefused(st: PState<Re<char>>, c: char)
    requires StepChar(Builds, st, c) == Err(StateNotFound)
    ensures StepChar(NoCheck, st, c).Err? || !Built(StepChar(NoCheck, st, c).value.vals)
  {
    if c == ')' {
      var vals := if |st.ops| > 0 && st.ops[|st.ops| - 1] == LParen then st.vals + [Eps] else st.vals;
      UnwindChecked(Builds, UntilParen, st.ops, vals);
      UnwindRefused(UntilParen, st.ops, vals);
    } else if c == '|' {
      UnwindChecked(Builds, UntilAlt, st.ops, st.vals);
      UnwindRefused(UntilAlt, st.ops, st.vals);
    } else {
      UnwindChecked(Builds, UntilLit, st.ops, st.vals);
      UnwindRefused(UntilLit, st.ops, st.vals);
      var u := Unwind(NoCheck, UntilLit, st.ops, st.vals);
      if u.Ok? {
        SpoiledSnoc(u.value.1, Lit(c));
      }
    }
  }

  lemma {:induction false} ScanRefused(p: seq<char>)
    requires Scan(Builds, p) == Err(StateNotFound)
    ensures Scan(NoCheck, p).Err? || !Built(Scan(NoCheck, p).value.vals)
    decreases |p|
  {
    var pre := p[..|p| - 1];
    ScanChecked(Builds, pre);
    if Scan(Builds, pre).Err? {
      ScanRefused(pre);
      if Scan(NoCheck, pre).Ok? {
        ScanSpoiled(p, |p| - 1, Scan(NoCheck, pre).value);
      } else {
        ScanErr(NoCheck, p, |p| - 1);
      }
    } else {
      StepRefused(Scan(Builds, pre).value, p[|p| - 1]);
    }
  }

  lemma {:induction false} DrainRefused(ops: seq<Op>, vs: seq<Re<char>>)
    requires Drain(Builds, ops, vs) == Err(StateNotFound)
    ensures Drain(NoCheck, ops, vs).Err? || !Built(Drain(NoCheck, ops, vs).value)
    decreases |ops|
  {
    var op := ops[|ops| - 1];
    EvalChecked(Builds, op, vs);
    var e := EvalRe(Builds, op, vs);
    if e.Ok? {
      DrainRefused(ops[..|ops| - 1], e.value);
    } else {
      EvalRefused(op, vs);
      DrainSpoiled(ops[..|ops| - 1], EvalRe(NoCheck, op, vs).value);
    }
  }

  /** Every tree Python's parse keeps on its stack can be built. */
  lemma EvalBuilt(op: Op, vs: seq<Re<char>>)
    requires Built(vs) && EvalRe(Builds, op, vs).Ok?
    ensures Built(EvalRe(Builds, op, vs).value)
  {
    var ws := EvalRe(Builds, op, vs).value;
    var m := |ws| - 1;
    forall k | 0 <= k < m ensures Builds(ws[k]) {
      assert ws[k] == ws[..m][k] == vs[..m][k] == vs[k];
    }
  }

  lemma {:induction false} UnwindBuilt(u: Until, ops: seq<Op>, vs: seq<Re<char>>)
    requires Built(vs) && Unwind(Builds, u, ops, vs).Ok?
    ensures Built(Unwind(Builds, u, ops, vs).value.1)
    decreases |ops|
  {
    if |ops| > 0 && !Stops(u, ops[|ops| - 1]) {
      var e := EvalRe(Builds, ops[|ops| - 1], vs);
      EvalBuilt(ops[|ops| - 1], vs);
      UnwindBuilt(u, ops[..|ops| - 1], e.value);
    }
  }

  lemma BuiltSnoc(vs: seq<Re<char>>, x: Re<char>)
    requires Built(vs) && Builds(x)
    ensures Built(vs + [x])
  {
  }

  lemma StepBuilt(st: PState<Re<char>>, c: char)
    requires Built(st.vals) && StepChar(Builds, st, c).Ok?
    ensures Built(StepChar(Builds, st, c).value.vals)
  {
    if c == ')' {
      var vals := if |st.ops| > 0 && st.ops[|st.ops| - 1] == LParen then st.vals + [Eps] else st.vals;
      BuiltSnoc(st.vals, Eps);
      UnwindBuilt(UntilParen, st.ops, vals);
    } else if c == '|' {
      UnwindBuilt(UntilAlt, st.ops, st.vals);
    } else if c != '(' && c != '*' {
      if st.last {
        UnwindBuilt(UntilLit, st.ops, st.vals);
        BuiltSnoc(Unwind(Builds, UntilLit, st.ops, st.vals).value.1, Lit(c));
      } else {
        BuiltSnoc(st.vals, Lit(c));
      }
    }
  }

  lemma {:induction false} ScanBuilt(p: seq<char>)
    requires Scan(Builds, p).Ok?
    ensures Built(Scan(Builds, p).value.vals)
    decreases |p|
  {
    if |p| > 0 {
      var pre := p[..|p| - 1];
      ScanBuilt(pre);
      StepBuilt(Scan(Builds, pre).value, p[|p| - 1]);
    }
  }

  lemma {:induction false} DrainBuilt(ops: seq<Op>, vs: seq<Re<char>>)
    requires Built(vs) && Drain(Builds, ops, vs).Ok?
    ensures Built(Drain(Builds, ops, vs).value)
    decreases |ops|
  {
    if |ops| > 0 {
      var e := EvalRe(Builds, ops[|ops| - 1], vs);
      EvalBuilt(ops[|ops| - 1], vs);
      DrainBuilt(ops[..|ops| - 1], e.value);
    }
  }

  /** Python's parse succeeds exactly when the plain parse succeeds and every
      tree it leaves can be built; then both leave the same stack. */
  lemma PyParseBuilds(p: seq<char>)
    ensures PyParse(p).Ok? <==> PyBuilds(p)
    ensures |p| > 0 && PyParse(p).Ok? ==> ParseStack(Builds, p) == ParseStack(NoCheck, p)
  {
    if |p| > 0 {
      ParseChecked(Builds, p);
      var s := Scan(Builds, p);
      if s.Ok? {
        ScanBuilt(p);
        ScanChecked(Builds, p);
        var d := Drain(Builds, s.value.ops, s.value.vals);
        if d.Ok? {
          DrainBuilt(s.value.ops, s.value.vals);
        } else if d.error == StateNotFound {
          DrainRefused(s.value.ops, s.value.vals);
        }
      } else if s.error == StateNotFound {
        ScanRefused(p);
        var t := Scan(NoCheck, p);
        if t.Ok? {
          DrainSpoiled(t.value.ops, t.value.vals);
        }
      }
    }
  }

  // ------------------------------------------------------- the parser loop

  /** The loops `while op_s and op_s[-1] ...: DFA._eval(op_s.pop(), dfa_s)`. */
  method UnwindDfa(u: Until, ops: seq<Op>, vals: seq<PyDfa>, ghost res: seq<Re<char>>)
    returns (r: Result<(seq<Op>, seq<PyDfa>), ParseError>)
    requires PyModels(vals, res)
    ensures Unwind(Builds, u, ops, res).Err? ==> r == Err(Unwind(Builds, u, ops, res).error)
    ensures Unwind(Builds, u, ops, res).Ok? ==>
              r.Ok? && r.value.0 == Unwind(Builds, u, ops, res).value.0 &&
              PyModels(r.value.1, Unwind(Builds, u, ops, res).value.1)
  {
    var os, vs := ops, vals;
    ghost var rs := res;
    while |os| > 0 && !Stops(u, os[|os| - 1])
      invariant PyModels(vs, rs) && Unwind(Builds, u, os, rs) == Unwind(Builds, u, ops, res)
      decreases |os|
    {
      var e := Eval(os[|os| - 1], vs, rs);
      if e.Err? {
        return Err(e.error);
      }
      vs, rs := e.value, EvalRe(Builds, os[|os| - 1], rs).value;
      os := os[..|os| - 1];
    }
    return Ok((os, vs));
  }

  /** The parser state between two characters: operator stack, automaton
      stack and `is_last_tk_dfa`, against the same state on trees. */
  ghost predicate Mirrors(ops: seq<Op>, vals: seq<PyDfa>, last: bool, st: PState<Re<char>>)
  {
    ops == st.ops && last == st.last && PyModels(vals, st.vals)
  }

  /** `e`, shared by every empty group: the empty word only, no move. */
  ghost predicate IsE(e: PyDfa)
  {
    Good(e) && !Starts(e) && Lang(e) == LangRe(MapRe(Eps))
  }

  /** The `)` branch of `from_regex`: an empty group `()` pushes `e`; then
      evaluate back to the `(`, which is popped, or fail for want of one. */
  method CloseDfa(ops: seq<Op>, vals: seq<PyDfa>, last: bool, e: PyDfa, ghost st: PState<Re<char>>)
    returns (r: Result<(seq<Op>, seq<PyDfa>, bool), ParseError>)
    requires IsE(e) && Mirrors(ops, vals, last, st)
    ensures StepChar(Builds, st, ')').Err? ==> r == Err(StepChar(Builds, st, ')').error)
    ensures StepChar(Builds, st, ')').Ok? ==>
              r.Ok? && Mirrors(r.value.0, r.value.1, r.value.2, StepChar(Builds, st, ')').value)
  {
    if |ops| > 0 && ops[|ops| - 1] == LParen {
      PyModelsPush(vals, st.vals, |vals|, e, Eps);
      assert vals[..|vals|] == vals && st.vals[..|vals|] == st.vals;
      r := PopGroup(ops, vals + [e], last, st.vals + [Eps]);
    } else {
      r := PopGroup(ops, vals, last, st.vals);
    }
  }

  /** The rest of the `)` branch once an empty group has its operand:
      evaluate down to the `(` and pop it. */
  method PopGroup(ops: seq<Op>, vs: seq<PyDfa>, last: bool, ghost rs: seq<Re<char>>)
    returns (r: Result<(seq<Op>, seq<PyDfa>, bool), ParseError>)
    requires PyModels(vs, rs)
    ensures GroupClosed(Unwind(Builds, UntilParen, ops, rs), last).Err? ==> r == Err(GroupClosed(Unwind(Builds, UntilParen, ops, rs), last).error)
    ensures GroupClosed(Unwind(Builds, UntilParen, ops, rs), last).Ok? ==>
              r.Ok? && Mirrors(r.value.0, r.value.1, r.value.2, GroupClosed(Unwind(Builds, UntilParen, ops, rs), last).value)
  {
    var u := UnwindDfa(UntilParen, ops, vs, rs);
    if u.Err? {
      return Err(u.error);
    }
    var os := u.value.0;
    if |os| > 0 && os[|os| - 1] == LParen {
      return Ok((os[..|os| - 1], u.value.1, last));
    }
    return Err(MissingLeftParen);
  }

  /** The literal branch of `from_regex`: after an operand, evaluate pending
      stars and push a `+`; then push the automaton of the character. */
  method LiteralDfa(ops: seq<Op>, vals: seq<PyDfa>, last: bool, c: char, ghost st: PState<Re<char>>)
    returns (r: Result<(seq<Op>, seq<PyDfa>, bool), ParseError>)
    requires c !in "()|*" && Mirrors(ops, vals, last, st)
    ensures StepChar(Builds, st, c).Err? ==> r == Err(StepChar(Builds, st, c).error)
    ensures StepChar(Builds, st, c).Ok? ==>
              r.Ok? && Mirrors(r.value.0, r.value.1, r.value.2, StepChar(Builds, st, c).value)
  {
    var d := LitDfa(c);
    if last {
      var u := UnwindDfa(UntilLit, ops, vals, st.vals);
      if u.Err? {
        return Err(u.error);
      }
      ghost var g := Unwind(Builds, UntilLit, st.ops, st.vals).value.1;
      PyModelsPush(u.value.1, g, |g|, d, Lit(c));
      assert u.value.1[..|g|] == u.value.1 && g[..|g|] == g;
      return Ok((u.value.0 + [CatOp], u.value.1 + [d], true));
    }
    PyModelsPush(vals, st.vals, |vals|, d, Lit(c));
    assert vals[..|vals|] == vals && st.vals[..|vals|] == st.vals;
    return Ok((ops, vals + [d], true));
  }

  /** The body of the loop of `from_regex` for one character `c`. */
  method StepDfa(ops: seq<Op>, vals: seq<PyDfa>, last: bool, c: char, e: PyDfa, ghost st: PState<Re<char>>)
    returns (r: Result<(seq<Op>, seq<PyDfa>, bool), ParseError>)
    requires IsE(e) && Mirrors(ops, vals, last, st)
    ensures StepChar(Builds, st, c).Err? ==> r == Err(StepChar(Builds, st, c).error)
    ensures StepChar(Builds, st, c).Ok? ==>
              r.Ok? && Mirrors(r.value.0, r.value.1, r.value.2, StepChar(Builds, st, c).value)
  {
    if c == '(' {
      var os := if last then ops + [CatOp] else ops;
      return Ok((os + [LParen], vals, false));
    } else if c == ')' {
      r := CloseDfa(ops, vals, last, e, st);
    } else if c == '|' {
      var u := UnwindDfa(UntilAlt, ops, vals, st.vals);
      if u.Err? {
        return Err(u.error);
      }
      return Ok((u.value.0 + [AltOp], u.value.1, false));
    } else if c == '*' {
      return Ok((ops + [StarOp], vals, last));
    } else {
      r := LiteralDfa(ops, vals, last, c, st);
    }
  }

  /** The final loop of `from_regex`: a `(` left on the stack is a missing `)`;
      every other operator is evaluated. */
  method DrainDfa(ops: seq<Op>, vals: seq<PyDfa>, ghost res: seq<Re<char>>) returns (r: Result<seq<PyDfa>, ParseError>)
    requires PyModels(vals, res)
    ensures Drain(Builds, ops, res).Err? ==> r == Err(Drain(Builds, ops, res).error)
    ensures Drain(Builds, ops, res).Ok? ==> r.Ok? && PyModels(r.value, Drain(Builds, ops, res).value)
  {
    var os, vs := ops, vals;
    ghost var rs := res;
    while |os| > 0
      invariant PyModels(vs, rs) && Drain(Builds, os, rs) == Drain(Builds, ops, res)
      decreases |os|
    {
      if os[|os| - 1] == LParen {
        return Err(MissingRightParen);
      }
      var v := Eval(os[|os| - 1], vs, rs);
      if v.Err? {
        return Err(v.error);
      }
      vs, rs := v.value, EvalRe(Builds, os[|os| - 1], rs).value;
      os := os[..|os| - 1];
    }
    return Ok(vs);
  }

  /** `from_regex(regex)`: the empty pattern gives `e`; otherwise one pass over
      the characters with the two stacks, then the final loop, and the
      automaton at the bottom of the stack.  It fails exactly when Python's
      parse does, with the same error: a parse error of the pattern, or the
      `StateNotFound` of the first automaton that cannot be built.  Otherwise
      the automaton accepts the words of the tree at the bottom. */
  method FromRegex(regex: string) returns (r: Result<PyDfa, ParseError>)
    ensures PyParse(regex).Err? ==> r == Err(PyParse(regex).error)
    ensures PyParse(regex).Ok? ==> r.Ok? && Good(r.value) && Lang(r.value) == LangRe(MapRe(PyParse(regex).value))
  {
    var e := EmptyDfa();
    if |regex| == 0 {
      return Ok(e);
    }
    var ops: seq<Op>, vals: seq<PyDfa>, last := [], [], false;
    ghost var st: PState<Re<char>> := PState([], [], false);
    for i := 0 to |regex|
      invariant Scan(Builds, regex[..i]) == Ok(st) && Mirrors(ops, vals, last, st)
    {
      var step := StepDfa(ops, vals, last, regex[i], e, st);
      ScanSnoc(Builds, regex, i);
      if step.Err? {
        ScanErr(Builds, regex, i + 1);
        return Err(step.error);
      }
      ops, vals, last := step.value.0, step.value.1, step.value.2;
      st := StepChar(Builds, st, regex[i]).value;
    }
    assert regex[..|regex|] == regex;
    var d := DrainDfa(ops, vals, st.vals);
    if d.Err? {
      return Err(d.error);
    }
    BottomModels(regex, d.value);
    return Ok(d.value[0]);
  }

  /** The automaton at the bottom of the drained stack models the tree Python
      returns. */
  lemma BottomModels(p: string, ds: seq<PyDfa>)
    requires |p| > 0 && ParseStack(Builds, p).Ok? && PyModels(ds, ParseStack(Builds, p).value)
    ensures |ds| > 0 && PyParse(p) == Ok(ParseStack(Builds, p).value[0])
    ensures Good(ds[0]) && Lang(ds[0]) == LangRe(MapRe(PyParse(p).value))
  {
  }

  // ---------------------------------------------------- strings and symbols

  /** Reading a string one character at a time as one-character strings
      keeps exactly the words of the pattern's tree. */
  lemma {:induction false} CharsLang(re: Re<char>, t: seq<char>)
    ensures Chars(t) in LangRe(MapRe(re)) <==> t in LangRe(re)
    decreases re, 0, 0
  {
    match re
    case Eps =>
    case Lit(c) =>
      if Chars(t) == [[c]] {
        assert |t| == 1 && Chars(t)[0] == [t[0]] == [c];
        assert t == [c];
      }
      if t == [c] {
        assert Chars(t) == [[c]];
      }
    case Cat(l, r) =>
      if Chars(t) in LangRe(MapRe(re)) {
        var k :| 0 <= k <= |t| && Chars(t)[..k] in LangRe(MapRe(l)) && Chars(t)[k..] in LangRe(MapRe(r));
        CharsSplit(t, k);
        CharsLang(l, t[..k]);
        CharsLang(r, t[k..]);
      }
      if t in LangRe(re) {
        var k :| 0 <= k <= |t| && t[..k] in LangRe(l) && t[k..] in LangRe(r);
        CharsSplit(t, k);
        CharsLang(l, t[..k]);
        CharsLang(r, t[k..]);
      }
    case Alt(l, r) =>
      CharsLang(l, t);
      CharsLang(r, t);
    case Star(e) =>
      CharsStar(e, t);
  }

  lemma {:induction false} CharsStar(e: Re<char>, t: seq<char>)
    ensures InStar(LangRe(MapRe(e)), Chars(t)) <==> InStar(LangRe(e), t)
    decreases e, 1, |t|
  {
    if |t| > 0 {
      if InStar(LangRe(MapRe(e)), Chars(t)) {
        var k :| 1 <= k <= |Chars(t)| && Chars(t)[..k] in LangRe(MapRe(e)) && InStar(LangRe(MapRe(e)), Chars(t)[k..]);
        CharsSplit(t, k);
        CharsLang(e, t[..k]);
        CharsStar(e, t[k..]);
      }
      if InStar(LangRe(e), t) {
        var k :| 1 <= k <= |t| && t[..k] in LangRe(e) && InStar(LangRe(e), t[k..]);
        CharsSplit(t, k);
        CharsLang(e, t[..k]);
        CharsStar(e, t[k..]);
      }
    }
  }

  lemma CharsSplit(t: seq<char>, k: nat)
    requires k <= |t|
    ensures Chars(t)[..k] == Chars(t[..k]) && Chars(t)[k..] == Chars(t[k..])
  {
  }

  /** A string read as symbols holds no empty-move symbol. */
  lemma CharsNoEps(t: seq<char>)
    ensures NoEps(Empty, Chars(t))
  {
    forall i | 0 <= i < |t| ensures Chars(t)[i] != Empty {
      assert |Chars(t)[i]| == 1;
    }
  }

  // ----------------------------------------------------------- matching

  /** `compile(pattern)`. */
  method Compile(pattern: string) returns (r: Result<PyDfa, ParseError>)
    ensures PyParse(pattern).Err? ==> r == Err(PyParse(pattern).error)
    ensures PyParse(pattern).Ok? ==> r.Ok? && Lang(r.value) == LangRe(MapRe(PyParse(pattern).value))
  {
    r := FromRegex(pattern);
  }

  /** `__call__(tape)`: reset, advance over the characters until trapped, and
      accept when the final state accepts: the tape read as symbols is a word
      of the automaton. */
  method Call(d: PyDfa, tape: string) returns (b: bool)
    ensures b <==> Chars(tape) in Lang(d)
  {
    var m := new Matcher(d.S, d.Fs, d.Rs);
    b := m.Call(Chars(tape));
    CharsNoEps(tape);
  }

  /** `DFA.match(string)`: the same as calling the automaton. */
  method DfaMatch(d: PyDfa, s: string) returns (b: bool)
    ensures b <==> Chars(s) in Lang(d)
  {
    b := Call(d, s);
  }

  /** `match(pattern, string)`: compile, then run the automaton on the string.
      It fails exactly when Python's parse does, with its error, and otherwise
      tells whether the string is a word of the pattern's tree. */
  method Match(pattern: string, s: string) returns (r: Result<bool, ParseError>)
    ensures PyParse(pattern).Err? ==> r == Err(PyParse(pattern).error)
    ensures PyParse(pattern).Ok? ==> r.Ok? && (r.value <==> s in LangRe(PyParse(pattern).value))
  {
    var c := Compile(pattern);
    if c.Err? {
      return Err(c.error);
    }
    var b := Call(c.value, s);
    CharsLang(PyParse(pattern).value, s);
    return Ok(b);
  }
}
