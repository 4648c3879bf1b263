/** The C++ `RegEx::DFA`: automata over `char` whose states are unsigned
    numbers, with `'\0'` as the empty-move symbol.  Every combinator builds a
    nondeterministic automaton in the Thompson style and hands it to
    `from_NFA`, which runs the subset construction and renumbers the groups.
    `from_regex` drives the combinators with the operator-precedence parser
    of `RegexSyntax`; the state of a compiled automaton (current state,
    trapped flag) is an `Automata.Matcher`. */
module CppRegEx {
  import opened Automata
  import opened Nfa
  import opened Languages
  import opened Subset
  import opened Thompson
  import opened Renumber
  import opened RegexSyntax
  import opened UintSets

  /** The empty-move symbol, which also ends a C string. */
  const Nul: char := '\0'

  /** A `DFA` value: start `m_s`, accepting states `m_F`, rules `m_R` and the
      state count `m_num_states` the combinators use to keep operands apart. */
  datatype Dfa = Dfa(s: nat, F: set<nat>, R: seq<Rule<nat, char>>, n: nat)

  /** The words the automaton accepts. */
  ghost function Lang(d: Dfa): iset<seq<char>>
  {
    DfaLang(d.R, Nul, d.s, d.F)
  }

  /** The shape every automaton `from_regex` builds has: its rules read as a
      deterministic automaton, and its states are at most `m_num_states` and at
      most twice the number of rules, which is what makes the fresh states of
      the combinators fresh. */
  ghost predicate Good(d: Dfa)
  {
    DetLike(d.R, Nul) &&
    forall x :: x in States(d.s, d.F, d.R) ==> x <= d.n && x <= 2 * |d.R|
  }

  // ------------------------------------------------------------ constructors

  /** The explicit constructor `DFA(s, F, R)`: keeps the parts and counts the
      distinct rule ends with a `uint_set`. */
  method NewDfa(s: nat, F: set<nat>, R: seq<Rule<nat, char>>) returns (d: Dfa)
    ensures d.s == s && d.F == F && d.R == R
    ensures d.n == |Ids(R)|
  {
    var n := 0;
    var states := new UintSet();
    for i := 0 to |R|
      invariant states.Valid() && Counted(R, i, states.Contents, n)
    {
      ghost var c0 := states.Contents;
      var seen := states.Has(R[i].p);
      if !seen {
        states.Add(R[i].p);
        n := n + 1;
      }
      ghost var c1 := states.Contents;
      seen := states.Has(R[i].q);
      if !seen {
        states.Add(R[i].q);
        n := n + 1;
      }
      CountStep(R, i, c0, c1, states.Contents, n);
    }
    assert R[..|R|] == R;
    d := Dfa(s, F, R, n);
  }

  /** The counting loop after `i` rules: the set holds their ends, and `n`
      counts them. */
  ghost predicate Counted(R: seq<Rule<nat, char>>, i: nat, seen: set<nat>, n: nat)
  {
    i <= |R| && seen == Ids(R[..i]) && n == |seen|
  }

  lemma CountStep(R: seq<Rule<nat, char>>, i: nat, c0: set<nat>, c1: set<nat>, c2: set<nat>, n: nat)
    requires i < |R|
    requires c1 == c0 + {R[i].p} && c2 == c1 + {R[i].q}
    requires n == |c0| + (if R[i].p in c0 then 0 else 1) + (if R[i].q in c1 then 0 else 1)
    requires Counted(R, i, c0, |c0|)
    ensures Counted(R, i + 1, c2, n)
  {
    IdsPrefix(R, i);
  }

  /** `e`, the automaton of the empty pattern and of `()`: one state with an
      empty-move loop, accepting the empty word only. */
  lemma EpsDfaLang(d: Dfa)
    requires d == Dfa(0, {0}, [Rule(0, Nul, 0)], 1)
    ensures Good(d) && Lang(d) == LangRe(Eps)
  {
    LoopLang<nat, char>(0, Nul);
  }

  /** The automaton of a literal `c`: accepts the one-letter word `c`. */
  lemma LitDfaLang(d: Dfa, c: char)
    requires c != Nul && d == Dfa(0, {1}, [Rule(0, c, 1)], 2)
    ensures Good(d) && Lang(d) == LangRe(Lit(c))
  {
    EdgeLang<nat, char>(0, c, 1, Nul);
  }

  // ----------------------------------------------------------------- pclone

  /** Adding `k` to every state. */
  function Shift(k: nat): nat -> nat
  {
    x => x + k
  }

  /** `pclone(offset)`: a copy of the automaton with every state raised by
      `8 * offset` (the accepting set is shifted by `offset` bytes).  The copy
      accepts the same words. */
  method PClone(d: Dfa, offset: nat) returns (s: nat, F: set<nat>, R: seq<Rule<nat, char>>)
    ensures s == d.s + 8 * offset && F == Shifted(d.F, 8 * offset)
    ensures R == MapRules(d.R, Shift(8 * offset))
    ensures States(s, F, R) == Shifted(States(d.s, d.F, d.R), 8 * offset)
    ensures DetLike(d.R, Nul) ==> DetLike(R, Nul)
    ensures DfaLang(R, Nul, s, F) == Lang(d)
  {
    var k := 8 * offset;
    s := d.s + k;
    F := set x | x in d.F :: x + k;
    R := [];
    for i := 0 to |d.R|
      invariant |R| == i
      invariant forall j :: 0 <= j < i ==> R[j] == Rule(d.R[j].p + k, d.R[j].a, d.R[j].q + k)
    {
      R := R + [Rule(d.R[i].p + k, d.R[i].a, d.R[i].q + k)];
    }
    ShiftRenames(d, offset, s, F, R);
  }

  lemma ShiftRenames(d: Dfa, offset: nat, s: nat, F: set<nat>, R: seq<Rule<nat, char>>)
    requires s == d.s + 8 * offset && F == Shifted(d.F, 8 * offset)
    requires R == MapRules(d.R, Shift(8 * offset))
    ensures States(s, F, R) == Shifted(States(d.s, d.F, d.R), 8 * offset)
    ensures DetLike(d.R, Nul) ==> DetLike(R, Nul)
    ensures DfaLang(R, Nul, s, F) == Lang(d)
  {
    var f := Shift(8 * offset);
    assert s == f(d.s);
    ShiftImage(8 * offset, d.F);
    ShiftImage(8 * offset, States(d.s, d.F, d.R));
    StatesRenamed(d.R, f, d.s, d.F);
    if DetLike(d.R, Nul) {
      ShiftImage(8 * offset, Ids(d.R));
      DetLikeRenamed(d.R, f, Nul);
    }
    RenamedDfaLang(d.R, f, Nul, d.s, d.F);
  }

  /** Raising by `k` is one-to-one, and its image is the shifted set. */
  lemma ShiftImage(k: nat, X: set<nat>)
    ensures InjectiveOn(Shift(k), X) && Image(X, Shift(k)) == Shifted(X, k)
  {
    var f := Shift(k);
    forall y | y in Shifted(X, k) ensures y in Image(X, f) {
      var x :| x in X && y == x + k;
      assert f(x) == y;
    }
  }

  // -------------------------------------------------------- empty-move rules

  /** A nonempty set of numbers has a least element. */
  lemma HasMin(X: set<nat>)
    requires X != {}
    ensures exists m :: m in X && forall y :: y in X ==> m <= y
  {
    var m := Least(X);
  }

  lemma Least(X: set<nat>) returns (m: nat)
    requires X != {}
    ensures m in X && forall y :: y in X ==> m <= y
  {
    var x :| x in X;
    if y :| y in X && y < x {
      assert y in X - {x};
      m := Least(X - {x});
      forall z | z in X ensures m <= z {
        if z != x {
          assert z in X - {x};
        } else {
          assert m <= y;
        }
      }
    } else {
      m := x;
    }
  }

  /** The loop `for (f : F) R.push_back({f, '\0', q})`: one empty move from
      every state of `F` to `q`, in the ascending order a `uint_set` visits. */
  method EpsRules(F: set<nat>, q: nat) returns (rs: seq<Rule<nat, char>>)
    ensures forall r :: r in rs <==> r.p in F && r.a == Nul && r.q == q
    ensures forall i, j :: 0 <= i < j < |rs| ==> rs[i].p < rs[j].p
  {
    rs := [];
    var rest := F;
    while rest != {}
      invariant rest <= F && EpsSoFar(F, q, rest, rs)
      decreases |rest|
    {
      HasMin(rest);
      var f :| f in rest && forall y :: y in rest ==> f <= y;
      EpsSoFarStep(F, q, rest, rs, f);
      rs := rs + [Rule(f, Nul, q)];
      rest := rest - {f};
    }
  }

  /** The rules of `EpsRules` once the states of `F - rest` are done: one empty
      move to `q` from each of them, in increasing order, all below `rest`. */
  ghost predicate EpsSoFar(F: set<nat>, q: nat, rest: set<nat>, rs: seq<Rule<nat, char>>)
  {
    (forall r :: r in rs <==> r.p in F - rest && r.a == Nul && r.q == q) &&
    (forall i, j :: 0 <= i < j < |rs| ==> rs[i].p < rs[j].p) &&
    (forall i, x :: 0 <= i < |rs| && x in rest ==> rs[i].p < x)
  }

  lemma EpsSoFarStep(F: set<nat>, q: nat, rest: set<nat>, rs: seq<Rule<nat, char>>, f: nat)
    requires rest <= F && EpsSoFar(F, q, rest, rs)
    requires f in rest && forall y :: y in rest ==> f <= y
    ensures EpsSoFar(F, q, rest - {f}, rs + [Rule(f, Nul, q)])
  {
    var rs' := rs + [Rule(f, Nul, q)];
    forall r ensures r in rs' <==> r.p in F - (rest - {f}) && r.a == Nul && r.q == q {
      assert r in rs' <==> r in rs || r == Rule(f, Nul, q);
    }
  }

  // ------------------------------------------------------------- from_NFA

  /** The constructor from state sets, `DFA(s_set, F_set, R_set)`: number the
      groups in order of first appearance in the rules, then look up the start
      and the accepting groups, where a group no rule mentions gets the number
      one past the last.  The automaton keeps its language whenever the
      accepting groups are groups of the automaton. */
  method FromGroups(s0: set<nat>, FG: seq<set<nat>>, RG: seq<Rule<set<nat>, char>>) returns (d: Dfa)
    ensures d.n == |Ids(RG)| && |d.R| == |RG|
    ensures forall x :: x in States(d.s, d.F, d.R) ==> x <= d.n && x <= 2 * |RG|
    ensures d.s == d.n <==> s0 !in Ids(RG)
    ensures NoDupPairs(RG) ==> NoDupPairs(d.R)
    ensures forall k :: 0 <= k < |RG| ==> d.R[k].a == RG[k].a
    ensures Elems(FG) <= {s0} + Ids(RG) ==> Lang(d) == DfaLang(RG, Nul, s0, Elems(FG))
    ensures d.R == MapRules(RG, x => IndexOf(FirstSeen(RG), x)) && d.s == IndexOf(FirstSeen(RG), s0)
    ensures d.F == set k | 0 <= k < |FG| :: IndexOf(FirstSeen(RG), FG[k])
  {
    var states, R := Renumber.Renumber(RG);
    var s := IndexOf(states, s0);
    var F := Positions(states, FG);
    d := Dfa(s, F, R, |states|);
    GroupsNumbered(s0, FG, RG, states, d);
  }

  /** The numbers of the accepting groups, one past the last for a group that
      is not listed. */
  method Positions(states: seq<set<nat>>, FG: seq<set<nat>>) returns (F: set<nat>)
    ensures F == set k | 0 <= k < |FG| :: IndexOf(states, FG[k])
  {
    F := {};
    for i := 0 to |FG|
      invariant F == set k | 0 <= k < i :: IndexOf(states, FG[k])
    {
      F := F + {IndexOf(states, FG[i])};
    }
  }

  lemma GroupsNumbered(s0: set<nat>, FG: seq<set<nat>>, RG: seq<Rule<set<nat>, char>>, states: seq<set<nat>>, d: Dfa)
    requires Distinct(states) && Elems(states) == Ids(RG) && |states| <= 2 * |RG|
    requires d.R == MapRules(RG, x => IndexOf(states, x)) && d.s == IndexOf(states, s0)
    requires d.F == (set k | 0 <= k < |FG| :: IndexOf(states, FG[k])) && d.n == |states|
    ensures d.n == |Ids(RG)| && |d.R| == |RG|
    ensures forall x :: x in States(d.s, d.F, d.R) ==> x <= d.n && x <= 2 * |RG|
    ensures d.s == d.n <==> s0 !in Ids(RG)
    ensures NoDupPairs(RG) ==> NoDupPairs(d.R)
    ensures forall k :: 0 <= k < |RG| ==> d.R[k].a == RG[k].a
    ensures Elems(FG) <= {s0} + Ids(RG) ==> Lang(d) == DfaLang(RG, Nul, s0, Elems(FG))
  {
    var f := x => IndexOf(states, x);
    DistinctCard(states);
    IndexOfIn(states, s0);
    NumberedBelow(RG, states, d.R);
    GroupsBound(d, |states|, 2 * |RG|);
    if NoDupPairs(RG) {
      forall x, y | x in Ids(RG) && y in Ids(RG) && f(x) == f(y) ensures x == y {
        IndexOfInjective(states, x, y);
      }
      NoDupPairsRenamed(RG, f);
    }
    if Elems(FG) <= {s0} + Ids(RG) {
      assert d.F == set g | g in Elems(FG) :: IndexOf(states, g) by {
        forall g | g in Elems(FG) ensures IndexOf(states, g) in d.F {
          var k :| 0 <= k < |FG| && FG[k] == g;
        }
      }
      RenamedLang(RG, Nul, states, s0, Elems(FG), d.F);
    }
  }

  lemma GroupsBound(d: Dfa, m: nat, b: nat)
    requires d.n == m <= b && d.s <= m && (forall x :: x in d.F ==> x <= m)
    requires forall x :: x in Ids(d.R) ==> x < m
    ensures forall x :: x in States(d.s, d.F, d.R) ==> x <= d.n && x <= b
  {
  }

  /** `from_NFA(s, F, R)`: the subset construction followed by the group
      constructor.  The result reads as a deterministic automaton with the
      language of the nondeterministic one, and has rules exactly when the
      start closure can read a symbol. */
  method FromNfa(s: nat, F: set<nat>, R: seq<Rule<nat, char>>) returns (d: Dfa)
    ensures Good(d)
    ensures Lang(d) == NfaLang(R, Nul, s, F)
    ensures |d.R| > 0 <==> Moves(R, Nul, Cl(R, Nul, {s}))
  {
    var s0, FG, RG := Determinize(R, Nul, s, F);
    d := FromGroups(s0, FG, RG);
    GroupEnds(s0, FG, RG);
    NoDupPairsFunctional(d.R);
    NoNulKept(RG, d.R);
  }

  /** Every accepting group is the start group or a rule end. */
  lemma GroupEnds(s0: set<nat>, FG: seq<set<nat>>, RG: seq<Rule<set<nat>, char>>)
    requires forall g :: g in FG ==> g in Groups(s0, RG)
    ensures Elems(FG) <= {s0} + Ids(RG)
  {
    forall g | g in Elems(FG) ensures g in {s0} + Ids(RG) {
      assert g in Groups(s0, RG);
      if g != s0 {
        var r :| r in RG && r.q == g;
      }
    }
  }

  /** Numbering the groups keeps every rule's symbol, so none is `'\0'`. */
  lemma NoNulKept(RG: seq<Rule<set<nat>, char>>, R: seq<Rule<nat, char>>)
    requires |R| == |RG| && (forall k :: 0 <= k < |RG| ==> R[k].a == RG[k].a)
    requires forall r :: r in RG ==> r.a != Nul
    ensures forall r :: r in R ==> r.a != Nul
  {
    forall r | r in R ensures r.a != Nul {
      var k :| 0 <= k < |R| && R[k] == r;
      assert RG[k] in RG;
    }
  }

  // ------------------------------------------------------------ combinators

  /** `kleene_star()`: a fresh start `2 * |m_R| + 1`, which also accepts, and
      an empty move from it and from every accepting state back to the old
      start.  The result accepts the star of the old language. */
  method KleeneStar(d: Dfa) returns (r: Dfa)
    ensures Good(r)
    ensures Good(d) ==> Lang(r) == StarL(Lang(d))
  {
    var s := |d.R| * 2 + 1;
    var F := d.F + {s};
    var back := EpsRules(F, d.s);
    var R := d.R + back;
    r := FromNfa(s, F, R);
    if Good(d) {
      StarBuilt(d, s, back, R);
    }
  }

  lemma StarBuilt(d: Dfa, s: nat, back: seq<Rule<nat, char>>, R: seq<Rule<nat, char>>)
    requires Good(d) && s == |d.R| * 2 + 1 && R == d.R + back
    requires forall r :: r in back <==> r.p in d.F + {s} && r.a == Nul && r.q == d.s
    ensures NfaLang(R, Nul, s, d.F + {s}) == StarL(Lang(d))
  {
    assert s !in States(d.s, d.F, d.R);
    assert Rule(s, Nul, d.s) in back;
    assert forall f :: f in d.F ==> Rule(f, Nul, d.s) in back;
    StarLang(R, d.R, Nul, s, d.s, d.F);
  }

  /** The offset `m_num_states / 8 + 1`, in states, lies above `m_num_states`. */
  lemma OffsetAbove(n: nat)
    ensures n < 8 * (n / 8 + 1)
  {
  }

  /** The operands of a combinator are kept apart by the offset of the clone. */
  lemma Apart(d: Dfa, o: Dfa, so: nat, Fo: set<nat>, Ro: seq<Rule<nat, char>>)
    requires Good(d)
    requires States(so, Fo, Ro) == Shifted(States(o.s, o.F, o.R), 8 * (d.n / 8 + 1))
    ensures States(d.s, d.F, d.R) !! States(so, Fo, Ro)
    ensures forall x :: x in States(d.s, d.F, d.R) ==> x < 8 * (d.n / 8 + 1)
    ensures forall y :: y in States(so, Fo, Ro) ==> y >= 8 * (d.n / 8 + 1)
  {
    OffsetAbove(d.n);
  }

  /** `concatenation(other)`: clone `other` above this automaton, keep this
      start, take the clone's accepting states, and add an empty move from
      every accepting state of this automaton to the clone's start.  The result
      accepts the words that split into a word of each. */
  method Concatenation(d: Dfa, o: Dfa) returns (r: Dfa)
    ensures Good(r)
    ensures Good(d) && Good(o) ==> Lang(r) == CatL(Lang(d), Lang(o))
  {
    var so, Fo, Ro := PClone(o, d.n / 8 + 1);
    var bridge := EpsRules(d.F, so);
    var R := d.R + Ro + bridge;
    r := FromNfa(d.s, Fo, R);
    if Good(d) && Good(o) {
      CatBuilt(d, o, so, Fo, Ro, bridge, R);
    }
  }

  lemma CatBuilt(d: Dfa, o: Dfa, so: nat, Fo: set<nat>, Ro: seq<Rule<nat, char>>,
                 bridge: seq<Rule<nat, char>>, R: seq<Rule<nat, char>>)
    requires Good(d) && Good(o)
    requires States(so, Fo, Ro) == Shifted(States(o.s, o.F, o.R), 8 * (d.n / 8 + 1))
    requires DetLike(Ro, Nul) && DfaLang(Ro, Nul, so, Fo) == Lang(o)
    requires forall r :: r in bridge <==> r.p in d.F && r.a == Nul && r.q == so
    requires R == d.R + Ro + bridge
    ensures NfaLang(R, Nul, d.s, Fo) == CatL(Lang(d), Lang(o))
  {
    Apart(d, o, so, Fo, Ro);
    assert forall f :: f in d.F ==> Rule(f, Nul, so) in bridge;
    CatLang(R, d.R, Ro, Nul, d.s, d.F, so, Fo);
  }

  /** `alternation(other)`: clone `other` above this automaton, add a fresh
      start `other.m_num_states + 8 * offset + 1` with empty moves to both
      starts, and accept where either accepts.  The result accepts the words of
      either. */
  method Alternation(d: Dfa, o: Dfa) returns (r: Dfa)
    ensures Good(r)
    ensures Good(d) && Good(o) ==> Lang(r) == Lang(d) + Lang(o)
  {
    var offset := d.n / 8 + 1;
    var so, Fo, Ro := PClone(o, offset);
    var s := o.n + offset * 8 + 1;
    var F := d.F + Fo;
    var R := d.R + Ro + [Rule(s, Nul, d.s), Rule(s, Nul, so)];
    r := FromNfa(s, F, R);
    if Good(d) && Good(o) {
      AltBuilt(d, o, so, Fo, Ro, s, R);
    }
  }

  lemma AltBuilt(d: Dfa, o: Dfa, so: nat, Fo: set<nat>, Ro: seq<Rule<nat, char>>, s: nat, R: seq<Rule<nat, char>>)
    requires Good(d) && Good(o)
    requires States(so, Fo, Ro) == Shifted(States(o.s, o.F, o.R), 8 * (d.n / 8 + 1))
    requires DetLike(Ro, Nul) && DfaLang(Ro, Nul, so, Fo) == Lang(o)
    requires s == o.n + (d.n / 8 + 1) * 8 + 1
    requires R == d.R + Ro + [Rule(s, Nul, d.s), Rule(s, Nul, so)]
    ensures NfaLang(R, Nul, s, d.F + Fo) == Lang(d) + Lang(o)
  {
    Apart(d, o, so, Fo, Ro);
    assert s !in States(so, Fo, Ro);
    AltLang(R, d.R, Ro, Nul, s, d.s, d.F, so, Fo);
  }

  // ------------------------------------------------------------ from_regex

  /** The characters of a C string: everything before the first `'\0'`. */
  function CStr(s: seq<char>): (r: seq<char>)
    ensures |r| <= |s| && r == s[..|r|] && Nul !in r
    ensures |r| < |s| ==> s[|r|] == Nul
  {
    if |s| == 0 || s[0] == Nul then [] else [s[0]] + CStr(s[1..])
  }

  /** A scan that stops at the first `'\0'` has read the C string. */
  lemma CStrAt(s: seq<char>, i: nat)
    requires i <= |s| && Nul !in s[..i] && (i == |s| || s[i] == Nul)
    ensures CStr(s) == s[..i]
  {
  }

  /** A scan that has not met `'\0'` yet reads a prefix of the C string. */
  lemma CStrOnward(s: seq<char>, i: nat)
    requires i < |s| && Nul !in s[..i] && s[i] != Nul
    ensures i + 1 <= |CStr(s)| && CStr(s)[..i + 1] == s[..i + 1]
  {
  }

  /** The value stack holds, position by position, automata of the shape the
      combinators need whose languages are those of the syntax trees. */
  ghost predicate Models(vals: seq<Dfa>, res: seq<Re<char>>)
  {
    |vals| == |res| && forall k :: 0 <= k < |vals| ==> Good(vals[k]) && Lang(vals[k]) == LangRe(res[k])
  }

  lemma ModelsPush(vals: seq<Dfa>, res: seq<Re<char>>, m: nat, d: Dfa, re: Re<char>)
    requires Models(vals, res) && m <= |vals| && Good(d) && Lang(d) == LangRe(re)
    ensures Models(vals[..m] + [d], res[..m] + [re])
  {
  }

  /** `e`, the one-state automaton `DFA(0, {0}, {{0, '\0', 0}})`. */
  method EmptyDfa() returns (d: Dfa)
    ensures Good(d) && Lang(d) == LangRe(Eps)
  {
    d := NewDfa(0, {0}, [Rule(0, Nul, 0)]);
    assert Ids(d.R) == {0};
    EpsDfaLang(d);
  }

  /** The automaton of one literal, `DFA(0, {1}, {{0, c, 1}})`. */
  method LitDfa(c: char) returns (d: Dfa)
    requires c != Nul
    ensures Good(d) && Lang(d) == LangRe(Lit(c))
  {
    d := NewDfa(0, {1}, [Rule(0, c, 1)]);
    assert Ids(d.R) == {0, 1};
    LitDfaLang(d, c);
  }

  /** `_eval(op, v_stack)`: `*` replaces the top automaton by its star; `+` and
      `|` pop the right operand, then the left one, and push their
      concatenation or alternation.  Too few operands is a parse error, and so
      is an operator `_eval` does not know. */
  method Eval(op: Op, vals: seq<Dfa>, ghost res: seq<Re<char>>) returns (r: Result<seq<Dfa>, ParseError>)
    requires Models(vals, res)
    ensures r.Err? == EvalRe(NoCheck, op, res).Err?
    ensures r.Err? ==> r.error == EvalRe(NoCheck, op, res).error
    ensures r.Ok? ==> Models(r.value, EvalRe(NoCheck, op, res).value)
  {
    var n := |vals|;
    match op
    case StarOp =>
      if n < 1 {
        return Err(MissingOperand(op));
      }
      var d := EvalStar(vals, res);
      return Ok(d);
    case CatOp =>
      if n < 2 {
        return Err(MissingOperand(op));
      }
      var d := EvalCat(vals, res);
      return Ok(d);
    case AltOp =>
      if n < 2 {
        return Err(MissingOperand(op));
      }
      var d := EvalAlt(vals, res);
      return Ok(d);
    case LParen =>
      return Err(UnknownOperator);
  }

  /** `_eval('*', ...)` on a stack with an operand. */
  method EvalStar(vals: seq<Dfa>, ghost res: seq<Re<char>>) returns (ds: seq<Dfa>)
    requires Models(vals, res) && |vals| >= 1
    ensures EvalRe(NoCheck, StarOp, res).Ok? && Models(ds, EvalRe(NoCheck, StarOp, res).value)
  {
    var n := |vals|;
    var d := KleeneStar(vals[n - 1]);
    assert EvalRe(NoCheck, StarOp, res) == Ok(res[..n - 1] + [Star(res[n - 1])]);
    ModelsPush(vals, res, n - 1, d, Star(res[n - 1]));
    return vals[..n - 1] + [d];
  }

  /** `_eval('+', ...)` on a stack with two operands. */
  method EvalCat(vals: seq<Dfa>, ghost res: seq<Re<char>>) returns (ds: seq<Dfa>)
    requires Models(vals, res) && |vals| >= 2
    ensures EvalRe(NoCheck, CatOp, res).Ok? && Models(ds, EvalRe(NoCheck, CatOp, res).value)
  {
    var n := |vals|;
    var rhs, lhs := vals[n - 1], vals[n - 2];
    assert Good(lhs) && Good(rhs) && Lang(lhs) == LangRe(res[n - 2]) && Lang(rhs) == LangRe(res[n - 1]);
    var d := Concatenation(lhs, rhs);
    assert EvalRe(NoCheck, CatOp, res) == Ok(res[..n - 2] + [Cat(res[n - 2], res[n - 1])]);
    ModelsPush(vals, res, n - 2, d, Cat(res[n - 2], res[n - 1]));
    return vals[..n - 2] + [d];
  }

  /** `_eval('|', ...)` on a stack with two operands. */
  method EvalAlt(vals: seq<Dfa>, ghost res: seq<Re<char>>) returns (ds: seq<Dfa>)
    requires Models(vals, res) && |vals| >= 2
    ensures EvalRe(NoCheck, AltOp, res).Ok? && Models(ds, EvalRe(NoCheck, AltOp, res).value)
  {
    var n := |vals|;
    var rhs, lhs := vals[n - 1], vals[n - 2];
    assert Good(lhs) && Good(rhs) && Lang(lhs) == LangRe(res[n - 2]) && Lang(rhs) == LangRe(res[n - 1]);
    var d := Alternation(lhs, rhs);
    assert EvalRe(NoCheck, AltOp, res) == Ok(res[..n - 2] + [Alt(res[n - 2], res[n - 1])]);
    ModelsPush(vals, res, n - 2, d, Alt(res[n - 2], res[n - 1]));
    return vals[..n - 2] + [d];
  }

  /** The loops `while (... op_stack.back() ...) { _eval(op_stack.back(), v_stack);
      op_stack.pop_back(); }`: evaluate operators from the top until one that
      stops the loop, or the stack is empty. */
  method UnwindDfa(u: Until, ops: seq<Op>, vals: seq<Dfa>, ghost res: seq<Re<char>>)
    returns (r: Result<(seq<Op>, seq<Dfa>), ParseError>)
    requires Models(vals, res)
    ensures Unwind(NoCheck, u, ops, res).Err? ==> r == Err(Unwind(NoCheck, u, ops, res).error)
    ensures Unwind(NoCheck, u, ops, res).Ok? ==>
              r.Ok? && r.value.0 == Unwind(NoCheck, u, ops, res).value.0 && Models(r.value.1, Unwind(NoCheck, u, ops, res).value.1)
  {
    var os, vs := ops, vals;
    ghost var rs := res;
    while |os| > 0 && !Stops(u, os[|os| - 1])
      invariant Models(vs, rs) && Unwind(NoCheck, u, os, rs) == Unwind(NoCheck, u, ops, res)
      decreases |os|
    {
      var e := Eval(os[|os| - 1], vs, rs);
      if e.Err? {
        return Err(e.error);
      }
      vs, rs := e.value, EvalRe(NoCheck, os[|os| - 1], rs).value;
      os := os[..|os| - 1];
    }
    return Ok((os, vs));
  }

  /** The parser state between two characters: the operator stack, the
      automaton stack and `is_last_dfa`, against the same state on trees. */
  ghost predicate Mirrors(ops: seq<Op>, vals: seq<Dfa>, last: bool, st: PState<Re<char>>)
  {
    ops == st.ops && last == st.last && Models(vals, st.vals)
  }

  /** The `)` branch of `from_regex`: an empty group `()` pushes `e`; then
      evaluate back to the `(`, which is popped, or fail for want of one. */
  method CloseDfa(ops: seq<Op>, vals: seq<Dfa>, last: bool, ghost st: PState<Re<char>>)
    returns (r: Result<(seq<Op>, seq<Dfa>, bool), ParseError>)
    requires Mirrors(ops, vals, last, st)
    ensures StepChar(NoCheck, st, ')').Err? ==> r == Err(StepChar(NoCheck, st, ')').error)
    ensures StepChar(NoCheck, st, ')').Ok? ==> r.Ok? && Mirrors(r.value.0, r.value.1, r.value.2, StepChar(NoCheck, st, ')').value)
  {
    if |ops| > 0 && ops[|ops| - 1] == LParen {
      var e := EmptyDfa();
      ModelsPush(vals, st.vals, |vals|, e, Eps);
      assert vals[..|vals|] == vals && st.vals[..|vals|] == st.vals;
      r := PopGroup(ops, vals + [e], last, st.vals + [Eps]);
    } else {
      r := PopGroup(ops, vals, last, st.vals);
    }
  }

  /** The rest of the `)` branch once an empty group has its operand:
      evaluate down to the `(` and pop it. */
  method PopGroup(ops: seq<Op>, vs: seq<Dfa>, last: bool, ghost rs: seq<Re<char>>)
    returns (r: Result<(seq<Op>, seq<Dfa>, bool), ParseError>)
    requires Models(vs, rs)
    ensures GroupClosed(Unwind(NoCheck, UntilParen, ops, rs), last).Err? ==> r == Err(GroupClosed(Unwind(NoCheck, UntilParen, ops, rs), last).error)
    ensures GroupClosed(Unwind(NoCheck, UntilParen, ops, rs), last).Ok? ==>
              r.Ok? && Mirrors(r.value.0, r.value.1, r.value.2, GroupClosed(Unwind(NoCheck, UntilParen, ops, rs), last).value)
  {
    var u := UnwindDfa(UntilParen, ops, vs, rs);
    if u.Err? {
      return Err(u.error);
    }
    var os := u.value.0;
    if |os| > 0 && os[|os| - 1] == LParen {
      return Ok((os[..|os| - 1], u.value.1, last));
    }
    return Err(MissingLeftParen);
  }

  /** The literal branch of `from_regex`: after an operand, evaluate pending
      stars and concatenations and push a `+`; then push the literal. */
  method LiteralDfa(ops: seq<Op>, vals: seq<Dfa>, last: bool, c: char, ghost st: PState<Re<char>>)
    returns (r: Result<(seq<Op>, seq<Dfa>, bool), ParseError>)
    requires c !in "()|*" && c != Nul && Mirrors(ops, vals, last, st)
    ensures StepChar(NoCheck, st, c).Err? ==> r == Err(StepChar(NoCheck, st, c).error)
    ensures StepChar(NoCheck, st, c).Ok? ==> r.Ok? && Mirrors(r.value.0, r.value.1, r.value.2, StepChar(NoCheck, st, c).value)
  {
    var d := LitDfa(c);
    if last {
      var u := UnwindDfa(UntilLit, ops, vals, st.vals);
      if u.Err? {
        return Err(u.error);
      }
      ghost var g := Unwind(NoCheck, UntilLit, st.ops, st.vals).value.1;
      ModelsPush(u.value.1, g, |g|, d, Lit(c));
      assert u.value.1[..|g|] == u.value.1 && g[..|g|] == g;
      return Ok((u.value.0 + [CatOp], u.value.1 + [d], true));
    }
    ModelsPush(vals, st.vals, |vals|, d, Lit(c));
    assert vals[..|vals|] == vals && st.vals[..|vals|] == st.vals;
    return Ok((ops, vals + [d], true));
  }

  /** The body of the loop of `from_regex` for one character `c`. */
  method StepDfa(ops: seq<Op>, vals: seq<Dfa>, last: bool, c: char, ghost st: PState<Re<char>>)
    returns (r: Result<(seq<Op>, seq<Dfa>, bool), ParseError>)
    requires c != Nul && Mirrors(ops, vals, last, st)
    ensures StepChar(NoCheck, st, c).Err? ==> r == Err(StepChar(NoCheck, st, c).error)
    ensures StepChar(NoCheck, st, c).Ok? ==> r.Ok? && Mirrors(r.value.0, r.value.1, r.value.2, StepChar(NoCheck, st, c).value)
  {
    if c == '(' {
      var os := if last then ops + [CatOp] else ops;
      return Ok((os + [LParen], vals, false));
    } else if c == ')' {
      r := CloseDfa(ops, vals, last, st);
    } else if c == '|' {
      var u := UnwindDfa(UntilAlt, ops, vals, st.vals);
      if u.Err? {
        return Err(u.error);
      }
      return Ok((u.value.0 + [AltOp], u.value.1, false));
    } else if c == '*' {
      return Ok((ops + [StarOp], vals, last));
    } else {
      r := LiteralDfa(ops, vals, last, c, st);
    }
  }

  /** The final loop of `from_regex`: a `(` left on the stack is a missing `)`;
      every other operator is evaluated. */
  method DrainDfa(ops: seq<Op>, vals: seq<Dfa>, ghost res: seq<Re<char>>) returns (r: Result<seq<Dfa>, ParseError>)
    requires Models(vals, res)
    ensures Drain(NoCheck, ops, res).Err? ==> r == Err(Drain(NoCheck, ops, res).error)
    ensures Drain(NoCheck, ops, res).Ok? ==> r.Ok? && Models(r.value, Drain(NoCheck, ops, res).value)
  {
    var os, vs := ops, vals;
    ghost var rs := res;
    while |os| > 0
      invariant Models(vs, rs) && Drain(NoCheck, os, rs) == Drain(NoCheck, ops, res)
      decreases |os|
    {
      if os[|os| - 1] == LParen {
        return Err(MissingRightParen);
      }
      var e := Eval(os[|os| - 1], vs, rs);
      if e.Err? {
        return Err(e.error);
      }
      vs, rs := e.value, EvalRe(NoCheck, os[|os| - 1], rs).value;
      os := os[..|os| - 1];
    }
    return Ok(vs);
  }

  /** `from_regex(regex)`: the empty pattern gives `e`; otherwise one pass over
      the characters with the two stacks, then the final loop, and the
      automaton on top of the stack.  It fails exactly when the pattern has a
      parse error, with that error, and otherwise accepts the words of the
      pattern's syntax tree. */
  method FromRegex(regex: seq<char>) returns (r: Result<Dfa, ParseError>)
    ensures CppParse(CStr(regex)).Err? ==> r == Err(CppParse(CStr(regex)).error)
    ensures CppParse(CStr(regex)).Ok? ==> r.Ok? && Good(r.value) && Lang(r.value) == LangRe(CppParse(CStr(regex)).value)
  {
    var e := EmptyDfa();
    if |regex| == 0 || regex[0] == Nul {
      return Ok(e);
    }
    var ops: seq<Op>, vals: seq<Dfa>, last := [], [], false;
    ghost var st: PState<Re<char>> := PState([], [], false);
    var i := 0;
    while i < |regex| && regex[i] != Nul
      invariant 0 <= i <= |regex| && Nul !in regex[..i] && (i == 0 ==> regex[0] != Nul)
      invariant Scan(NoCheck, regex[..i]) == Ok(st) && Mirrors(ops, vals, last, st)
    {
      var step := StepDfa(ops, vals, last, regex[i], st);
      ScanSnoc(NoCheck, regex, i);
      if step.Err? {
        ParseErrAt(regex, i);
        return Err(step.error);
      }
      ops, vals, last := step.value.0, step.value.1, step.value.2;
      st := StepChar(NoCheck, st, regex[i]).value;
      assert regex[..i + 1] == regex[..i] + [regex[i]];
      i := i + 1;
    }
    ParseDone(regex, i, st);
    var d := DrainDfa(ops, vals, st.vals);
    if d.Err? {
      return Err(d.error);
    }
    TopModels(CStr(regex), d.value);
    return Ok(d.value[|d.value| - 1]);
  }

  /** The automaton on top of the drained stack models the tree C++ returns. */
  lemma TopModels(p: seq<char>, ds: seq<Dfa>)
    requires |p| > 0 && ParseStack(NoCheck, p).Ok? && Models(ds, ParseStack(NoCheck, p).value)
    ensures |ds| > 0 && CppParse(p) == Ok(ParseStack(NoCheck, p).value[|ds| - 1])
    ensures Good(ds[|ds| - 1]) && Lang(ds[|ds| - 1]) == LangRe(CppParse(p).value)
  {
  }

  /** A scan error met before `'\0'` is the parse error of the C string. */
  lemma ParseErrAt(regex: seq<char>, i: nat)
    requires i < |regex| && Nul !in regex[..i] && regex[i] != Nul && Scan(NoCheck, regex[..i + 1]).Err?
    ensures CppParse(CStr(regex)) == Err(Scan(NoCheck, regex[..i + 1]).error)
  {
    CStrOnward(regex, i);
    ScanErr(NoCheck, CStr(regex), i + 1);
  }

  /** A scan that reached `'\0'` or the end has read the whole C string. */
  lemma ParseDone(regex: seq<char>, i: nat, st: PState<Re<char>>)
    requires 0 < i <= |regex| && Nul !in regex[..i] && (i == |regex| || regex[i] == Nul)
    requires Scan(NoCheck, regex[..i]) == Ok(st)
    ensures |CStr(regex)| > 0 && ParseStack(NoCheck, CStr(regex)) == Drain(NoCheck, st.ops, st.vals)
  {
    CStrAt(regex, i);
  }

  /** `compile(pattern)`. */
  method Compile(pattern: seq<char>) returns (r: Result<Dfa, ParseError>)
    ensures CppParse(CStr(pattern)).Err? ==> r == Err(CppParse(CStr(pattern)).error)
    ensures CppParse(CStr(pattern)).Ok? ==> r.Ok? && Lang(r.value) == LangRe(CppParse(CStr(pattern)).value)
  {
    r := FromRegex(pattern);
  }

  /** `DFA::operator()(tape)`: the matcher runs over the C string of the tape. */
  method Call(d: Dfa, tape: seq<char>) returns (b: bool)
    ensures b <==> CStr(tape) in Lang(d)
  {
    var m := new Matcher(d.s, d.F, d.R);
    b := m.Call(CStr(tape));
  }

  /** `match(pattern, str)`: compile, then run the automaton on the string; a
      parse error of the pattern propagates. */
  method Match(pattern: seq<char>, str: seq<char>) returns (r: Result<bool, ParseError>)
    ensures CppParse(CStr(pattern)).Err? ==> r == Err(CppParse(CStr(pattern)).error)
    ensures CppParse(CStr(pattern)).Ok? ==> r.Ok? && (r.value <==> CStr(str) in LangRe(CppParse(CStr(pattern)).value))
  {
    var c := Compile(pattern);
    if c.Err? {
      return Err(c.error);
    }
    var b := Call(c.value, str);
    return Ok(b);
  }
}
