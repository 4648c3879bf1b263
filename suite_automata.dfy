/** The automaton cases of the repository's test suites: a hand-written
    automaton for `b(a|b)*b`, a nondeterministic one for `(a|b)*b` given to
    `from_NFA`, and the three combinators applied to automata that read one
    word.  Each automaton is stated over any symbol type, so that the C++
    model (characters, `'\0'` for empty moves) and the Python model
    (one-character strings, `""` for empty moves) share the proofs. */
module SuiteAutomata {
  import opened Automata
  import opened Languages
  import opened Nfa
  import opened RegexSyntax
  import opened Subset
  import S = SuiteCases
  import C = CppRegEx
  import P = PyRegEx

  // ---------------------------------------------------------- one word only

  /** The automaton of the tests that reads exactly `u`: state `i` moves to
      `i + 1` on `u[i]`, and `|u|` accepts. */
  function ChainRules<A>(u: seq<A>): (R: seq<Rule<nat, A>>)
    ensures |R| == |u| && forall i :: 0 <= i < |u| ==> R[i] == Rule(i, u[i], i + 1)
  {
    seq(|u|, i requires 0 <= i < |u| => Rule(i, u[i], i + 1))
  }

  /** Only state `i` reads `u[i]`: one rule per state. */
  lemma ChainFunctional<A>(u: seq<A>)
    ensures Functional(ChainRules(u))
  {
    var R := ChainRules(u);
    forall r1, r2 | r1 in R && r2 in R && r1.p == r2.p && r1.a == r2.a ensures r1.q == r2.q {
      var i :| 0 <= i < |R| && R[i] == r1;
      var j :| 0 <= j < |R| && R[j] == r2;
    }
  }

  /** The one step the chain takes from state `k`. */
  lemma ChainStep<A>(u: seq<A>, k: nat, c: A)
    ensures Step(ChainRules(u), k, c) == if k < |u| && c == u[k] then Some(k + 1) else None
  {
    var R := ChainRules(u);
    if k < |u| && c == u[k] {
      ChainFunctional(u);
      assert R[k] == Rule(k, c, k + 1);
      StepFunctional(R, k, c, k + 1);
    } else {
      forall i | 0 <= i < |R| ensures R[i].p != k || R[i].a != c {
      }
    }
  }

  /** From state `k`, the chain reaches its end on the rest of `u` and on
      nothing else. */
  lemma {:induction false} ChainRun<A>(u: seq<A>, k: nat, w: seq<A>)
    requires k <= |u|
    ensures Run(ChainRules(u), k, w) == Some(|u|) <==> w == u[k..]
    decreases |w|
  {
    var R := ChainRules(u);
    if |w| == 0 {
      assert Run(R, k, w) == Some(k);
      assert |u[k..]| == |u| - k;
    } else {
      ChainStep(u, k, w[0]);
      if k < |u| && w[0] == u[k] {
        assert Run(R, k, w) == Run(R, k + 1, w[1..]);
        ChainRun(u, k + 1, w[1..]);
        assert w == [w[0]] + w[1..] && u[k..] == [u[k]] + u[k + 1..];
      } else {
        assert Run(R, k, w) == None;
        if k < |u| {
          assert u[k..][0] == u[k];
        } else {
          assert u[k..] == [];
        }
      }
    }
  }

  /** The chain accepts `u` and nothing else. */
  lemma ChainLang<A(!new)>(u: seq<A>, eps: A)
    requires eps !in u
    ensures DfaLang(ChainRules(u), eps, 0, {|u|}) == iset{u}
  {
    forall w: seq<A> ensures w in DfaLang(ChainRules(u), eps, 0, {|u|}) <==> w == u {
      ChainRun(u, 0, w);
      assert u[0..] == u;
    }
  }

  /** The chain is deterministic. */
  lemma ChainDet<A>(u: seq<A>, eps: A)
    requires eps !in u
    ensures DetLike(ChainRules(u), eps)
  {
    var R := ChainRules(u);
    ChainFunctional(u);
    forall r | r in R ensures r.a != eps {
      var i :| 0 <= i < |R| && R[i] == r;
      assert u[i] in u;
    }
  }

  /** The states below `n`. */
  function Upto(n: nat): (r: set<nat>)
    ensures |r| == n && forall x: int :: x in r <==> 0 <= x < n
  {
    if n == 0 then {} else
      var r := Upto(n - 1);
      assert n - 1 !in r;
      r + {n - 1}
  }

  /** The chain's states are `0` to `|u|`, all of them rule ends. */
  lemma ChainStates<A>(u: seq<A>)
    requires |u| > 0
    ensures States(0, {|u|}, ChainRules(u)) == Ids(ChainRules(u)) == Upto(|u| + 1)
  {
    var R := ChainRules(u);
    forall x | 0 <= x <= |u| ensures x in Ids(R) {
      if x < |u| {
        assert R[x].p == x;
      } else {
        assert R[x - 1].q == x;
      }
    }
    forall x | x in Ids(R) ensures 0 <= x <= |u| {
      var r :| r in R && (r.p == x || r.q == x);
      var i :| 0 <= i < |R| && R[i] == r;
    }
  }

  // --------------------------------------------------------- words of tests

  /** A concatenation of two one-word languages holds one word. */
  lemma CatWords<A(!new)>(u: seq<A>, v: seq<A>, w: seq<A>)
    ensures w in CatL(iset{u}, iset{v}) <==> w == u + v
  {
    if w == u + v {
      assert w[..|u|] == u && w[|u|..] == v;
    }
    if w in CatL(iset{u}, iset{v}) {
      var k :| 0 <= k <= |w| && w[..k] in iset{u} && w[k..] in iset{v};
      assert w == w[..k] + w[k..];
    }
  }

  /** A nonempty word of the star of the word `xy` begins with `xy` and
      continues with a word of the star. */
  lemma StarHead<A(!new)>(x: A, y: A, v: seq<A>)
    ensures InStar(iset{[x, y]}, v) && |v| > 0 ==> |v| >= 2 && v[..2] == [x, y] && InStar(iset{[x, y]}, v[2..])
  {
    var L := iset{[x, y]};
    if InStar(L, v) && |v| > 0 {
      var k :| 1 <= k <= |v| && v[..k] in L && InStar(L, v[k..]);
      assert |v[..k]| == 2;
    }
  }

  /** The tested words of the star of the two-letter word `xy`. */
  lemma StarWords<A(!new)>(x: A, y: A)
    requires x != y
    ensures [] in StarL(iset{[x, y]})
    ensures [x, y, x, y, x, y] in StarL(iset{[x, y]})
    ensures [x, y, x, x, x, y] !in StarL(iset{[x, y]})
  {
    var L := iset{[x, y]};
    var w := [x, y, x, y, x, y];
    assert InStar(L, w[4..]) by {
      assert w[4..][..2] == [x, y] && w[4..][2..] == [];
    }
    assert InStar(L, w[2..]) by {
      assert w[2..][..2] == [x, y] && w[2..][2..] == w[4..];
    }
    assert InStar(L, w) by {
      assert w[..2] == [x, y] && w[2..] == w[2..];
    }
    var v := [x, y, x, x, x, y];
    StarHead(x, y, v);
    StarHead(x, y, v[2..]);
    assert v[2..][..2] == [x, x];
  }

  // ----------------------------------------------------- the basic automaton

  /** Every symbol is `a` or `b`. */
  predicate Over<A(==)>(w: seq<A>, a: A, b: A)
  {
    forall i :: 0 <= i < |w| ==> w[i] == a || w[i] == b
  }

  /** The automaton `test_basic` writes out for `b(a|b)*b`. */
  function BasicRules<A>(a: A, b: A): seq<Rule<nat, A>>
  {
    [Rule(0, b, 1), Rule(1, b, 2), Rule(1, a, 3), Rule(2, b, 2), Rule(2, a, 3), Rule(3, a, 3), Rule(3, b, 2)]
  }

  lemma BasicDet<A>(a: A, b: A, eps: A)
    requires a != b && eps != a && eps != b
    ensures DetLike(BasicRules(a, b), eps)
  {
  }

  /** The steps of the hand-written automaton: `b` leads from 0 to 1, and
      from 1, 2 and 3 a `b` leads to 2 and an `a` to 3. */
  lemma BasicStep<A>(a: A, b: A, x: nat, c: A)
    requires a != b
    ensures Step(BasicRules(a, b), x, c) ==
            if x == 0 && c == b then Some(1)
            else if 1 <= x <= 3 && c == b then Some(2)
            else if 1 <= x <= 3 && c == a then Some(3)
            else None
  {
    var R := BasicRules(a, b);
    assert Functional(R);
    if x == 0 && c == b {
      StepFunctional(R, x, c, 1);
    } else if 1 <= x <= 3 && c == b {
      assert Rule(x, c, 2) in R;
      StepFunctional(R, x, c, 2);
    } else if 1 <= x <= 3 && c == a {
      assert Rule(x, c, 3) in R;
      StepFunctional(R, x, c, 3);
    } else {
      forall k | 0 <= k < |R| ensures R[k].p != x || R[k].a != c {
      }
    }
  }

  /** From states 1, 2 and 3 the automaton remembers whether the last symbol
      read was a `b`. */
  lemma {:induction false} BasicTail<A>(a: A, b: A, x: nat, w: seq<A>)
    requires a != b && 1 <= x <= 3
    ensures Run(BasicRules(a, b), x, w) == Some(2) <==>
            Over(w, a, b) && (if |w| == 0 then x == 2 else w[|w| - 1] == b)
    decreases |w|
  {
    if |w| > 0 {
      var c := w[0];
      BasicStep(a, b, x, c);
      OverCons(w, a, b);
      if c == a || c == b {
        BasicTail(a, b, if c == b then 2 else 3, w[1..]);
        if |w| > 1 {
          assert w[1..][|w[1..]| - 1] == w[|w| - 1];
        }
      }
    }
  }

  lemma OverCons<A>(w: seq<A>, a: A, b: A)
    requires |w| > 0
    ensures Over(w, a, b) <==> (w[0] == a || w[0] == b) && Over(w[1..], a, b)
  {
    if (w[0] == a || w[0] == b) && Over(w[1..], a, b) {
      forall i | 0 < i < |w| ensures w[i] == a || w[i] == b {
        assert w[i] == w[1..][i - 1];
      }
    }
  }

  /** The hand-written automaton accepts the words over `a` and `b` of length
      at least two that begin and end with `b`. */
  lemma BasicLang<A(!new)>(a: A, b: A, eps: A, w: seq<A>)
    requires a != b && eps != a && eps != b
    ensures w in DfaLang(BasicRules(a, b), eps, 0, {2}) <==>
            |w| >= 2 && w[0] == b && w[|w| - 1] == b && Over(w, a, b)
  {
    if |w| > 0 {
      BasicStep(a, b, 0, w[0]);
      OverCons(w, a, b);
      if w[0] == b {
        BasicTail(a, b, 1, w[1..]);
        if |w| > 1 {
          assert w[1..][|w[1..]| - 1] == w[|w| - 1];
        }
      }
    }
    if Over(w, a, b) {
      forall i | 0 <= i < |w| ensures w[i] != eps {
      }
    }
  }

  // ------------------------------------------------- the automaton of from_NFA

  /** The nondeterministic automaton `test_nfa_to_dfa` gives for `(a|b)*b`:
      `q0` loops on `a` and `b`, moves without input to `q1`, and `q1` reads
      the final `b` into `q2`. */
  function SuffixRules<S, A>(q0: S, q1: S, q2: S, a: A, b: A, eps: A): seq<Rule<S, A>>
  {
    [Rule(q0, a, q0), Rule(q0, b, q0), Rule(q0, eps, q1), Rule(q1, b, q2)]
  }

  /** The two sets of states the subset construction reaches, and the empty
      set once a foreign symbol is read. */
  lemma SuffixClosures<S, A>(q0: S, q1: S, q2: S, a: A, b: A, eps: A)
    requires q0 != q1 && q0 != q2 && q1 != q2 && a != b && eps != a && eps != b
    ensures Cl(SuffixRules(q0, q1, q2, a, b, eps), eps, {q0}) == {q0, q1}
    ensures Cl(SuffixRules(q0, q1, q2, a, b, eps), eps, {q0, q2}) == {q0, q1, q2}
  {
    var R := SuffixRules(q0, q1, q2, a, b, eps);
    ClBasic(R, eps, {q0});
    assert Rule(q0, eps, q1) in R;
    ClUnique(R, eps, {q0}, {q0, q1});
    ClBasic(R, eps, {q0, q2});
    ClUnique(R, eps, {q0, q2}, {q0, q1, q2});
  }

  /** One subset step from either reachable set. */
  lemma SuffixDelta<S, A>(q0: S, q1: S, q2: S, a: A, b: A, eps: A, X: set<S>, c: A)
    requires q0 != q1 && q0 != q2 && q1 != q2 && a != b && eps != a && eps != b
    requires X == {q0, q1} || X == {q0, q1, q2}
    ensures c == a ==> Delta(SuffixRules(q0, q1, q2, a, b, eps), eps, X, c) == {q0, q1}
    ensures c == b ==> Delta(SuffixRules(q0, q1, q2, a, b, eps), eps, X, c) == {q0, q1, q2}
    ensures c != a && c != b ==> Delta(SuffixRules(q0, q1, q2, a, b, eps), eps, X, c) == {}
  {
    var R := SuffixRules(q0, q1, q2, a, b, eps);
    SuffixClosures(q0, q1, q2, a, b, eps);
    ClEmpty(R, eps);
    if c == a {
      assert Post(R, eps, X, c) == {q0} by {
        assert Rule(q0, a, q0) in R;
      }
    } else if c == b {
      assert Post(R, eps, X, c) == {q0, q2} by {
        assert Rule(q0, b, q0) in R && Rule(q1, b, q2) in R;
      }
    } else {
      assert Post(R, eps, X, c) == {};
    }
  }

  /** From either reachable set, `q2` is reached exactly on the words over
      `a` and `b` that end with `b` (or on no input from the set holding it). */
  lemma {:induction false} SuffixTail<S, A>(q0: S, q1: S, q2: S, a: A, b: A, eps: A, X: set<S>, w: seq<A>)
    requires q0 != q1 && q0 != q2 && q1 != q2 && a != b && eps != a && eps != b
    requires X == {q0, q1} || X == {q0, q1, q2}
    ensures q2 in DeltaStar(SuffixRules(q0, q1, q2, a, b, eps), eps, X, w) <==>
            Over(w, a, b) && (if |w| == 0 then q2 in X else w[|w| - 1] == b)
    decreases |w|
  {
    var R := SuffixRules(q0, q1, q2, a, b, eps);
    if |w| > 0 {
      var c := w[0];
      SuffixDelta(q0, q1, q2, a, b, eps, X, c);
      OverCons(w, a, b);
      if c == a || c == b {
        SuffixTail(q0, q1, q2, a, b, eps, Delta(R, eps, X, c), w[1..]);
        if |w| > 1 {
          assert w[1..][|w[1..]| - 1] == w[|w| - 1];
        }
      } else {
        DeltaStarEmpty(R, eps, w[1..]);
      }
    }
  }

  /** The words the automaton of `test_nfa_to_dfa` accepts: those over `a`
      and `b` that end with `b`. */
  lemma SuffixLang<S, A(!new)>(q0: S, q1: S, q2: S, a: A, b: A, eps: A, w: seq<A>)
    requires q0 != q1 && q0 != q2 && q1 != q2 && a != b && eps != a && eps != b
    ensures w in NfaLang(SuffixRules(q0, q1, q2, a, b, eps), eps, q0, {q2}) <==>
            |w| > 0 && w[|w| - 1] == b && Over(w, a, b)
  {
    var R := SuffixRules(q0, q1, q2, a, b, eps);
    SuffixClosures(q0, q1, q2, a, b, eps);
    SuffixTail(q0, q1, q2, a, b, eps, {q0, q1}, w);
    var D := DeltaStar(R, eps, Cl(R, eps, {q0}), w);
    assert D * {q2} != {} <==> q2 in D by {
      if q2 in D {
        assert q2 in D * {q2};
      }
    }
    assert NfaAccepts(R, eps, q0, {q2}, w) <==> q2 in D;
    if Over(w, a, b) {
      assert NoEps(eps, w) by {
        forall i | 0 <= i < |w| ensures w[i] != eps {
        }
      }
    }
  }

  /** The words over `a` and `b` that end with `b`. */
  ghost function EndsWith<A(!new)>(a: A, b: A): iset<seq<A>>
  {
    iset w: seq<A> | |w| > 0 && w[|w| - 1] == b && Over(w, a, b)
  }

  lemma SuffixIsEndsWith<S, A(!new)>(q0: S, q1: S, q2: S, a: A, b: A, eps: A)
    requires q0 != q1 && q0 != q2 && q1 != q2 && a != b && eps != a && eps != b
    ensures NfaLang(SuffixRules(q0, q1, q2, a, b, eps), eps, q0, {q2}) == EndsWith(a, b)
  {
    forall w: seq<A> ensures w in NfaLang(SuffixRules(q0, q1, q2, a, b, eps), eps, q0, {q2}) <==> w in EndsWith(a, b) {
      SuffixLang(q0, q1, q2, a, b, eps, w);
    }
  }

  // ------------------------------------------------------------- C++ cases

  /** `DFA(0, {|u|}, ...)` with the chain of `u`: an automaton of the shape
      the combinators expect, reading `u` only. */
  method CppWord(u: seq<char>) returns (d: C.Dfa)
    requires |u| > 0 && C.Nul !in u
    ensures C.Good(d) && C.Lang(d) == iset{u}
  {
    d := C.NewDfa(0, {|u|}, ChainRules(u));
    ChainDet(u, C.Nul);
    ChainStates(u);
    ChainLang(u, C.Nul);
  }

  /** The automaton of `test_basic` is `b(a|b)*b`. */
  lemma BasicIsBab()
    ensures DfaLang(BasicRules('a', 'b'), C.Nul, 0, {2}) == LangRe(S.BAB)
  {
    forall w: seq<char> ensures w in DfaLang(BasicRules('a', 'b'), C.Nul, 0, {2}) <==> w in LangRe(S.BAB) {
      BasicLang('a', 'b', C.Nul, w);
      S.BabWords(w);
    }
  }

  /** The other strings `test_basic` tries on `b(a|b)*b`. */
  lemma BasicTapes()
    ensures "bbb" in LangRe(S.BAB) && "ab" !in LangRe(S.BAB) && "baabbaabab" in LangRe(S.BAB)
  {
    S.BabWords("bbb");
    S.BabWords("ab");
    var w := "baabbaabab";
    assert S.AB(w);
    S.BabWords(w);
  }

  /** C++ `DFA(0, {2}, ...)` of `test_basic`. */
  method CppBasicDfa() returns (d: C.Dfa)
    ensures C.Lang(d) == LangRe(S.BAB)
  {
    d := C.NewDfa(0, {2}, BasicRules('a', 'b'));
    BasicIsBab();
  }

  /** `test_basic` in C++. */
  method CppBasic() returns (answers: seq<bool>)
    ensures answers == [false, false, true, true, false, false, true, true]
  {
    var d := CppBasicDfa();
    S.BabRefuses();
    S.BabAccepts();
    BasicTapes();
    var t0 := S.CppAsk(d, "");
    var t1 := S.CppAsk(d, "b");
    var t2 := S.CppAsk(d, "bb");
    var t3 := S.CppAsk(d, "bbb");
    var t4 := S.CppAsk(d, "ba");
    var t5 := S.CppAsk(d, "ab");
    var t6 := S.CppAsk(d, "bab");
    var t7 := S.CppAsk(d, "baabbaabab");
    answers := [t0, t1, t2, t3, t4, t5, t6, t7];
  }

  /** C++ `from_NFA` on the automaton of `test_nfa_to_dfa`, over the symbols
      `a` and `b`. */
  method CppSuffixNfa(a: char, b: char) returns (d: C.Dfa)
    requires a != b && a != C.Nul && b != C.Nul
    ensures C.Lang(d) == EndsWith(a, b)
  {
    d := C.FromNfa(0, {2}, SuffixRules(0, 1, 2, a, b, C.Nul));
    SuffixIsEndsWith<nat, char>(0, 1, 2, a, b, C.Nul);
  }

  /** `test_nfa_to_dfa` in C++. */
  method CppFromNfa() returns (answers: seq<bool>)
    ensures answers == [false, true, true, true, false, true]
  {
    var d := CppSuffixNfa('a', 'b');
    assert Over("abbbaabaab", 'a', 'b');
    var t0 := S.CppAsk(d, "a");
    var t1 := S.CppAsk(d, "b");
    var t2 := S.CppAsk(d, "ab");
    var t3 := S.CppAsk(d, "bb");
    var t4 := S.CppAsk(d, "aba");
    var t5 := S.CppAsk(d, "abbbaabaab");
    answers := [t0, t1, t2, t3, t4, t5];
  }

  /** `test_kleene_star` in C++: `ab`, then its star. */
  method CppKleeneStar() returns (answers: seq<bool>)
    ensures answers == [false, false, true, false, false, true, false, true]
  {
    var d1 := CppWord("ab");
    var d2 := C.KleeneStar(d1);
    StarWords('a', 'b');
    var t0 := S.CppAsk(d1, "a");
    var t1 := S.CppAsk(d1, "b");
    var t2 := S.CppAsk(d1, "ab");
    var t3 := S.CppAsk(d1, "ba");
    var t4 := S.CppAsk(d1, "ababab");
    var t5 := S.CppAsk(d2, "ababab");
    var t6 := S.CppAsk(d2, "abaaab");
    var t7 := S.CppAsk(d2, "");
    answers := [t0, t1, t2, t3, t4, t5, t6, t7];
  }

  /** `test_concat` in C++: `ab` followed by `ba`. */
  method CppConcat() returns (answers: seq<bool>)
    ensures answers == [false, false, true, false, false]
  {
    var d3 := CppWord("ab");
    var d4 := CppWord("ba");
    var d5 := C.Concatenation(d3, d4);
    var t0 := S.CppAsk(d5, "ab");
    CatWords("ab", "ba", "ab");
    var t1 := S.CppAsk(d5, "ba");
    CatWords("ab", "ba", "ba");
    var t2 := S.CppAsk(d5, "abba");
    CatWords("ab", "ba", "abba");
    var t3 := S.CppAsk(d5, "baab");
    CatWords("ab", "ba", "baab");
    var t4 := S.CppAsk(d5, "abbba");
    CatWords("ab", "ba", "abbba");
    answers := [t0, t1, t2, t3, t4];
  }

  /** The strings `test_union` tries on `bab|bba` and refuses. */
  lemma UnionRefuses(t: seq<char>)
    requires t in {"ab", "ba", "baa", "bbb"}
    ensures t != "bab" && t != "bba"
  {
    if |t| == 3 {
      assert t[1..] != "ab" && t[1..] != "ba" by {
        assert t[1..] == "aa" || t[1..] == "bb";
      }
    }
  }

  /** C++ `dfa6.alternation(dfa7)`: `bab` or `bba`. */
  method CppBabOrBba() returns (d: C.Dfa)
    ensures forall t :: t in C.Lang(d) <==> t == "bab" || t == "bba"
  {
    var d6 := CppWord("bab");
    var d7 := CppWord("bba");
    d := C.Alternation(d6, d7);
  }

  /** `test_union` in C++. */
  method CppUnion() returns (answers: seq<bool>)
    ensures answers == [false, false, true, true, false, false]
  {
    var d8 := CppBabOrBba();
    var t0 := S.CppAsk(d8, "ab");
    UnionRefuses("ab");
    var t1 := S.CppAsk(d8, "ba");
    UnionRefuses("ba");
    var t2 := S.CppAsk(d8, "bab");
    var t3 := S.CppAsk(d8, "bba");
    var t4 := S.CppAsk(d8, "baa");
    UnionRefuses("baa");
    var t5 := S.CppAsk(d8, "bbb");
    UnionRefuses("bbb");
    answers := [t0, t1, t2, t3, t4, t5];
  }

  // ---------------------------------------------------------- Python cases

  /** Different strings are different symbol sequences. */
  lemma CharsInjective(s: seq<char>, t: seq<char>)
    ensures P.Chars(s) == P.Chars(t) <==> s == t
  {
    if P.Chars(s) == P.Chars(t) {
      forall i | 0 <= i < |s| ensures s[i] == t[i] {
        assert P.Chars(s)[i] == [s[i]] && P.Chars(t)[i] == [t[i]];
      }
    }
  }

  /** A string is over `x` and `y` exactly when its symbols are over the
      one-character strings of `x` and `y`. */
  lemma CharsOver(t: seq<char>, x: char, y: char)
    ensures Over(P.Chars(t), [x], [y]) <==> Over(t, x, y)
  {
    var w := P.Chars(t);
    if Over(w, [x], [y]) {
      forall i | 0 <= i < |t| ensures t[i] == x || t[i] == y {
        assert w[i] == [t[i]];
      }
    }
  }

  /** `DFA(0, [|u|], ...)` with the chain of `u`. */
  method PyWord(u: seq<string>) returns (d: P.PyDfa)
    requires |u| > 0 && P.Empty !in u
    ensures P.Good(d) && P.Starts(d) && P.Lang(d) == iset{u}
  {
    var R := ChainRules(u);
    ChainStates(u);
    var r := P.Init(0, [|u|], R);
    d := r.value;
    PyWordKept(u, d);
  }

  lemma PyWordKept(u: seq<string>, d: P.PyDfa)
    requires |u| > 0 && P.Empty !in u && P.NumberedAs(0, [|u|], ChainRules(u), d)
    ensures P.Good(d) && P.Starts(d) && P.Lang(d) == iset{u}
  {
    ChainDet(u, P.Empty);
    ChainLang(u, P.Empty);
    assert Elems([|u|]) == {|u|};
    assert d.Rs[0] in d.Rs && d.Rs[0].a == u[0];
  }

  /** The hand-written automaton read by the Python model: its language on
      strings is `b(a|b)*b`. */
  lemma PyBasicIsBab(t: seq<char>)
    ensures P.Chars(t) in DfaLang(BasicRules("a", "b"), P.Empty, 0, {2}) <==> t in LangRe(S.BAB)
  {
    BasicLang("a", "b", P.Empty, P.Chars(t));
    CharsOver(t, 'a', 'b');
    BasicLang('a', 'b', C.Nul, t);
    BasicIsBab();
  }

  /** Python `DFA(0, {2}, ...)` of `test_basic`. */
  method PyBasicDfa() returns (d: P.PyDfa)
    ensures forall t :: P.Chars(t) in P.Lang(d) <==> t in LangRe(S.BAB)
  {
    var R := BasicRules("a", "b");
    assert R[0].p == 0 && R[1].q == 2;
    var r := P.Init(0, [2], R);
    d := r.value;
    assert Elems([2]) == {2};
    forall t ensures P.Chars(t) in P.Lang(d) <==> t in LangRe(S.BAB) {
      PyBasicIsBab(t);
    }
  }

  /** `test_basic` in Python. */
  method PyBasic() returns (answers: seq<bool>)
    ensures answers == [false, false, true, true, false, false, true, true]
  {
    var d := PyBasicDfa();
    S.BabRefuses();
    S.BabAccepts();
    BasicTapes();
    var t0 := P.Call(d, "");
    var t1 := P.Call(d, "b");
    var t2 := P.Call(d, "bb");
    var t3 := P.Call(d, "bbb");
    var t4 := P.Call(d, "ba");
    var t5 := P.Call(d, "ab");
    var t6 := P.Call(d, "bab");
    var t7 := P.Call(d, "baabbaabab");
    answers := [t0, t1, t2, t3, t4, t5, t6, t7];
  }

  /** Python `from_NFA` on the automaton of `test_nfa_to_dfa`. */
  method PySuffixNfa() returns (d: P.PyDfa)
    ensures forall t :: P.Chars(t) in P.Lang(d) <==> t in EndsWith('a', 'b')
  {
    var a, b := "a", "b";
    var R := SuffixRules(0, 1, 2, a, b, P.Empty);
    SuffixClosures(0, 1, 2, a, b, P.Empty);
    assert R[0] in R;
    var r := P.FromNfa(0, {2}, R);
    d := r.value;
    SuffixIsEndsWith(0, 1, 2, a, b, P.Empty);
    forall t ensures P.Chars(t) in P.Lang(d) <==> t in EndsWith('a', 'b') {
      CharsOver(t, 'a', 'b');
      if |t| > 0 {
        assert P.Chars(t)[|t| - 1] == [t[|t| - 1]];
      }
    }
  }

  /** `test_nfa_to_dfa` in Python. */
  method PyFromNfa() returns (answers: seq<bool>)
    ensures answers == [false, true, true, true, false, true]
  {
    var d := PySuffixNfa();
    assert Over("abbbaabaab", 'a', 'b');
    var t0 := P.Call(d, "a");
    var t1 := P.Call(d, "b");
    var t2 := P.Call(d, "ab");
    var t3 := P.Call(d, "bb");
    var t4 := P.Call(d, "aba");
    var t5 := P.Call(d, "abbbaabaab");
    answers := [t0, t1, t2, t3, t4, t5];
  }

  /** Python `DFA(0, {len(u)}, ...)` reading the one string `u`. */
  method PyString(u: seq<char>) returns (d: P.PyDfa)
    requires |u| > 0
    ensures P.Good(d) && P.Starts(d) && P.Lang(d) == iset{P.Chars(u)}
  {
    P.CharsNoEps(u);
    d := PyWord(P.Chars(u));
  }

  /** The strings `test_kleene_star` tries on the star of `ab`. */
  lemma PyStarTapes()
    ensures P.Chars("") in StarL(iset{P.Chars("ab")})
    ensures P.Chars("ababab") in StarL(iset{P.Chars("ab")})
    ensures P.Chars("abaaab") !in StarL(iset{P.Chars("ab")})
  {
    assert P.Chars("ab") == ["a", "b"];
    assert P.Chars("ababab") == ["a", "b", "a", "b", "a", "b"];
    assert P.Chars("abaaab") == ["a", "b", "a", "a", "a", "b"];
    assert P.Chars("") == [];
    StarWords("a", "b");
  }

  /** Python `dfa1.kleene_star()`, for the `kstar` the suite calls. */
  method PyStarOfAb() returns (d1: P.PyDfa, d2: P.PyDfa)
    ensures forall t :: P.Chars(t) in P.Lang(d1) <==> t == "ab"
    ensures P.Lang(d2) == StarL(iset{P.Chars("ab")})
  {
    d1 := PyString("ab");
    var r := P.KleeneStar(d1);
    d2 := r.value;
    forall t ensures P.Chars(t) in P.Lang(d1) <==> t == "ab" {
      CharsInjective(t, "ab");
    }
  }

  /** `test_kleene_star` in Python. */
  method PyKleeneStar() returns (answers: seq<bool>)
    ensures answers == [false, false, true, false, false, true, false, true]
  {
    var d1, d2 := PyStarOfAb();
    PyStarTapes();
    var t0 := P.Call(d1, "a");
    var t1 := P.Call(d1, "b");
    var t2 := P.Call(d1, "ab");
    var t3 := P.Call(d1, "ba");
    var t4 := P.Call(d1, "ababab");
    var t5 := P.Call(d2, "ababab");
    var t6 := P.Call(d2, "abaaab");
    var t7 := P.Call(d2, "");
    answers := [t0, t1, t2, t3, t4, t5, t6, t7];
  }

  /** Python `dfa3.concatenation(dfa4)`, for the `concat` the suite calls. */
  method PyAbThenBa() returns (d: P.PyDfa)
    ensures forall t :: P.Chars(t) in P.Lang(d) <==> t == "abba"
  {
    var d3 := PyString("ab");
    var d4 := PyString("ba");
    var r := P.Concatenation(d3, d4);
    d := r.value;
    assert P.Chars("ab") + P.Chars("ba") == P.Chars("abba");
    forall t ensures P.Chars(t) in P.Lang(d) <==> t == "abba" {
      CatWords(P.Chars("ab"), P.Chars("ba"), P.Chars(t));
      CharsInjective(t, "abba");
    }
  }

  /** `test_concat` in Python. */
  method PyConcat() returns (answers: seq<bool>)
    ensures answers == [false, false, true, false, false]
  {
    var d5 := PyAbThenBa();
    var t0 := P.Call(d5, "ab");
    var t1 := P.Call(d5, "ba");
    var t2 := P.Call(d5, "abba");
    var t3 := P.Call(d5, "baab");
    var t4 := P.Call(d5, "abbba");
    answers := [t0, t1, t2, t3, t4];
  }

  /** Python `dfa6.alternation(dfa7)`, for the `union` the suite calls. */
  method PyBabOrBba() returns (d: P.PyDfa)
    ensures forall t :: P.Chars(t) in P.Lang(d) <==> t == "bab" || t == "bba"
  {
    var d6 := PyString("bab");
    var d7 := PyString("bba");
    var r := P.Alternation(d6, d7);
    d := r.value;
    forall t ensures P.Chars(t) in P.Lang(d) <==> t == "bab" || t == "bba" {
      CharsInjective(t, "bab");
      CharsInjective(t, "bba");
    }
  }

  /** `test_union` in Python. */
  method PyUnion() returns (answers: seq<bool>)
    ensures answers == [false, false, true, true, false, false]
  {
    var d8 := PyBabOrBba();
    var t0 := P.Call(d8, "ab");
    UnionRefuses("ab");
    var t1 := P.Call(d8, "ba");
    UnionRefuses("ba");
    var t2 := P.Call(d8, "bab");
    var t3 := P.Call(d8, "bba");
    var t4 := P.Call(d8, "baa");
    UnionRefuses("baa");
    var t5 := P.Call(d8, "bbb");
    UnionRefuses("bbb");
    answers := [t0, t1, t2, t3, t4, t5];
  }
}
