/** The cases of the repository's test suites, stated on the model: the words
    of the test patterns, their parses, the parse errors, the quirks of the
    parser, and the answers the two compilers give on the tested strings. */
module SuiteCases {
  import opened Automata
  import opened Languages
  import opened RegexSyntax
  import C = CppRegEx
  import P = PyRegEx

  // ------------------------------------------------------ words of patterns

  /** Every character is `a` or `b`. */
  predicate AB(w: seq<char>)
  {
    forall i :: 0 <= i < |w| ==> w[i] == 'a' || w[i] == 'b'
  }

  const AorB: Re<char> := Alt(Lit('a'), Lit('b'))

  /** The tree of `b(a|b)*b`. */
  const BAB: Re<char> := Cat(Lit('b'), Cat(Star(AorB), Lit('b')))

  /** The tree of `(()|abc)`. */
  const OptABC: Re<char> := Alt(Eps, Cat(Lit('a'), Cat(Lit('b'), Lit('c'))))

  /** `(a|b)*` denotes the words over `a` and `b`. */
  lemma {:induction false} StarABWords(w: seq<char>)
    ensures w in LangRe(Star(AorB)) <==> AB(w)
    decreases |w|
  {
    var L := LangRe(AorB);
    if |w| > 0 {
      if InStar(L, w) {
        var k :| 1 <= k <= |w| && w[..k] in L && InStar(L, w[k..]);
        assert k == 1 && (w[0] == 'a' || w[0] == 'b') by {
          assert w[..k] == "a" || w[..k] == "b";
        }
        StarABWords(w[k..]);
        assert w[1..] in LangRe(Star(AorB));
        forall i | 0 <= i < |w| ensures w[i] == 'a' || w[i] == 'b' {
          if i > 0 {
            assert w[i] == w[1..][i - 1];
          }
        }
      }
      if AB(w) {
        StarABWords(w[1..]);
        assert AB(w[1..]) by {
          forall i | 0 <= i < |w| - 1 ensures w[1..][i] == 'a' || w[1..][i] == 'b' {
            assert w[1..][i] == w[i + 1];
          }
        }
        assert w[..1] == [w[0]];
        assert w[..1] in L;
        assert InStar(L, w);
      }
    }
  }

  /** `b(a|b)*b` denotes the words over `a` and `b` of length at least two
      that begin and end with `b`. */
  lemma BabWords(w: seq<char>)
    ensures w in LangRe(BAB) <==> |w| >= 2 && w[0] == 'b' && w[|w| - 1] == 'b' && AB(w)
  {
    if w in LangRe(BAB) {
      BabWordsShape(w);
    }
    if |w| >= 2 && w[0] == 'b' && w[|w| - 1] == 'b' && AB(w) {
      BabWordsBuilt(w);
    }
  }

  lemma BabWordsShape(w: seq<char>)
    requires w in LangRe(BAB)
    ensures |w| >= 2 && w[0] == 'b' && w[|w| - 1] == 'b' && AB(w)
  {
    var Lb, Ls := LangRe(Lit('b')), LangRe(Star(AorB));
    assert w in CatL(Lb, CatL(Ls, Lb));
    var k :| 0 <= k <= |w| && w[..k] in Lb && w[k..] in CatL(Ls, Lb);
    assert w[..k] == "b";
    var v := w[k..];
    var j :| 0 <= j <= |v| && v[..j] in Ls && v[j..] in Lb;
    assert v[j..] == "b";
    StarABWords(v[..j]);
    assert |w| == j + 2;
    forall i | 0 <= i < |w| ensures w[i] == 'a' || w[i] == 'b' {
      if 0 < i < |w| - 1 {
        assert w[i] == v[..j][i - 1];
      } else if i == 0 {
        assert w[i] == w[..k][0];
      } else {
        assert w[i] == v[j..][0];
      }
    }
    assert w[|w| - 1] == v[j..][0];
    assert w[0] == w[..k][0];
  }

  lemma BabWordsBuilt(w: seq<char>)
    requires |w| >= 2 && w[0] == 'b' && w[|w| - 1] == 'b' && AB(w)
    ensures w in LangRe(BAB)
  {
    var Lb, Ls := LangRe(Lit('b')), LangRe(Star(AorB));
    var v := w[1..];
    var j := |v| - 1;
    assert AB(v[..j]) by {
      forall i | 0 <= i < j ensures v[..j][i] == 'a' || v[..j][i] == 'b' {
        assert v[..j][i] == w[i + 1];
      }
    }
    StarABWords(v[..j]);
    assert v[j..] == [w[|w| - 1]];
    assert v in CatL(Ls, Lb);
    assert w[..1] == [w[0]];
    assert w in CatL(Lb, CatL(Ls, Lb));
  }

  /** `(()|abc)` denotes the empty word and `abc`. */
  lemma OptABCWords(w: seq<char>)
    ensures w in LangRe(OptABC) <==> w == [] || w == "abc"
  {
    var La, Lb, Lc := LangRe(Lit('a')), LangRe(Lit('b')), LangRe(Lit('c'));
    if w in LangRe(Cat(Lit('a'), Cat(Lit('b'), Lit('c')))) {
      var k :| 0 <= k <= |w| && w[..k] in La && w[k..] in CatL(Lb, Lc);
      var v := w[k..];
      var j :| 0 <= j <= |v| && v[..j] in Lb && v[j..] in Lc;
      assert w == w[..k] + v[..j] + v[j..];
    }
    if w == "abc" {
      var v := w[1..];
      assert v[..1] == "b" && v[1..] == "c";
      assert v in CatL(Lb, Lc);
      assert w[..1] == "a";
    }
  }

  // ---------------------------------------------------------------- parses

  /** The check passes the trees `abc` builds on the right of a `|`. */
  predicate PassesABC(ok: Re<char> -> bool)
  {
    ok(Cat(Lit('b'), Lit('c'))) && ok(Cat(Lit('a'), Cat(Lit('b'), Lit('c'))))
  }

  /** The check passes the trees `(()|abc)` builds. */
  predicate PassesOptABC(ok: Re<char> -> bool)
  {
    PassesABC(ok) && ok(OptABC)
  }

  // One parser step at a time: each kind of step the test patterns take.

  lemma OpenStep(ok: Re<char> -> bool, st: PState<Re<char>>, st': PState<Re<char>>)
    requires st'.ops == (if st.last then st.ops + [CatOp] else st.ops) + [LParen]
    requires st'.vals == st.vals && !st'.last
    ensures StepChar(ok, st, '(') == Ok(st')
  {
  }

  lemma FirstLitStep(ok: Re<char> -> bool, st: PState<Re<char>>, c: char, st': PState<Re<char>>)
    requires c !in "()|*" && !st.last
    requires st'.ops == st.ops && st'.vals == st.vals + [Lit(c)] && st'.last
    ensures StepChar(ok, st, c) == Ok(st')
  {
  }

  lemma NextLitStep(ok: Re<char> -> bool, st: PState<Re<char>>, c: char, st': PState<Re<char>>)
    requires c !in "()|*" && st.last && |st.ops| > 0 && st.ops[|st.ops| - 1] != StarOp
    requires st'.ops == st.ops + [CatOp] && st'.vals == st.vals + [Lit(c)] && st'.last
    ensures StepChar(ok, st, c) == Ok(st')
  {
  }

  lemma StarStep(ok: Re<char> -> bool, st: PState<Re<char>>, st': PState<Re<char>>)
    requires st'.ops == st.ops + [StarOp] && st'.vals == st.vals && st'.last == st.last
    ensures StepChar(ok, st, '*') == Ok(st')
  {
  }

  lemma AltStep(ok: Re<char> -> bool, st: PState<Re<char>>, st': PState<Re<char>>)
    requires |st.ops| > 0 && st.ops[|st.ops| - 1] == LParen
    requires st'.ops == st.ops + [AltOp] && st'.vals == st.vals && !st'.last
    ensures StepChar(ok, st, '|') == Ok(st')
  {
  }

  /** `)` right after `(`: the empty group pushes the empty word. */
  lemma EmptyGroupStep(ok: Re<char> -> bool, st: PState<Re<char>>, st': PState<Re<char>>)
    requires |st.ops| > 0 && st.ops[|st.ops| - 1] == LParen
    requires st'.ops == st.ops[..|st.ops| - 1] && st'.vals == st.vals + [Eps] && st'.last == st.last
    ensures StepChar(ok, st, ')') == Ok(st')
  {
    assert Unwind(ok, UntilParen, st.ops, st.vals + [Eps]) == Ok((st.ops, st.vals + [Eps]));
  }

  /** A closing `)` whose evaluations end on the matching `(`. */
  lemma CloseStep(ok: Re<char> -> bool, st: PState<Re<char>>, ops: seq<Op>, vs: seq<Re<char>>)
    requires |st.ops| > 0 && st.ops[|st.ops| - 1] != LParen
    requires Unwind(ok, UntilParen, st.ops, st.vals) == Ok((ops, vs))
    requires |ops| > 0 && ops[|ops| - 1] == LParen
    ensures StepChar(ok, st, ')') == Ok(PState(ops[..|ops| - 1], vs, st.last))
  {
  }

  /** A closing `)` whose evaluations fail. */
  lemma CloseErrStep(ok: Re<char> -> bool, st: PState<Re<char>>, e: ParseError)
    requires |st.ops| > 0 && st.ops[|st.ops| - 1] != LParen
    requires Unwind(ok, UntilParen, st.ops, st.vals) == Err(e)
    ensures StepChar(ok, st, ')') == Err(e)
  {
  }

  // The parser states along the test patterns, a few steps at a time.

  /** `()`, and what follows it in `()a` and `()*`. */
  lemma EmptyGroupSteps(ok: Re<char> -> bool)
    ensures StepChar(ok, PState([], [], false), '(') == Ok(PState([LParen], [], false))
    ensures StepChar(ok, PState([LParen], [], false), ')') == Ok(PState([], [Eps], false))
    ensures StepChar(ok, PState([], [Eps], false), 'a') == Ok(PState([], [Eps, Lit('a')], true))
    ensures StepChar(ok, PState([], [Eps], false), '*') == Ok(PState([StarOp], [Eps], false))
  {
    var nil: seq<Re<char>> := [];
    OpenStep(ok, PState([], nil, false), PState([LParen], nil, false));
    assert [LParen][..0] == [] && nil + [Eps] == [Eps];
    EmptyGroupStep(ok, PState([LParen], nil, false), PState([], [Eps], false));
    FirstLitStep(ok, PState([], [Eps], false), 'a', PState([], [Eps, Lit('a')], true));
    StarStep(ok, PState([], [Eps], false), PState([StarOp], [Eps], false));
  }

  /** `*` and `*a`. */
  lemma StarSteps(ok: Re<char> -> bool)
    ensures StepChar(ok, PState([], [], false), '*') == Ok(PState([StarOp], [], false))
    ensures StepChar(ok, PState([StarOp], [], false), 'a') == Ok(PState([StarOp], [Lit('a')], true))
  {
    var nil: seq<Re<char>> := [];
    StarStep(ok, PState([], nil, false), PState([StarOp], nil, false));
    FirstLitStep(ok, PState([StarOp], nil, false), 'a', PState([StarOp], [Lit('a')], true));
  }

  /** `(a` and `a)`. */
  lemma HalfGroupSteps(ok: Re<char> -> bool)
    ensures StepChar(ok, PState([], [], false), '(') == Ok(PState([LParen], [], false))
    ensures StepChar(ok, PState([LParen], [], false), 'a') == Ok(PState([LParen], [Lit('a')], true))
    ensures StepChar(ok, PState([], [], false), 'a') == Ok(PState([], [Lit('a')], true))
    ensures StepChar(ok, PState([], [Lit('a')], true), ')') == Err(MissingLeftParen)
  {
    var nil: seq<Re<char>> := [];
    OpenStep(ok, PState([], nil, false), PState([LParen], nil, false));
    FirstLitStep(ok, PState([LParen], nil, false), 'a', PState([LParen], [Lit('a')], true));
    FirstLitStep(ok, PState([], nil, false), 'a', PState([], [Lit('a')], true));
  }

  /** `(()`: two groups open, the inner one closes empty. */
  lemma OptABCOpen(ok: Re<char> -> bool)
    ensures StepChar(ok, PState([], [], false), '(') == Ok(PState([LParen], [], false))
    ensures StepChar(ok, PState([LParen], [], false), '(') == Ok(PState([LParen, LParen], [], false))
    ensures StepChar(ok, PState([LParen, LParen], [], false), ')') == Ok(PState([LParen], [Eps], false))
  {
    var L := LParen;
    var nil: seq<Re<char>> := [];
    OpenStep(ok, PState([], nil, false), PState([L], nil, false));
    OpenStep(ok, PState([L], nil, false), PState([L, L], nil, false));
    EmptyGroupStep(ok, PState([L, L], nil, false), PState([L], [Eps], false));
  }

  /** `|ab`: the alternative opens, `a` is its first value, `b` waits to be
      joined to it. */
  lemma OptABCLeft(ok: Re<char> -> bool)
    ensures StepChar(ok, PState([LParen], [Eps], false), '|') == Ok(PState([LParen, AltOp], [Eps], false))
    ensures StepChar(ok, PState([LParen, AltOp], [Eps], false), 'a') == Ok(PState([LParen, AltOp], [Eps, Lit('a')], true))
    ensures StepChar(ok, PState([LParen, AltOp], [Eps, Lit('a')], true), 'b')
         == Ok(PState([LParen, AltOp, CatOp], [Eps, Lit('a'), Lit('b')], true))
  {
    var L, A, K := LParen, AltOp, CatOp;
    var a, b := Lit('a'), Lit('b');
    AltStep(ok, PState([L], [Eps], false), PState([L, A], [Eps], false));
    FirstLitStep(ok, PState([L, A], [Eps], false), 'a', PState([L, A], [Eps, a], true));
    NextLitStep(ok, PState([L, A], [Eps, a], true), 'b', PState([L, A, K], [Eps, a, b], true));
  }

  /** `c)`: one more pending concatenation, then the closing `)`. */
  lemma OptABCClose(ok: Re<char> -> bool)
    requires PassesOptABC(ok)
    ensures StepChar(ok, PState([LParen, AltOp, CatOp], [Eps, Lit('a'), Lit('b')], true), 'c')
         == Ok(PState([LParen, AltOp, CatOp, CatOp], [Eps, Lit('a'), Lit('b'), Lit('c')], true))
    ensures StepChar(ok, PState([LParen, AltOp, CatOp, CatOp], [Eps, Lit('a'), Lit('b'), Lit('c')], true), ')')
         == Ok(PState([], [OptABC], true))
  {
    var L, A, K := LParen, AltOp, CatOp;
    var a, b, c := Lit('a'), Lit('b'), Lit('c');
    NextLitStep(ok, PState([L, A, K], [Eps, a, b], true), 'c', PState([L, A, K, K], [Eps, a, b, c], true));
    CloseABC(ok);
  }

  /** `(|a`: the alternative opens with nothing on its left. */
  lemma EmptyAltOpen(ok: Re<char> -> bool)
    ensures StepChar(ok, PState([], [], false), '(') == Ok(PState([LParen], [], false))
    ensures StepChar(ok, PState([LParen], [], false), '|') == Ok(PState([LParen, AltOp], [], false))
    ensures StepChar(ok, PState([LParen, AltOp], [], false), 'a') == Ok(PState([LParen, AltOp], [Lit('a')], true))
  {
    var L, A := LParen, AltOp;
    var nil: seq<Re<char>> := [];
    OpenStep(ok, PState([], nil, false), PState([L], nil, false));
    AltStep(ok, PState([L], nil, false), PState([L, A], nil, false));
    FirstLitStep(ok, PState([L, A], nil, false), 'a', PState([L, A], [Lit('a')], true));
  }

  /** `bc)`: two pending concatenations on the right of the `|`, then the
      `)` that finds the `|` short of an operand. */
  lemma EmptyAltRight(ok: Re<char> -> bool)
    requires PassesABC(ok)
    ensures StepChar(ok, PState([LParen, AltOp], [Lit('a')], true), 'b')
         == Ok(PState([LParen, AltOp, CatOp], [Lit('a'), Lit('b')], true))
    ensures StepChar(ok, PState([LParen, AltOp, CatOp], [Lit('a'), Lit('b')], true), 'c')
         == Ok(PState([LParen, AltOp, CatOp, CatOp], [Lit('a'), Lit('b'), Lit('c')], true))
    ensures StepChar(ok, PState([LParen, AltOp, CatOp, CatOp], [Lit('a'), Lit('b'), Lit('c')], true), ')')
         == Err(MissingOperand(AltOp))
  {
    var L, A, K := LParen, AltOp, CatOp;
    var a, b, c := Lit('a'), Lit('b'), Lit('c');
    NextLitStep(ok, PState([L, A], [a], true), 'b', PState([L, A, K], [a, b], true));
    NextLitStep(ok, PState([L, A, K], [a, b], true), 'c', PState([L, A, K, K], [a, b, c], true));
    CloseWithoutLeft(ok);
  }

  // The scans of the test patterns, character by character.

  lemma ScanEmptyGroup(ok: Re<char> -> bool, p: seq<char>)
    requires |p| == 2 && p[0] == '(' && p[1] == ')'
    ensures Scan(ok, p) == Ok(PState([], [Eps], false))
  {
    var nil: seq<Re<char>> := [];
    var s0, s1, s2 := PState([], nil, false), PState([LParen], nil, false), PState([], [Eps], false);
    assert p[..0] == [];
    EmptyGroupSteps(ok);
    ScanNext(ok, p, 0, s0, s1);
    ScanNext(ok, p, 1, s1, s2);
    assert p[..2] == p;
  }

  lemma ScanGroupThen(ok: Re<char> -> bool, p: seq<char>, c: char)
    requires |p| == 3 && p[0] == '(' && p[1] == ')' && p[2] == c && (c == 'a' || c == '*')
    ensures c == 'a' ==> Scan(ok, p) == Ok(PState([], [Eps, Lit('a')], true))
    ensures c == '*' ==> Scan(ok, p) == Ok(PState([StarOp], [Eps], false))
  {
    var nil: seq<Re<char>> := [];
    var s0, s1, s2 := PState([], nil, false), PState([LParen], nil, false), PState([], [Eps], false);
    assert p[..0] == [];
    EmptyGroupSteps(ok);
    ScanNext(ok, p, 0, s0, s1);
    ScanNext(ok, p, 1, s1, s2);
    if c == 'a' {
      ScanNext(ok, p, 2, s2, PState([], [Eps, Lit('a')], true));
    } else {
      ScanNext(ok, p, 2, s2, PState([StarOp], [Eps], false));
    }
    assert p[..3] == p;
  }

  lemma ScanStar(ok: Re<char> -> bool, p: seq<char>)
    requires 0 < |p| <= 2 && p[0] == '*' && (|p| == 2 ==> p[1] == 'a')
    ensures |p| == 1 ==> Scan(ok, p) == Ok(PState([StarOp], [], false))
    ensures |p| == 2 ==> Scan(ok, p) == Ok(PState([StarOp], [Lit('a')], true))
  {
    var nil: seq<Re<char>> := [];
    var s0, s1 := PState([], nil, false), PState([StarOp], nil, false);
    assert p[..0] == [];
    StarSteps(ok);
    ScanNext(ok, p, 0, s0, s1);
    if |p| == 2 {
      ScanNext(ok, p, 1, s1, PState([StarOp], [Lit('a')], true));
    }
    assert p[..|p|] == p;
  }

  lemma ScanOpenGroup(ok: Re<char> -> bool, p: seq<char>)
    requires |p| == 2 && p[0] == '(' && p[1] == 'a'
    ensures Scan(ok, p) == Ok(PState([LParen], [Lit('a')], true))
  {
    var nil: seq<Re<char>> := [];
    var s0, s1, s2 := PState([], nil, false), PState([LParen], nil, false), PState([LParen], [Lit('a')], true);
    assert p[..0] == [];
    HalfGroupSteps(ok);
    ScanNext(ok, p, 0, s0, s1);
    ScanNext(ok, p, 1, s1, s2);
    assert p[..2] == p;
  }

  lemma ScanCloseGroup(ok: Re<char> -> bool, p: seq<char>)
    requires |p| == 2 && p[0] == 'a' && p[1] == ')'
    ensures Scan(ok, p) == Err(MissingLeftParen)
  {
    var nil: seq<Re<char>> := [];
    var s0, s1 := PState([], nil, false), PState([], [Lit('a')], true);
    assert p[..0] == [];
    HalfGroupSteps(ok);
    ScanNext(ok, p, 0, s0, s1);
    ScanStopsAt(ok, p, 1, s1, MissingLeftParen);
  }

  lemma ScanOptABCOpen(ok: Re<char> -> bool, p: seq<char>)
    requires |p| == 8 && p[0] == '(' && p[1] == '(' && p[2] == ')' && p[3] == '|'
    ensures Scan(ok, p[..4]) == Ok(PState([LParen, AltOp], [Eps], false))
  {
    var L, A := LParen, AltOp;
    var nil: seq<Re<char>> := [];
    var s0, s1, s2 := PState([], nil, false), PState([L], nil, false), PState([L, L], nil, false);
    var s3, s4 := PState([L], [Eps], false), PState([L, A], [Eps], false);
    assert p[..0] == [];
    OptABCOpen(ok);
    ScanNext(ok, p, 0, s0, s1);
    ScanNext(ok, p, 1, s1, s2);
    ScanNext(ok, p, 2, s2, s3);
    OptABCLeft(ok);
    ScanNext(ok, p, 3, s3, s4);
  }

  lemma ScanOptABC(ok: Re<char> -> bool, p: seq<char>)
    requires PassesOptABC(ok)
    requires |p| == 8 && p[0] == '(' && p[1] == '(' && p[2] == ')' && p[3] == '|'
    requires p[4] == 'a' && p[5] == 'b' && p[6] == 'c' && p[7] == ')'
    ensures Scan(ok, p) == Ok(PState([], [OptABC], true))
  {
    var L, A, K := LParen, AltOp, CatOp;
    var a, b, c := Lit('a'), Lit('b'), Lit('c');
    var s4, s5 := PState([L, A], [Eps], false), PState([L, A], [Eps, a], true);
    var s6, s7, s8 := PState([L, A, K], [Eps, a, b], true), PState([L, A, K, K], [Eps, a, b, c], true), PState([], [OptABC], true);
    ScanOptABCOpen(ok, p);
    OptABCLeft(ok);
    ScanNext(ok, p, 4, s4, s5);
    ScanNext(ok, p, 5, s5, s6);
    OptABCClose(ok);
    ScanNext(ok, p, 6, s6, s7);
    ScanNext(ok, p, 7, s7, s8);
    assert p[..8] == p;
  }

  lemma ScanEmptyAlternative(ok: Re<char> -> bool, p: seq<char>)
    requires PassesABC(ok)
    requires |p| == 6 && p[0] == '(' && p[1] == '|' && p[2] == 'a' && p[3] == 'b' && p[4] == 'c' && p[5] == ')'
    ensures Scan(ok, p) == Err(MissingOperand(AltOp))
  {
    var L, A, K := LParen, AltOp, CatOp;
    var a, b, c := Lit('a'), Lit('b'), Lit('c');
    var nil: seq<Re<char>> := [];
    var s0, s1, s2 := PState([], nil, false), PState([L], nil, false), PState([L, A], nil, false);
    var s3, s4, s5 := PState([L, A], [a], true), PState([L, A, K], [a, b], true), PState([L, A, K, K], [a, b, c], true);
    assert p[..0] == [];
    EmptyAltOpen(ok);
    ScanNext(ok, p, 0, s0, s1);
    ScanNext(ok, p, 1, s1, s2);
    ScanNext(ok, p, 2, s2, s3);
    EmptyAltRight(ok);
    ScanNext(ok, p, 3, s3, s4);
    ScanNext(ok, p, 4, s4, s5);
    ScanStopsAt(ok, p, 5, s5, MissingOperand(AltOp));
  }

  // The parses.

  /** `()` leaves the empty word alone, in both implementations. */
  lemma ParseEmptyGroup(p: seq<char>)
    requires p == "()"
    ensures ParseStack(NoCheck, p) == Ok([Eps]) && ParseStack(Builds, p) == Ok([Eps])
  {
    ScanEmptyGroup(NoCheck, p);
    Finish(NoCheck, p, PState([], [Eps], false), [Eps]);
    ScanEmptyGroup(Builds, p);
    Finish(Builds, p, PState([], [Eps], false), [Eps]);
  }

  /** The whole stack `b(a|b)*b` leaves: its tree alone, in both
      implementations. */
  lemma ParseBab(p: seq<char>)
    requires p == "b(a|b)*b"
    ensures ParseStack(NoCheck, p) == Ok([BAB]) && ParseStack(Builds, p) == Ok([BAB])
  {
    TestParse(NoCheck, p);
    BuildsBab();
    TestParse(Builds, p);
  }

  /** The steps of `(()|abc)`: the empty group, then `abc` as two pending
      concatenations, all evaluated by the closing `)`. */
  lemma ParseOptABC(ok: Re<char> -> bool, p: seq<char>)
    requires PassesOptABC(ok) && p == "(()|abc)"
    ensures ParseStack(ok, p) == Ok([OptABC])
  {
    ScanOptABC(ok, p);
    Finish(ok, p, PState([], [OptABC], true), [OptABC]);
  }

  /** The closing `)` of `(()|abc)` evaluates both concatenations and the
      alternation, then pops the `(`. */
  lemma CloseABC(ok: Re<char> -> bool)
    requires PassesOptABC(ok)
    ensures StepChar(ok, PState([LParen, AltOp, CatOp, CatOp], [Eps, Lit('a'), Lit('b'), Lit('c')], true), ')')
         == Ok(PState([], [OptABC], true))
  {
    UnwindAltCats(ok, Eps, Lit('a'), Lit('b'), Lit('c'));
    CloseStep(ok, PState([LParen, AltOp, CatOp, CatOp], [Eps, Lit('a'), Lit('b'), Lit('c')], true), [LParen], [OptABC]);
  }

  lemma UnwindAltCats(ok: Re<char> -> bool, w: Re<char>, x: Re<char>, y: Re<char>, z: Re<char>)
    requires ok(Cat(y, z)) && ok(Cat(x, Cat(y, z))) && ok(Alt(w, Cat(x, Cat(y, z))))
    ensures Unwind(ok, UntilParen, [LParen, AltOp, CatOp, CatOp], [w, x, y, z]) == Ok(([LParen], [Alt(w, Cat(x, Cat(y, z)))]))
  {
    var L, A, K := LParen, AltOp, CatOp;
    EvalAltCats(ok, w, x, y, z);
    assert [L, A, K, K][..3] == [L, A, K] && [L, A, K][..2] == [L, A] && [L, A][..1] == [L];
    UnwindAhead(ok, UntilParen, [L, A, K, K], [w, x, y, z], [w, x, Cat(y, z)]);
    UnwindAhead(ok, UntilParen, [L, A, K], [w, x, Cat(y, z)], [w, Cat(x, Cat(y, z))]);
    UnwindAhead(ok, UntilParen, [L, A], [w, Cat(x, Cat(y, z))], [Alt(w, Cat(x, Cat(y, z)))]);
  }

  /** The three evaluations of `w|xyz` once `z` is read: two `+`, then the `|`. */
  lemma EvalAltCats(ok: Re<char> -> bool, w: Re<char>, x: Re<char>, y: Re<char>, z: Re<char>)
    requires ok(Cat(y, z)) && ok(Cat(x, Cat(y, z))) && ok(Alt(w, Cat(x, Cat(y, z))))
    ensures EvalRe(ok, CatOp, [w, x, y, z]) == Ok([w, x, Cat(y, z)])
    ensures EvalRe(ok, CatOp, [w, x, Cat(y, z)]) == Ok([w, Cat(x, Cat(y, z))])
    ensures EvalRe(ok, AltOp, [w, Cat(x, Cat(y, z))]) == Ok([Alt(w, Cat(x, Cat(y, z)))])
  {
    assert [w, x, y, z][..2] + [Cat(y, z)] == [w, x, Cat(y, z)];
    assert [w, x, Cat(y, z)][..1] + [Cat(x, Cat(y, z))] == [w, Cat(x, Cat(y, z))];
    assert [w, Cat(x, Cat(y, z))][..0] + [Alt(w, Cat(x, Cat(y, z)))] == [Alt(w, Cat(x, Cat(y, z)))];
  }

  /** One evaluation of the loop that unwinds the operator stack. */
  lemma UnwindAhead(ok: Re<char> -> bool, u: Until, ops: seq<Op>, vals: seq<Re<char>>, vs: seq<Re<char>>)
    requires |ops| > 0 && !Stops(u, ops[|ops| - 1]) && EvalRe(ok, ops[|ops| - 1], vals) == Ok(vs)
    ensures Unwind(ok, u, ops, vals) == Unwind(ok, u, ops[..|ops| - 1], vs)
  {
  }

  // ----------------------------------------------------------- parse errors

  /** A `(` left at the end is a missing right parenthesis. */
  lemma ErrorOpenGroup(p: seq<char>)
    requires p == "(a"
    ensures CppParse(p) == Err(MissingRightParen) && PyParse(p) == Err(MissingRightParen)
  {
    ScanOpenGroup(NoCheck, p);
    FinishErr(NoCheck, p, MissingRightParen);
    ScanOpenGroup(Builds, p);
    FinishErr(Builds, p, MissingRightParen);
  }

  /** A `)` with no `(` on the stack is a missing left parenthesis. */
  lemma ErrorCloseGroup(p: seq<char>)
    requires p == "a)"
    ensures CppParse(p) == Err(MissingLeftParen) && PyParse(p) == Err(MissingLeftParen)
  {
    ScanCloseGroup(NoCheck, p);
    FinishErr(NoCheck, p, MissingLeftParen);
    ScanCloseGroup(Builds, p);
    FinishErr(Builds, p, MissingLeftParen);
  }

  /** A star with nothing before it to repeat lacks its operand. */
  lemma ErrorLoneStar(p: seq<char>)
    requires p == "*"
    ensures CppParse(p) == Err(MissingOperand(StarOp)) && PyParse(p) == Err(MissingOperand(StarOp))
  {
    var nil: seq<Re<char>> := [];
    ScanStar(NoCheck, p);
    assert Drain(NoCheck, [StarOp], nil) == Err(MissingOperand(StarOp));
    FinishErr(NoCheck, p, MissingOperand(StarOp));
    ScanStar(Builds, p);
    assert Drain(Builds, [StarOp], nil) == Err(MissingOperand(StarOp));
    FinishErr(Builds, p, MissingOperand(StarOp));
  }

  /** An alternative left empty lacks its operand: `(|abc)` is refused. */
  lemma ErrorEmptyAlternative(p: seq<char>)
    requires p == "(|abc)"
    ensures CppParse(p) == Err(MissingOperand(AltOp)) && PyParse(p) == Err(MissingOperand(AltOp))
  {
    ScanEmptyAlternative(NoCheck, p);
    FinishErr(NoCheck, p, MissingOperand(AltOp));
    assert PassesABC(Builds);
    ScanEmptyAlternative(Builds, p);
    FinishErr(Builds, p, MissingOperand(AltOp));
  }

  /** The `)` of `(|abc)`: after `abc` is built, the `|` finds one operand. */
  lemma CloseWithoutLeft(ok: Re<char> -> bool)
    requires PassesABC(ok)
    ensures StepChar(ok, PState([LParen, AltOp, CatOp, CatOp], [Lit('a'), Lit('b'), Lit('c')], true), ')')
         == Err(MissingOperand(AltOp))
  {
    UnwindShortAlt(ok, Lit('a'), Lit('b'), Lit('c'));
    CloseErrStep(ok, PState([LParen, AltOp, CatOp, CatOp], [Lit('a'), Lit('b'), Lit('c')], true), MissingOperand(AltOp));
  }

  lemma UnwindShortAlt(ok: Re<char> -> bool, x: Re<char>, y: Re<char>, z: Re<char>)
    requires ok(Cat(y, z)) && ok(Cat(x, Cat(y, z)))
    ensures Unwind(ok, UntilParen, [LParen, AltOp, CatOp, CatOp], [x, y, z]) == Err(MissingOperand(AltOp))
  {
    var L, A, K := LParen, AltOp, CatOp;
    assert EvalRe(ok, K, [x, y, z]) == Ok([x, Cat(y, z)]) by {
      assert [x, y, z][..1] + [Cat(y, z)] == [x, Cat(y, z)];
    }
    assert EvalRe(ok, K, [x, Cat(y, z)]) == Ok([Cat(x, Cat(y, z))]) by {
      assert [x, Cat(y, z)][..0] + [Cat(x, Cat(y, z))] == [Cat(x, Cat(y, z))];
    }
    assert [L, A, K, K][..3] == [L, A, K] && [L, A, K][..2] == [L, A];
    UnwindAhead(ok, UntilParen, [L, A, K, K], [x, y, z], [x, Cat(y, z)]);
    UnwindAhead(ok, UntilParen, [L, A, K], [x, Cat(y, z)], [Cat(x, Cat(y, z))]);
    assert EvalRe(ok, A, [Cat(x, Cat(y, z))]).Err?;
  }

  // ----------------------------------------------------------------- quirks

  /** `)` does not count as an operand, so nothing joins `()` to the `a`
      after it: two values are left, C++ answers with the top one (`a`) and
      Python with the bottom one (the empty word). */
  lemma QuirkGroupThenLiteral(p: seq<char>)
    requires p == "()a"
    ensures ParseStack(NoCheck, p) == Ok([Eps, Lit('a')]) && ParseStack(Builds, p) == Ok([Eps, Lit('a')])
    ensures CppParse(p) == Ok(Lit('a')) && PyParse(p) == Ok(Eps)
  {
    ScanGroupThen(NoCheck, p, 'a');
    Finish(NoCheck, p, PState([], [Eps, Lit('a')], true), [Eps, Lit('a')]);
    ScanGroupThen(Builds, p, 'a');
    Finish(Builds, p, PState([], [Eps, Lit('a')], true), [Eps, Lit('a')]);
  }

  /** A leading star waits on the stack and applies to the literal after it:
      `*a` is `a*`. */
  lemma QuirkLeadingStar(p: seq<char>)
    requires p == "*a"
    ensures CppParse(p) == Ok(Star(Lit('a'))) && PyParse(p) == Ok(Star(Lit('a')))
  {
    ScanStar(NoCheck, p);
    DrainStar(NoCheck, Lit('a'));
    Finish(NoCheck, p, PState([StarOp], [Lit('a')], true), [Star(Lit('a'))]);
    ScanStar(Builds, p);
    DrainStar(Builds, Lit('a'));
    Finish(Builds, p, PState([StarOp], [Lit('a')], true), [Star(Lit('a'))]);
  }

  /** The star of the empty group parses to `()*`, whose only word is the
      empty word; Python cannot build it, and fails with `StateNotFound`. */
  lemma QuirkStarOfEmptyGroup(p: seq<char>)
    requires p == "()*"
    ensures ParseStack(NoCheck, p) == Ok([Star(Eps)]) && CppParse(p) == Ok(Star(Eps))
    ensures PyParse(p) == Err(StateNotFound) && !P.PyBuilds(p)
  {
    var nil: seq<Op> := [];
    ScanGroupThen(NoCheck, p, '*');
    DrainStar(NoCheck, Eps);
    Finish(NoCheck, p, PState([StarOp], [Eps], false), [Star(Eps)]);
    ScanGroupThen(Builds, p, '*');
    assert EvalRe(Builds, StarOp, [Eps]) == Err(StateNotFound);
    assert Drain(Builds, [StarOp], [Eps]) == Err(StateNotFound);
    FinishErr(Builds, p, StateNotFound);
    assert !P.Built([Star(Eps)]) by {
      assert !Builds([Star(Eps)][0]);
    }
  }

  /** A star pending over one value drains to the star of it. */
  lemma DrainStar(ok: Re<char> -> bool, v: Re<char>)
    requires ok(Star(v))
    ensures Drain(ok, [StarOp], [v]) == Ok([Star(v)])
  {
    assert EvalRe(ok, StarOp, [v]) == Ok([Star(v)]) by {
      assert [v][..0] + [Star(v)] == [Star(v)];
    }
    assert [StarOp][..0] == [];
  }

  // -------------------------------------------------- compiled test patterns

  /** Running a C++ automaton on a string with no `'\0'` reads all of it. */
  method CppAsk(d: C.Dfa, t: seq<char>) returns (b: bool)
    requires C.Nul !in t
    ensures b <==> t in C.Lang(d)
  {
    C.CStrAt(t, |t|);
    assert t[..|t|] == t;
    b := C.Call(d, t);
  }

  /** Running a Python automaton compiled from `re` on a string. */
  method PyAsk(d: P.PyDfa, ghost re: Re<char>, t: seq<char>) returns (b: bool)
    requires P.Lang(d) == LangRe(P.MapRe(re))
    ensures b <==> t in LangRe(re)
  {
    b := P.Call(d, t);
    P.CharsLang(re, t);
  }

  /** C++ `from_regex` on a pattern with no `'\0'` whose parse leaves `vs`:
      the automaton of the top of the stack. */
  method CppCompile(p: seq<char>, ghost vs: seq<Re<char>>) returns (d: C.Dfa)
    requires |p| > 0 && C.Nul !in p && ParseStack(NoCheck, p) == Ok(vs)
    ensures |vs| > 0 && C.Lang(d) == LangRe(vs[|vs| - 1])
  {
    C.CStrAt(p, |p|);
    assert p[..|p|] == p;
    var r := C.FromRegex(p);
    d := r.value;
  }

  /** Python `from_regex` on a pattern whose parse, each automaton checked by
      its constructor, leaves `vs`: the automaton of the bottom of the stack. */
  method PyCompile(p: seq<char>, ghost vs: seq<Re<char>>) returns (d: P.PyDfa)
    requires |p| > 0 && ParseStack(Builds, p) == Ok(vs)
    ensures |vs| > 0 && P.Lang(d) == LangRe(P.MapRe(vs[0]))
  {
    var r := P.FromRegex(p);
    d := r.value;
  }

  /** C++ `from_regex("")`: the automaton of the empty word. */
  method CppCompileEmpty() returns (d: C.Dfa)
    ensures C.Lang(d) == LangRe(Eps)
  {
    var p: seq<char> := "";
    var r := C.FromRegex(p);
    d := r.value;
  }

  /** The strings the suites try on `b(a|b)*b`: the ones it refuses. */
  lemma BabRefuses()
    ensures "" !in LangRe(BAB) && "b" !in LangRe(BAB) && "ba" !in LangRe(BAB)
  {
    BabWords("");
    BabWords("b");
    BabWords("ba");
  }

  /** The strings the suites try on `b(a|b)*b`: the ones it accepts. */
  lemma BabAccepts()
    ensures "bb" in LangRe(BAB) && "bab" in LangRe(BAB)
  {
    var w, v := "bb", "bab";
    assert AB(w) && AB(v);
    BabWordsBuilt(w);
    BabWordsBuilt(v);
  }

  lemma BabAcceptsLong()
    ensures "bababbaab" in LangRe(BAB)
  {
    var w := "bababbaab";
    assert AB(w);
    BabWordsBuilt(w);
  }

  /** C++ `from_regex("b(a|b)*b")`. */
  method CppCompileBab() returns (d: C.Dfa)
    ensures C.Lang(d) == LangRe(BAB)
  {
    var p := "b(a|b)*b";
    ParseBab(p);
    d := CppCompile(p, [BAB]);
  }


  /** C++ `b(a|b)*b` on the strings of the test suite. */
  method CppRegexBab() returns (answers: seq<bool>)
    ensures answers == [false, false, true, true, false, true, true]
  {
    var d := CppCompileBab();
    BabRefuses();
    BabAccepts();
    BabAcceptsLong();
    var t0 := CppAsk(d, "");
    var t1 := CppAsk(d, "b");
    var t2 := CppAsk(d, "bb");
    var t3 := CppAsk(d, "bab");
    var t4 := CppAsk(d, "ba");
    var t5 := CppAsk(d, "bababbaab");
    answers := [t0, t1, t2, t3, t4, t3, t5];
  }

  /** C++ `""` and `()`: both accept the empty string and refuse `a`. */
  method CppRegexEmpty() returns (answers: seq<bool>)
    ensures answers == [true, false, true, false]
  {
    var e := CppCompileEmpty();
    var t0 := CppAsk(e, "");
    var t1 := CppAsk(e, "a");
    var p := "()";
    ParseEmptyGroup(p);
    C.CStrAt(p, |p|);
    assert p[..|p|] == p;
    var r := C.FromRegex(p);
    var e2 := r.value;
    var t2 := CppAsk(e2, "");
    var t3 := CppAsk(e2, "a");
    answers := [t0, t1, t2, t3];
  }

  /** The strings the suites try on `(()|abc)`. */
  lemma OptABCTapes()
    ensures "" in LangRe(OptABC) && "abc" in LangRe(OptABC) && "abcabc" !in LangRe(OptABC)
  {
    OptABCWords("");
    OptABCWords("abc");
    OptABCWords("abcabc");
  }

  /** C++ `from_regex("(()|abc)")`. */
  method CppCompileOptional() returns (d: C.Dfa)
    ensures C.Lang(d) == LangRe(OptABC)
  {
    var p := "(()|abc)";
    ParseOptABC(NoCheck, p);
    d := CppCompile(p, [OptABC]);
  }


  /** C++ `(()|abc)`, the empty word or `abc`. */
  method CppRegexOptional() returns (answers: seq<bool>)
    ensures answers == [true, true, false]
  {
    var d := CppCompileOptional();
    OptABCTapes();
    var t0 := CppAsk(d, "");
    var t1 := CppAsk(d, "abc");
    var t2 := CppAsk(d, "abcabc");
    answers := [t0, t1, t2];
  }

  /** Python can build every automaton along `b(a|b)*b`. */
  lemma BuildsBab()
    ensures var b, ab := Lit('b'), AorB;
            Builds(ab) && Builds(Star(ab)) && Builds(Cat(Star(ab), b)) && Builds(BAB)
  {
  }

  /** Python `DFA.from_regex("b(a|b)*b")`. */
  method PyCompileBab() returns (d: P.PyDfa)
    ensures P.Lang(d) == LangRe(P.MapRe(BAB))
  {
    var p := "b(a|b)*b";
    ParseBab(p);
    BuildsBab();
    d := PyCompile(p, [BAB]);
  }


  /** Python `b(a|b)*b` on the strings of the test suite. */
  method PyRegexBab() returns (answers: seq<bool>)
    ensures answers == [false, false, true, true, false, true, true]
  {
    var d := PyCompileBab();
    BabRefuses();
    BabAccepts();
    BabAcceptsLong();
    var t0 := PyAsk(d, BAB, "");
    var t1 := PyAsk(d, BAB, "b");
    var t2 := PyAsk(d, BAB, "bb");
    var t3 := PyAsk(d, BAB, "bab");
    var t4 := PyAsk(d, BAB, "ba");
    var t5 := PyAsk(d, BAB, "bababbaab");
    answers := [t0, t1, t2, t3, t4, t3, t5];
  }

  /** Python `""` and `()`: both accept the empty string and refuse `a`. */
  method PyRegexEmpty() returns (answers: seq<bool>)
    ensures answers == [true, false, true, false]
  {
    var e: Re<char> := Eps;
    var q: seq<char> := "";
    var r0 := P.FromRegex(q);
    var t0 := PyAsk(r0.value, e, "");
    var t1 := PyAsk(r0.value, e, "a");
    var p := "()";
    ParseEmptyGroup(p);
    var r := P.FromRegex(p);
    var t2 := PyAsk(r.value, e, "");
    var t3 := PyAsk(r.value, e, "a");
    answers := [t0, t1, t2, t3];
  }

  /** Python can build every automaton along `(()|abc)`: the empty group
      is only ever an operand of the `|`. */
  lemma BuildsOptABC()
    ensures PassesOptABC(Builds)
  {
  }

  /** Python `DFA.from_regex("(()|abc)")`. */
  method PyCompileOptional() returns (d: P.PyDfa)
    ensures P.Lang(d) == LangRe(P.MapRe(OptABC))
  {
    var p := "(()|abc)";
    BuildsOptABC();
    ParseOptABC(Builds, p);
    d := PyCompile(p, [OptABC]);
  }


  /** Python `(()|abc)`, the empty word or `abc`. */
  method PyRegexOptional() returns (answers: seq<bool>)
    ensures answers == [true, true, false]
  {
    var d := PyCompileOptional();
    OptABCTapes();
    var t0 := PyAsk(d, OptABC, "");
    var t1 := PyAsk(d, OptABC, "abc");
    var t2 := PyAsk(d, OptABC, "abcabc");
    answers := [t0, t1, t2];
  }

  /** `from_regex` in Python on the malformed patterns: each fails with the
      error of its parse. */
  method PyRegexErrors() returns (errors: seq<Result<P.PyDfa, ParseError>>)
    ensures errors == [Err(MissingRightParen), Err(MissingLeftParen),
                       Err(MissingOperand(StarOp)), Err(MissingOperand(AltOp))]
  {
    ErrorOpenGroup("(a");
    ErrorCloseGroup("a)");
    ErrorLoneStar("*");
    ErrorEmptyAlternative("(|abc)");
    var r0 := P.FromRegex("(a");
    var r1 := P.FromRegex("a)");
    var r2 := P.FromRegex("*");
    var r3 := P.FromRegex("(|abc)");
    errors := [r0, r1, r2, r3];
  }

  /** C++ `from_regex` on a pattern without a NUL whose parse fails. */
  method CppFails(p: seq<char>, ghost e: ParseError) returns (r: Result<C.Dfa, ParseError>)
    requires C.Nul !in p && CppParse(p) == Err(e)
    ensures r == Err(e)
  {
    C.CStrAt(p, |p|);
    assert p[..|p|] == p;
    r := C.FromRegex(p);
  }

  /** `from_regex` in C++ on the same patterns. */
  method CppRegexErrors() returns (errors: seq<Result<C.Dfa, ParseError>>)
    ensures errors == [Err(MissingRightParen), Err(MissingLeftParen),
                       Err(MissingOperand(StarOp)), Err(MissingOperand(AltOp))]
  {
    ErrorOpenGroup("(a");
    ErrorCloseGroup("a)");
    ErrorLoneStar("*");
    ErrorEmptyAlternative("(|abc)");
    var r0 := CppFails("(a", MissingRightParen);
    var r1 := CppFails("a)", MissingLeftParen);
    var r2 := CppFails("*", MissingOperand(StarOp));
    var r3 := CppFails("(|abc)", MissingOperand(AltOp));
    errors := [r0, r1, r2, r3];
  }

  /** Python refuses `()*`: the star of the empty-word automaton has no
      transition from its start, and the state lookup finds no state. */
  method PyStarOfEmptyGroup() returns (r: Result<P.PyDfa, ParseError>)
    ensures r == Err(StateNotFound)
  {
    var p := "()*";
    QuirkStarOfEmptyGroup(p);
    r := P.FromRegex(p);
    assert r.Err?;
  }
}
