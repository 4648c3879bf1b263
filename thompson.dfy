/** The languages of the three nondeterministic automata the engine builds
    from deterministic ones before determinizing them again:

    - alternation: a fresh start with empty moves to both starts;
    - concatenation: empty moves from every accepting state of the left part
      to the start of the right part;
    - Kleene star: a fresh accepting start and empty moves from it and from
      every accepting state back to the old start.

    Each lemma assumes the parts are deterministic (`DetLike`) and mention
    disjoint states; the rule lists are described by which rules they hold, as
    their order does not change the nondeterministic reading. */
module Thompson {
  import opened Automata
  import opened Nfa
  import opened Languages

  /** The rules of `R1` from states outside `Q1`, where `Q1` holds every state
      `R1` mentions, leave from nowhere in `Q1`. */
  lemma IdsIn<S, A>(R1: seq<Rule<S, A>>, s: S, F: set<S>, r: Rule<S, A>)
    requires r in R1
    ensures r.p in States(s, F, R1) && r.q in States(s, F, R1)
  {
  }

  /** A step of a word's prefix is a step of the word. */
  lemma RunPrefix<S, A>(R: seq<Rule<S, A>>, x: S, w: seq<A>, k: nat)
    requires 1 <= k <= |w|
    ensures Run(R, x, w[..k]) == match Step(R, x, w[0])
              case None => None
              case Some(y) => Run(R, y, w[1..][..k - 1])
  {
    assert w[..k][0] == w[0];
    assert w[..k][1..] == w[1..][..k - 1];
  }

  // ------------------------------------------------------------ alternation

  /** The rule list of the alternation automaton, up to order. */
  ghost predicate AltShape<S, A>(R: seq<Rule<S, A>>, RA: seq<Rule<S, A>>, RB: seq<Rule<S, A>>,
                                 eps: A, s: S, sA: S, sB: S)
  {
    (forall r :: r in R ==> r in RA || r in RB || r == Rule(s, eps, sA) || r == Rule(s, eps, sB)) &&
    (forall r :: r in RA ==> r in R) && (forall r :: r in RB ==> r in R) &&
    Rule(s, eps, sA) in R && Rule(s, eps, sB) in R
  }

  ghost predicate AltSetting<S, A>(R: seq<Rule<S, A>>, RA: seq<Rule<S, A>>, RB: seq<Rule<S, A>>, eps: A,
                                   s: S, sA: S, FA: set<S>, sB: S, FB: set<S>)
  {
    DetLike(RA, eps) && DetLike(RB, eps) && States(sA, FA, RA) !! States(sB, FB, RB) &&
    s !in States(sA, FA, RA) + States(sB, FB, RB) && AltShape(R, RA, RB, eps, s, sA, sB)
  }

  /** Each part's rules are the only ones leaving its states. */
  lemma AltConfined<S, A>(R: seq<Rule<S, A>>, RA: seq<Rule<S, A>>, RB: seq<Rule<S, A>>, eps: A,
                          s: S, sA: S, FA: set<S>, sB: S, FB: set<S>)
    requires AltSetting(R, RA, RB, eps, s, sA, FA, sB, FB)
    ensures Confined(R, RA, States(sA, FA, RA)) && Confined(R, RB, States(sB, FB, RB))
  {
    var QA := States(sA, FA, RA);
    var QB := States(sB, FB, RB);
    forall r | r in R && r.p in QA ensures r in RA {
      if r in RB { IdsIn(RB, sB, FB, r); }
    }
    forall r | r in R && r.p in QB ensures r in RB {
      if r in RA { IdsIn(RA, sA, FA, r); }
    }
    forall r | r in RA ensures r in R && r.p in QA && r.q in QA { IdsIn(RA, sA, FA, r); }
    forall r | r in RB ensures r in R && r.p in QB && r.q in QB { IdsIn(RB, sB, FB, r); }
  }

  /** The fresh start closes to itself and the two old starts. */
  lemma AltClosure<S, A>(R: seq<Rule<S, A>>, RA: seq<Rule<S, A>>, RB: seq<Rule<S, A>>, eps: A,
                         s: S, sA: S, FA: set<S>, sB: S, FB: set<S>)
    requires AltSetting(R, RA, RB, eps, s, sA, FA, sB, FB)
    ensures Cl(R, eps, {s}) == {s} + {sA} + {sB}
  {
    var C := {s} + {sA} + {sB};
    ClBasic(R, eps, {s});
    assert Rule(s, eps, sA) in R && Rule(s, eps, sB) in R;
    forall r | r in R && r.a == eps && r.p in C ensures r.q in C {
      if r in RA {
        assert r.q == r.p;
      } else if r in RB {
        assert r.q == r.p;
      }
    }
    ClUnique(R, eps, {s}, C);
  }

  /** A run inside a confined deterministic part reaches the accepting states
      `F` of the part, never the states `G` outside it. */
  lemma PartAccepts<S, A>(R: seq<Rule<S, A>>, R1: seq<Rule<S, A>>, eps: A, Q: set<S>, x: S,
                          F: set<S>, G: set<S>, w: seq<A>)
    requires Confined(R, R1, Q) && x in Q && DetLike(R1, eps) && NoEps(eps, w) && G !! Q
    ensures DeltaStar(R, eps, {x}, w) * (F + G) != {} <==> Accepts(R1, x, F, w)
  {
    EmbeddedRun(R, R1, eps, Q, x, w);
    RunInIds(R1, x, w);
    var r := Run(R1, x, w);
    if r.Some? {
      if |w| > 0 {
        var t :| t in R1 && (t.p == r.value || t.q == r.value);
      }
      assert r.value in Q;
      assert DeltaStar(R, eps, {x}, w) == {r.value};
      assert r.value in {r.value} * (F + G) <==> r.value in F;
    }
  }

  /** The fresh start contributes nothing: it is not accepting and has no moves. */
  lemma AltStartPart<S, A>(R: seq<Rule<S, A>>, RA: seq<Rule<S, A>>, RB: seq<Rule<S, A>>, eps: A,
                           s: S, sA: S, FA: set<S>, sB: S, FB: set<S>, w: seq<A>)
    requires AltSetting(R, RA, RB, eps, s, sA, FA, sB, FB) && NoEps(eps, w)
    ensures DeltaStar(R, eps, {s}, w) * (FA + FB) == {}
  {
    if |w| > 0 {
      forall r | r in R && r.p == s ensures r.a == eps {
        if r in RA { IdsIn(RA, sA, FA, r); }
        if r in RB { IdsIn(RB, sB, FB, r); }
      }
      assert Post(R, eps, {s}, w[0]) == {};
      ClEmpty(R, eps);
      DeltaStarEmpty(R, eps, w[1..]);
    }
  }

  /** One word: accepted by the alternation exactly when one of the parts accepts it. */
  lemma AltWord<S, A>(R: seq<Rule<S, A>>, RA: seq<Rule<S, A>>, RB: seq<Rule<S, A>>, eps: A,
                      s: S, sA: S, FA: set<S>, sB: S, FB: set<S>, w: seq<A>)
    requires AltSetting(R, RA, RB, eps, s, sA, FA, sB, FB) && NoEps(eps, w)
    ensures NfaAccepts(R, eps, s, FA + FB, w) <==> Accepts(RA, sA, FA, w) || Accepts(RB, sB, FB, w)
  {
    AltConfined(R, RA, RB, eps, s, sA, FA, sB, FB);
    AltClosure(R, RA, RB, eps, s, sA, FA, sB, FB);
    DeltaStarUnion(R, eps, {s} + {sA}, {sB}, w);
    DeltaStarUnion(R, eps, {s}, {sA}, w);
    AltStartPart(R, RA, RB, eps, s, sA, FA, sB, FB, w);
    PartAccepts(R, RA, eps, States(sA, FA, RA), sA, FA, FB, w);
    PartAccepts(R, RB, eps, States(sB, FB, RB), sB, FB, FA, w);
    assert FA + FB == FB + FA;
  }

  /** The alternation automaton accepts the union of the two languages. */
  lemma AltLang<S, A(!new)>(R: seq<Rule<S, A>>, RA: seq<Rule<S, A>>, RB: seq<Rule<S, A>>, eps: A,
                            s: S, sA: S, FA: set<S>, sB: S, FB: set<S>)
    requires DetLike(RA, eps) && DetLike(RB, eps)
    requires States(sA, FA, RA) !! States(sB, FB, RB)
    requires s !in States(sA, FA, RA) + States(sB, FB, RB)
    requires AltShape(R, RA, RB, eps, s, sA, sB)
    ensures NfaLang(R, eps, s, FA + FB) == DfaLang(RA, eps, sA, FA) + DfaLang(RB, eps, sB, FB)
  {
    forall w: seq<A> | NoEps(eps, w)
      ensures NfaAccepts(R, eps, s, FA + FB, w) <==> Accepts(RA, sA, FA, w) || Accepts(RB, sB, FB, w)
    {
      AltWord(R, RA, RB, eps, s, sA, FA, sB, FB, w);
    }
  }

  // ---------------------------------------------------------- concatenation

  /** The rule list of the concatenation automaton, up to order. */
  ghost predicate CatShape<S, A>(R: seq<Rule<S, A>>, RA: seq<Rule<S, A>>, RB: seq<Rule<S, A>>,
                                 eps: A, FA: set<S>, sB: S)
  {
    (forall r :: r in R ==> r in RA || r in RB || (r.a == eps && r.p in FA && r.q == sB)) &&
    (forall r :: r in RA ==> r in R) && (forall r :: r in RB ==> r in R) &&
    (forall f :: f in FA ==> Rule(f, eps, sB) in R)
  }

  ghost predicate CatSetting<S, A>(R: seq<Rule<S, A>>, RA: seq<Rule<S, A>>, RB: seq<Rule<S, A>>,
                                   eps: A, sA: S, FA: set<S>, sB: S, FB: set<S>)
  {
    DetLike(RA, eps) && DetLike(RB, eps) && States(sA, FA, RA) !! States(sB, FB, RB) &&
    CatShape(R, RA, RB, eps, FA, sB)
  }

  /** Some prefix is accepted by the left part from `x`, the rest by the right part. */
  ghost predicate CatSplit<S, A>(RA: seq<Rule<S, A>>, x: S, FA: set<S>,
                                 RB: seq<Rule<S, A>>, sB: S, FB: set<S>, w: seq<A>)
  {
    exists k :: 0 <= k <= |w| && Accepts(RA, x, FA, w[..k]) && Accepts(RB, sB, FB, w[k..])
  }

  lemma CatConfined<S, A>(R: seq<Rule<S, A>>, RA: seq<Rule<S, A>>, RB: seq<Rule<S, A>>,
                          eps: A, sA: S, FA: set<S>, sB: S, FB: set<S>)
    requires CatSetting(R, RA, RB, eps, sA, FA, sB, FB)
    ensures Confined(R, RB, States(sB, FB, RB))
    ensures forall r :: r in R && r.p in States(sA, FA, RA) && r.a != eps ==> r in RA
  {
    var QA := States(sA, FA, RA);
    var QB := States(sB, FB, RB);
    forall r | r in R && r.p in QB ensures r in RB {
      if r in RA { IdsIn(RA, sA, FA, r); }
    }
    forall r | r in RB ensures r in R && r.p in QB && r.q in QB { IdsIn(RB, sB, FB, r); }
    forall r | r in R && r.p in QA && r.a != eps ensures r in RA {
      if r in RB { IdsIn(RB, sB, FB, r); }
    }
  }

  /** From a left-part state the closure adds the right start exactly when the state accepts. */
  lemma CatClosure<S, A>(R: seq<Rule<S, A>>, RA: seq<Rule<S, A>>, RB: seq<Rule<S, A>>,
                         eps: A, sA: S, FA: set<S>, sB: S, FB: set<S>, x: S)
    requires CatSetting(R, RA, RB, eps, sA, FA, sB, FB) && x in States(sA, FA, RA)
    ensures Cl(R, eps, {x}) == {x} + (if x in FA then {sB} else {})
  {
    var C := {x} + (if x in FA then {sB} else {});
    ClBasic(R, eps, {x});
    if x in FA {
      assert Rule(x, eps, sB) in R;
    }
    forall r | r in R && r.a == eps && r.p in C ensures r.q in C {
      if r in RA {
        assert r.q == r.p;
      } else if r in RB {
        assert r.q == r.p;
      } else {
        assert r.p in FA;
      }
    }
    ClUnique(R, eps, {x}, C);
  }

  /** Reading a symbol from a left-part state follows the left part alone. */
  lemma CatPost<S, A>(R: seq<Rule<S, A>>, RA: seq<Rule<S, A>>, RB: seq<Rule<S, A>>,
                      eps: A, sA: S, FA: set<S>, sB: S, FB: set<S>, x: S, c: A)
    requires CatSetting(R, RA, RB, eps, sA, FA, sB, FB) && x in States(sA, FA, RA) && c != eps
    ensures Post(R, eps, {x}, c) == OptSet(Step(RA, x, c))
  {
    CatConfined(R, RA, RB, eps, sA, FA, sB, FB);
    assert Post(R, eps, {x}, c) == Post(RA, eps, {x}, c);
    DetPost(RA, eps, x, c);
  }

  /** A split of the empty word leaves everything to the right part. */
  lemma CatSplitNil<S, A>(RA: seq<Rule<S, A>>, x: S, FA: set<S>, RB: seq<Rule<S, A>>, sB: S, FB: set<S>, w: seq<A>)
    requires |w| == 0
    ensures CatSplit(RA, x, FA, RB, sB, FB, w) <==> x in FA && Accepts(RB, sB, FB, w)
  {
    assert w[..0] == w && w[0..] == w;
  }

  /** A split of a nonempty word is either at the front or after the first step. */
  lemma CatSplitCons<S, A>(RA: seq<Rule<S, A>>, x: S, FA: set<S>, RB: seq<Rule<S, A>>, sB: S, FB: set<S>, w: seq<A>)
    requires |w| > 0
    ensures CatSplit(RA, x, FA, RB, sB, FB, w) <==>
              (x in FA && Accepts(RB, sB, FB, w)) ||
              (Step(RA, x, w[0]).Some? && CatSplit(RA, Step(RA, x, w[0]).value, FA, RB, sB, FB, w[1..]))
  {
    assert w[..0] == [] && w[0..] == w;
    if CatSplit(RA, x, FA, RB, sB, FB, w) {
      var k :| 0 <= k <= |w| && Accepts(RA, x, FA, w[..k]) && Accepts(RB, sB, FB, w[k..]);
      if k > 0 {
        RunPrefix(RA, x, w, k);
        assert w[k..] == w[1..][k - 1..];
      }
    }
    if Step(RA, x, w[0]).Some? && CatSplit(RA, Step(RA, x, w[0]).value, FA, RB, sB, FB, w[1..]) {
      var y := Step(RA, x, w[0]).value;
      var k :| 0 <= k <= |w[1..]| && Accepts(RA, y, FA, w[1..][..k]) && Accepts(RB, sB, FB, w[1..][k..]);
      RunPrefix(RA, x, w, k + 1);
      assert w[k + 1..] == w[1..][k..];
    }
  }

  /** What the right part accepts when it is entered before reading anything. */
  lemma CatRight<S, A>(R: seq<Rule<S, A>>, RA: seq<Rule<S, A>>, RB: seq<Rule<S, A>>,
                       eps: A, sA: S, FA: set<S>, sB: S, FB: set<S>, x: S, w: seq<A>)
    requires CatSetting(R, RA, RB, eps, sA, FA, sB, FB) && NoEps(eps, w)
    ensures DeltaStar(R, eps, if x in FA then {sB} else {}, w) * FB != {} <==> x in FA && Accepts(RB, sB, FB, w)
  {
    if x in FA {
      CatConfined(R, RA, RB, eps, sA, FA, sB, FB);
      EmbeddedRun(R, RB, eps, States(sB, FB, RB), sB, w);
    } else {
      DeltaStarEmpty(R, eps, w);
    }
  }

  /** From a left-part state the automaton accepts the words that split there. */
  lemma {:induction false} CatAcc<S, A>(R: seq<Rule<S, A>>, RA: seq<Rule<S, A>>, RB: seq<Rule<S, A>>,
                                        eps: A, sA: S, FA: set<S>, sB: S, FB: set<S>, x: S, w: seq<A>)
    requires CatSetting(R, RA, RB, eps, sA, FA, sB, FB) && x in States(sA, FA, RA) && NoEps(eps, w)
    ensures DeltaStar(R, eps, Cl(R, eps, {x}), w) * FB != {} <==> CatSplit(RA, x, FA, RB, sB, FB, w)
    decreases |w|
  {
    var Bx: set<S> := if x in FA then {sB} else {};
    CatClosure(R, RA, RB, eps, sA, FA, sB, FB, x);
    DeltaStarUnion(R, eps, {x}, Bx, w);
    CatRight(R, RA, RB, eps, sA, FA, sB, FB, x, w);
    // what the left part contributes
    var left := DeltaStar(R, eps, {x}, w) * FB != {};
    if |w| == 0 {
      CatSplitNil(RA, x, FA, RB, sB, FB, w);
      assert !left by {
        assert x !in States(sB, FB, RB);
      }
    } else {
      var c := w[0];
      CatPost(R, RA, RB, eps, sA, FA, sB, FB, x, c);
      CatSplitCons(RA, x, FA, RB, sB, FB, w);
      DeltaStarCons(R, eps, {x}, w);
      assert NoEps(eps, w[1..]);
      match Step(RA, x, c)
      case None =>
        ClEmpty(R, eps);
        DeltaStarEmpty(R, eps, w[1..]);
      case Some(y) =>
        assert y in States(sA, FA, RA) by { assert Rule(x, c, y) in RA; }
        CatAcc(R, RA, RB, eps, sA, FA, sB, FB, y, w[1..]);
    }
  }

  /** The concatenation automaton accepts the concatenation of the two languages. */
  lemma CatLang<S, A(!new)>(R: seq<Rule<S, A>>, RA: seq<Rule<S, A>>, RB: seq<Rule<S, A>>, eps: A,
                            sA: S, FA: set<S>, sB: S, FB: set<S>)
    requires DetLike(RA, eps) && DetLike(RB, eps)
    requires States(sA, FA, RA) !! States(sB, FB, RB)
    requires CatShape(R, RA, RB, eps, FA, sB)
    ensures NfaLang(R, eps, sA, FB) == CatL(DfaLang(RA, eps, sA, FA), DfaLang(RB, eps, sB, FB))
  {
    forall w: seq<A> | NoEps(eps, w)
      ensures NfaAccepts(R, eps, sA, FB, w) <==> w in CatL(DfaLang(RA, eps, sA, FA), DfaLang(RB, eps, sB, FB))
    {
      CatAcc(R, RA, RB, eps, sA, FA, sB, FB, sA, w);
      CatSplitLang(RA, eps, sA, FA, RB, sB, FB, w);
    }
    forall w: seq<A> | w in CatL(DfaLang(RA, eps, sA, FA), DfaLang(RB, eps, sB, FB))
      ensures NoEps(eps, w)
    {
      CatSplitLang(RA, eps, sA, FA, RB, sB, FB, w);
    }
  }

  /** A split from the left start is a word of the concatenated languages,
      whose words never hold `eps`. */
  lemma CatSplitLang<S, A(!new)>(RA: seq<Rule<S, A>>, eps: A, sA: S, FA: set<S>,
                                 RB: seq<Rule<S, A>>, sB: S, FB: set<S>, w: seq<A>)
    ensures w in CatL(DfaLang(RA, eps, sA, FA), DfaLang(RB, eps, sB, FB)) <==>
              NoEps(eps, w) && CatSplit(RA, sA, FA, RB, sB, FB, w)
  {
    forall k | 0 <= k <= |w| ensures NoEps(eps, w) <==> NoEps(eps, w[..k]) && NoEps(eps, w[k..]) {
      assert w == w[..k] + w[k..];
    }
  }

  // ------------------------------------------------------------- Kleene star

  /** The rule list of the star automaton with fresh start `s`, up to order. */
  ghost predicate StarShape<S, A>(R: seq<Rule<S, A>>, RA: seq<Rule<S, A>>, eps: A, s: S, sA: S, FA: set<S>)
  {
    (forall r :: r in R ==> r in RA || (r.a == eps && (r.p in FA || r.p == s) && r.q == sA)) &&
    (forall r :: r in RA ==> r in R) &&
    (forall f :: f in FA ==> Rule(f, eps, sA) in R) && Rule(s, eps, sA) in R
  }

  ghost predicate StarSetting<S, A>(R: seq<Rule<S, A>>, RA: seq<Rule<S, A>>, eps: A, s: S, sA: S, FA: set<S>)
  {
    DetLike(RA, eps) && s !in States(sA, FA, RA) && StarShape(R, RA, eps, s, sA, FA)
  }

  /** Some prefix is accepted by the old automaton from `x` and the rest is in the star. */
  ghost predicate StarSplit<S, A(!new)>(RA: seq<Rule<S, A>>, eps: A, x: S, sA: S, FA: set<S>, w: seq<A>)
  {
    exists k :: 0 <= k <= |w| && Accepts(RA, x, FA, w[..k]) && InStar(DfaLang(RA, eps, sA, FA), w[k..])
  }

  lemma StarClosure<S, A>(R: seq<Rule<S, A>>, RA: seq<Rule<S, A>>, eps: A, s: S, sA: S, FA: set<S>, x: S)
    requires StarSetting(R, RA, eps, s, sA, FA) && (x in States(sA, FA, RA) || x == s)
    ensures Cl(R, eps, {x}) == {x} + (if x in FA || x == s then {sA} else {})
  {
    var C := {x} + (if x in FA || x == s then {sA} else {});
    ClBasic(R, eps, {x});
    if x in FA || x == s {
      assert Rule(x, eps, sA) in R;
    }
    forall r | r in R && r.a == eps && r.p in C ensures r.q in C {
      if r in RA {
        assert r.q == r.p;
      }
    }
    ClUnique(R, eps, {x}, C);
  }

  lemma StarPost<S, A>(R: seq<Rule<S, A>>, RA: seq<Rule<S, A>>, eps: A, s: S, sA: S, FA: set<S>, x: S, c: A)
    requires StarSetting(R, RA, eps, s, sA, FA) && c != eps
    ensures x in States(sA, FA, RA) ==> Post(R, eps, {x}, c) == OptSet(Step(RA, x, c))
    ensures Post(R, eps, {s}, c) == {}
  {
    if x in States(sA, FA, RA) {
      assert Post(R, eps, {x}, c) == Post(RA, eps, {x}, c);
      DetPost(RA, eps, x, c);
    }
    forall r | r in R && r.a == c && r.p == s ensures false {
      IdsIn(RA, sA, FA, r);
    }
  }

  /** A nonempty word steps out of `x` into a state accepting the rest, exactly
      when some nonempty prefix is accepted from `x` and the rest is in the star. */
  lemma StarStepped<S, A(!new)>(R: seq<Rule<S, A>>, RA: seq<Rule<S, A>>, eps: A, s: S, sA: S, FA: set<S>,
                                x: S, w: seq<A>)
    requires StarSetting(R, RA, eps, s, sA, FA) && x in States(sA, FA, RA) && NoEps(eps, w) && |w| > 0
    requires forall y :: y in States(sA, FA, RA) ==>
               (DeltaStar(R, eps, Cl(R, eps, {y}), w[1..]) * (FA + {s}) != {} <==>
                StarSplit(RA, eps, y, sA, FA, w[1..]))
    ensures DeltaStar(R, eps, Cl(R, eps, Post(R, eps, {x}, w[0])), w[1..]) * (FA + {s}) != {} <==>
            exists k :: 1 <= k <= |w| && Accepts(RA, x, FA, w[..k]) && InStar(DfaLang(RA, eps, sA, FA), w[k..])
  {
    var L := DfaLang(RA, eps, sA, FA);
    StarPost(R, RA, eps, s, sA, FA, x, w[0]);
    var lhs := DeltaStar(R, eps, Cl(R, eps, Post(R, eps, {x}, w[0])), w[1..]) * (FA + {s}) != {};
    match Step(RA, x, w[0])
    case None =>
      ClEmpty(R, eps);
      DeltaStarEmpty(R, eps, w[1..]);
      assert !lhs;
      if exists k :: 1 <= k <= |w| && Accepts(RA, x, FA, w[..k]) && InStar(L, w[k..]) {
        var k :| 1 <= k <= |w| && Accepts(RA, x, FA, w[..k]) && InStar(L, w[k..]);
        RunPrefix(RA, x, w, k);
      }
    case Some(y) =>
      assert y in States(sA, FA, RA) by { assert Rule(x, w[0], y) in RA; }
      assert lhs <==> StarSplit(RA, eps, y, sA, FA, w[1..]);
      if lhs {
        var k :| 0 <= k <= |w[1..]| && Accepts(RA, y, FA, w[1..][..k]) && InStar(L, w[1..][k..]);
        RunPrefix(RA, x, w, k + 1);
        assert w[k + 1..] == w[1..][k..];
      }
      if exists k :: 1 <= k <= |w| && Accepts(RA, x, FA, w[..k]) && InStar(L, w[k..]) {
        var k :| 1 <= k <= |w| && Accepts(RA, x, FA, w[..k]) && InStar(L, w[k..]);
        RunPrefix(RA, x, w, k);
        assert w[k..] == w[1..][k - 1..];
        assert StarSplit(RA, eps, y, sA, FA, w[1..]);
      }
  }

  /** A word splits after some prefix accepted from `x` exactly when either `x`
      accepts and the word is in the star, or a nonempty prefix does. */
  lemma StarSplitCases<S, A(!new)>(RA: seq<Rule<S, A>>, eps: A, x: S, sA: S, FA: set<S>, w: seq<A>)
    ensures StarSplit(RA, eps, x, sA, FA, w) <==>
              (x in FA && InStar(DfaLang(RA, eps, sA, FA), w)) ||
              exists k :: 1 <= k <= |w| && Accepts(RA, x, FA, w[..k]) && InStar(DfaLang(RA, eps, sA, FA), w[k..])
  {
    assert Accepts(RA, x, FA, w[..0]) <==> x in FA;
    assert w[0..] == w;
  }

  /** From the old start, a nonempty accepted prefix followed by the star is the star. */
  lemma StarFromStart<S, A(!new)>(RA: seq<Rule<S, A>>, eps: A, sA: S, FA: set<S>, w: seq<A>)
    requires NoEps(eps, w) && |w| > 0
    ensures InStar(DfaLang(RA, eps, sA, FA), w) <==>
              exists k :: 1 <= k <= |w| && Accepts(RA, sA, FA, w[..k]) && InStar(DfaLang(RA, eps, sA, FA), w[k..])
  {
    var L := DfaLang(RA, eps, sA, FA);
    if InStar(L, w) {
      var k :| 1 <= k <= |w| && w[..k] in L && InStar(L, w[k..]);
      assert Accepts(RA, sA, FA, w[..k]);
    }
    if exists k :: 1 <= k <= |w| && Accepts(RA, sA, FA, w[..k]) && InStar(L, w[k..]) {
      var k :| 1 <= k <= |w| && Accepts(RA, sA, FA, w[..k]) && InStar(L, w[k..]);
      assert NoEps(eps, w[..k]) by { assert w == w[..k] + w[k..]; }
      assert w[..k] in L;
    }
  }

  /** The star automaton from an old state on the empty word. */
  lemma StarAccNil<S, A(!new)>(R: seq<Rule<S, A>>, RA: seq<Rule<S, A>>, eps: A, s: S, sA: S, FA: set<S>, x: S)
    requires StarSetting(R, RA, eps, s, sA, FA) && x in States(sA, FA, RA)
    ensures (Cl(R, eps, {x}) * (FA + {s}) != {}) <==> StarSplit(RA, eps, x, sA, FA, [])
  {
    StarClosure(R, RA, eps, s, sA, FA, x);
    StarSplitCases(RA, eps, x, sA, FA, []);
  }

  /** The star automaton from an old state on a nonempty word, given the claim
      for the rest of the word from every old state. */
  lemma StarAccCons<S, A(!new)>(R: seq<Rule<S, A>>, RA: seq<Rule<S, A>>, eps: A, s: S, sA: S, FA: set<S>,
                                x: S, w: seq<A>)
    requires StarSetting(R, RA, eps, s, sA, FA) && x in States(sA, FA, RA) && NoEps(eps, w) && |w| > 0
    requires forall y :: y in States(sA, FA, RA) ==>
               (DeltaStar(R, eps, Cl(R, eps, {y}), w[1..]) * (FA + {s}) != {} <==>
                StarSplit(RA, eps, y, sA, FA, w[1..]))
    ensures DeltaStar(R, eps, Cl(R, eps, {x}), w) * (FA + {s}) != {} <==> StarSplit(RA, eps, x, sA, FA, w)
  {
    var F := FA + {s};
    StarClosure(R, RA, eps, s, sA, FA, x);
    var Bx: set<S> := if x in FA then {sA} else {};
    DeltaStarUnion(R, eps, {x}, Bx, w);
    StarStepped(R, RA, eps, s, sA, FA, x, w);
    if x in FA {
      StarStepped(R, RA, eps, s, sA, FA, sA, w);
      StarFromStart(RA, eps, sA, FA, w);
    } else {
      DeltaStarEmpty(R, eps, w);
    }
    StarSplitCases(RA, eps, x, sA, FA, w);
  }

  /** From an old state the star automaton accepts the words with an accepted
      prefix from that state followed by a word of the star. */
  lemma {:induction false} StarAcc<S, A(!new)>(R: seq<Rule<S, A>>, RA: seq<Rule<S, A>>, eps: A,
                                               s: S, sA: S, FA: set<S>, x: S, w: seq<A>)
    requires StarSetting(R, RA, eps, s, sA, FA) && x in States(sA, FA, RA) && NoEps(eps, w)
    ensures DeltaStar(R, eps, Cl(R, eps, {x}), w) * (FA + {s}) != {} <==> StarSplit(RA, eps, x, sA, FA, w)
    decreases |w|
  {
    if |w| == 0 {
      StarAccNil(R, RA, eps, s, sA, FA, x);
    } else {
      assert NoEps(eps, w[1..]);
      forall y | y in States(sA, FA, RA)
        ensures DeltaStar(R, eps, Cl(R, eps, {y}), w[1..]) * (FA + {s}) != {} <==>
                StarSplit(RA, eps, y, sA, FA, w[1..])
      {
        StarAcc(R, RA, eps, s, sA, FA, y, w[1..]);
      }
      StarAccCons(R, RA, eps, s, sA, FA, x, w);
    }
  }

  /** One word of the star automaton. */
  lemma StarWord<S, A(!new)>(R: seq<Rule<S, A>>, RA: seq<Rule<S, A>>, eps: A, s: S, sA: S, FA: set<S>, w: seq<A>)
    requires StarSetting(R, RA, eps, s, sA, FA) && NoEps(eps, w)
    ensures NfaAccepts(R, eps, s, FA + {s}, w) <==> InStar(DfaLang(RA, eps, sA, FA), w)
  {
    StarClosure(R, RA, eps, s, sA, FA, s);
    StarClosure(R, RA, eps, s, sA, FA, sA);
    assert Cl(R, eps, {s}) == {s} + Cl(R, eps, {sA});
    DeltaStarUnion(R, eps, {s}, Cl(R, eps, {sA}), w);
    StarAcc(R, RA, eps, s, sA, FA, sA, w);
    if |w| > 0 {
      StarPost(R, RA, eps, s, sA, FA, sA, w[0]);
      ClEmpty(R, eps);
      DeltaStarEmpty(R, eps, w[1..]);
      assert DeltaStar(R, eps, {s}, w) == {};
      StarSplitCases(RA, eps, sA, sA, FA, w);
      StarFromStart(RA, eps, sA, FA, w);
    }
  }

  /** The star automaton accepts the Kleene star of the old language. */
  lemma StarLang<S, A(!new)>(R: seq<Rule<S, A>>, RA: seq<Rule<S, A>>, eps: A, s: S, sA: S, FA: set<S>)
    requires DetLike(RA, eps) && s !in States(sA, FA, RA)
    requires StarShape(R, RA, eps, s, sA, FA)
    ensures NfaLang(R, eps, s, FA + {s}) == StarL(DfaLang(RA, eps, sA, FA))
  {
    var L := DfaLang(RA, eps, sA, FA);
    forall w: seq<A> | NoEps(eps, w)
      ensures NfaAccepts(R, eps, s, FA + {s}, w) <==> InStar(L, w)
    {
      StarWord(R, RA, eps, s, sA, FA, w);
    }
    forall w: seq<A> | InStar(L, w) ensures NoEps(eps, w) {
      assert Avoids(L, eps);
      StarAvoids(L, eps, w);
    }
  }
}
