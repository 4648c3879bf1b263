/** Nondeterministic reading of a rule list, the meaning the subset
    construction gives it: a rule on the empty-move symbol `eps` moves without
    reading input, a set of current states advances on a symbol to the closure
    of the targets of its rules on that symbol, and a word is accepted when the
    set reached meets the accepting states. */
module Nfa {
  import opened Automata

  /** Every target of every rule. */
  ghost function Targets<S, A>(R: seq<Rule<S, A>>): set<S>
  {
    set r | r in R :: r.q
  }

  /** States reached from `X` by one empty move. */
  ghost function EpsStep<S, A>(R: seq<Rule<S, A>>, eps: A, X: set<S>): set<S>
  {
    set r | r in R && r.a == eps && r.p in X :: r.q
  }

  /** `C` is closed under empty moves. */
  ghost predicate Closed<S, A>(R: seq<Rule<S, A>>, eps: A, C: set<S>)
  {
    forall r :: r in R && r.a == eps && r.p in C ==> r.q in C
  }

  lemma SubsetCard<T>(X: set<T>, Y: set<T>)
    requires X <= Y
    ensures |X| <= |Y|
  {
    if X != {} {
      var x :| x in X;
      SubsetCard(X - {x}, Y - {x});
    }
  }

  lemma StepGrows<S, A>(R: seq<Rule<S, A>>, eps: A, X: set<S>)
    requires !(X + EpsStep(R, eps, X) <= X)
    ensures |Targets(R) - (X + EpsStep(R, eps, X))| < |Targets(R) - X|
  {
    var Y := X + EpsStep(R, eps, X);
    var e :| e in Y && e !in X;
    assert e in Targets(R);
    SubsetCard(Targets(R) - Y, Targets(R) - X - {e});
  }

  /** The empty-move closure of `X`: repeat one empty step until nothing new. */
  ghost function Cl<S, A>(R: seq<Rule<S, A>>, eps: A, X: set<S>): set<S>
    decreases |Targets(R) - X|
  {
    var Y := X + EpsStep(R, eps, X);
    if Y <= X then X
    else
      StepGrows(R, eps, X);
      Cl(R, eps, Y)
  }

  /** The closure contains its argument, is closed, and adds only rule targets. */
  lemma {:induction false} ClBasic<S, A>(R: seq<Rule<S, A>>, eps: A, X: set<S>)
    ensures X <= Cl(R, eps, X) <= X + Targets(R)
    ensures Closed(R, eps, Cl(R, eps, X))
    decreases |Targets(R) - X|
  {
    var Y := X + EpsStep(R, eps, X);
    if Y <= X {
      forall r | r in R && r.a == eps && r.p in X ensures r.q in X {
        assert r.q in EpsStep(R, eps, X);
      }
    } else {
      StepGrows(R, eps, X);
      ClBasic(R, eps, Y);
    }
  }

  /** The closure is the least closed superset. */
  lemma {:induction false} ClLeast<S, A>(R: seq<Rule<S, A>>, eps: A, X: set<S>, C: set<S>)
    requires X <= C && Closed(R, eps, C)
    ensures Cl(R, eps, X) <= C
    decreases |Targets(R) - X|
  {
    var Y := X + EpsStep(R, eps, X);
    if !(Y <= X) {
      StepGrows(R, eps, X);
      ClLeast(R, eps, Y, C);
    }
  }

  /** A closed superset of `X` holding no more than the closure is the closure. */
  lemma ClUnique<S, A>(R: seq<Rule<S, A>>, eps: A, X: set<S>, C: set<S>)
    requires X <= C <= Cl(R, eps, X) && Closed(R, eps, C)
    ensures C == Cl(R, eps, X)
  {
    ClLeast(R, eps, X, C);
  }

  lemma ClEmpty<S, A>(R: seq<Rule<S, A>>, eps: A)
    ensures Cl(R, eps, {}) == {}
  {
    ClLeast(R, eps, {}, {});
  }

  lemma ClMono<S, A>(R: seq<Rule<S, A>>, eps: A, X: set<S>, Y: set<S>)
    requires X <= Y
    ensures Cl(R, eps, X) <= Cl(R, eps, Y)
  {
    ClBasic(R, eps, Y);
    ClLeast(R, eps, X, Cl(R, eps, Y));
  }

  /** Closure distributes over union. */
  lemma ClUnion<S, A>(R: seq<Rule<S, A>>, eps: A, X: set<S>, Y: set<S>)
    ensures Cl(R, eps, X + Y) == Cl(R, eps, X) + Cl(R, eps, Y)
  {
    ClBasic(R, eps, X);
    ClBasic(R, eps, Y);
    ClLeast(R, eps, X + Y, Cl(R, eps, X) + Cl(R, eps, Y));
    ClMono(R, eps, X, X + Y);
    ClMono(R, eps, Y, X + Y);
  }

  /** Targets, on symbol `c`, of the rules leaving `X`; never on `eps`. */
  ghost function Post<S, A>(R: seq<Rule<S, A>>, eps: A, X: set<S>, c: A): set<S>
  {
    set r | r in R && r.a == c && c != eps && r.p in X :: r.q
  }

  /** The subset step: the closure of the targets. */
  ghost function Delta<S, A>(R: seq<Rule<S, A>>, eps: A, X: set<S>, c: A): set<S>
  {
    Cl(R, eps, Post(R, eps, X, c))
  }

  /** The set of states reached from `X` over the word `w`. */
  ghost function DeltaStar<S, A>(R: seq<Rule<S, A>>, eps: A, X: set<S>, w: seq<A>): set<S>
    decreases |w|
  {
    if |w| == 0 then X else DeltaStar(R, eps, Delta(R, eps, X, w[0]), w[1..])
  }

  /** Acceptance as a nondeterministic automaton. */
  ghost predicate NfaAccepts<S, A>(R: seq<Rule<S, A>>, eps: A, s: S, F: set<S>, w: seq<A>)
  {
    DeltaStar(R, eps, Cl(R, eps, {s}), w) * F != {}
  }

  ghost function NfaLang<S, A(!new)>(R: seq<Rule<S, A>>, eps: A, s: S, F: set<S>): iset<seq<A>>
  {
    iset w: seq<A> | NoEps(eps, w) && NfaAccepts(R, eps, s, F, w)
  }

  lemma PostUnion<S, A>(R: seq<Rule<S, A>>, eps: A, X: set<S>, Y: set<S>, c: A)
    ensures Post(R, eps, X + Y, c) == Post(R, eps, X, c) + Post(R, eps, Y, c)
  {
  }

  /** The reached set of a union is the union of the reached sets. */
  lemma {:induction false} DeltaStarUnion<S, A>(R: seq<Rule<S, A>>, eps: A, X: set<S>, Y: set<S>, w: seq<A>)
    ensures DeltaStar(R, eps, X + Y, w) == DeltaStar(R, eps, X, w) + DeltaStar(R, eps, Y, w)
    decreases |w|
  {
    if |w| > 0 {
      PostUnion(R, eps, X, Y, w[0]);
      ClUnion(R, eps, Post(R, eps, X, w[0]), Post(R, eps, Y, w[0]));
      DeltaStarUnion(R, eps, Delta(R, eps, X, w[0]), Delta(R, eps, Y, w[0]), w[1..]);
    }
  }

  /** Nothing is reached from nothing. */
  lemma {:induction false} DeltaStarEmpty<S, A>(R: seq<Rule<S, A>>, eps: A, w: seq<A>)
    ensures DeltaStar(R, eps, {}, w) == {}
    decreases |w|
  {
    if |w| > 0 {
      assert Post(R, eps, {}, w[0]) == {};
      ClEmpty(R, eps);
      DeltaStarEmpty(R, eps, w[1..]);
    }
  }

  lemma DeltaStarCons<S, A>(R: seq<Rule<S, A>>, eps: A, X: set<S>, w: seq<A>)
    requires |w| > 0
    ensures DeltaStar(R, eps, X, w) == DeltaStar(R, eps, Delta(R, eps, X, w[0]), w[1..])
  {
  }

  // ---------------------------------------------------------------- locality

  /** The rules of `R` that leave `Q` are exactly those of `R1`, and `R1` stays in `Q`. */
  ghost predicate Confined<S, A>(R: seq<Rule<S, A>>, R1: seq<Rule<S, A>>, Q: set<S>)
  {
    (forall r :: r in R1 ==> r in R && r.p in Q && r.q in Q) &&
    (forall r :: r in R && r.p in Q ==> r in R1)
  }

  /** Inside a confined part the closure only sees that part. */
  lemma LocalCl<S, A>(R: seq<Rule<S, A>>, R1: seq<Rule<S, A>>, eps: A, Q: set<S>, X: set<S>)
    requires Confined(R, R1, Q) && X <= Q
    ensures Cl(R, eps, X) == Cl(R1, eps, X) <= Q
  {
    ClBasic(R1, eps, X);
    ClBasic(R, eps, X);
    ClLeast(R, eps, X, Cl(R1, eps, X));
    ClLeast(R1, eps, X, Cl(R, eps, X));
  }

  /** Inside a confined part the reached sets only see that part. */
  lemma {:induction false} LocalDeltaStar<S, A>(R: seq<Rule<S, A>>, R1: seq<Rule<S, A>>, eps: A,
                                                Q: set<S>, X: set<S>, w: seq<A>)
    requires Confined(R, R1, Q) && X <= Q
    ensures DeltaStar(R, eps, X, w) == DeltaStar(R1, eps, X, w) <= Q
    decreases |w|
  {
    if |w| > 0 {
      var P := Post(R, eps, X, w[0]);
      assert P == Post(R1, eps, X, w[0]) <= Q;
      LocalCl(R, R1, eps, Q, P);
      LocalDeltaStar(R, R1, eps, Q, Delta(R, eps, X, w[0]), w[1..]);
    }
  }

  // ---------------------------------------------- deterministic rule lists

  function OptSet<S>(o: Option<S>): set<S>
  {
    match o
    case None => {}
    case Some(x) => {x}
  }

  /** With empty moves only on self-loops, a single state is closed. */
  lemma DetCl<S, A>(R: seq<Rule<S, A>>, eps: A, x: S)
    requires EpsLoopsOnly(R, eps)
    ensures Cl(R, eps, {x}) == {x}
  {
    ClBasic(R, eps, {x});
    ClLeast(R, eps, {x}, {x});
  }

  /** In a functional rule list one state has at most one successor, the first match's. */
  lemma DetPost<S, A>(R: seq<Rule<S, A>>, eps: A, x: S, c: A)
    requires Functional(R) && c != eps
    ensures Post(R, eps, {x}, c) == OptSet(Step(R, x, c))
  {
    match Step(R, x, c)
    case None =>
    case Some(y) =>
      forall z | z in Post(R, eps, {x}, c) ensures z == y {
        var r :| r in R && r.a == c && r.p == x && r.q == z;
      }
  }

  /** A deterministic rule list reached from one state reaches the run's state. */
  lemma {:induction false} DetDeltaStar<S, A>(R: seq<Rule<S, A>>, eps: A, x: S, w: seq<A>)
    requires DetLike(R, eps) && NoEps(eps, w)
    ensures DeltaStar(R, eps, {x}, w) == OptSet(Run(R, x, w))
    decreases |w|
  {
    if |w| > 0 {
      DetPost(R, eps, x, w[0]);
      match Step(R, x, w[0])
      case None =>
        ClEmpty(R, eps);
        DeltaStarEmpty(R, eps, w[1..]);
      case Some(y) =>
        DetCl(R, eps, y);
        assert NoEps(eps, w[1..]);
        DetDeltaStar(R, eps, y, w[1..]);
    }
  }

  /** Read nondeterministically, a deterministic rule list accepts the same words. */
  lemma DetNfaLang<S, A(!new)>(R: seq<Rule<S, A>>, eps: A, s: S, F: set<S>)
    requires DetLike(R, eps)
    ensures NfaLang(R, eps, s, F) == DfaLang(R, eps, s, F)
  {
    forall w: seq<A> | NoEps(eps, w)
      ensures NfaAccepts(R, eps, s, F, w) == Accepts(R, s, F, w)
    {
      DetCl(R, eps, s);
      DetDeltaStar(R, eps, s, w);
      match Run(R, s, w)
      case None =>
      case Some(y) => assert y in {y} * F <==> y in F;
    }
  }

  /** A deterministic part confined inside a larger rule list. */
  lemma EmbeddedRun<S, A>(R: seq<Rule<S, A>>, R1: seq<Rule<S, A>>, eps: A, Q: set<S>, x: S, w: seq<A>)
    requires Confined(R, R1, Q) && x in Q && DetLike(R1, eps) && NoEps(eps, w)
    ensures DeltaStar(R, eps, {x}, w) == OptSet(Run(R1, x, w))
  {
    LocalDeltaStar(R, R1, eps, Q, {x}, w);
    DetDeltaStar(R1, eps, x, w);
  }
}
