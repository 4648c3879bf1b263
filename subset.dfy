/** The subset construction shared by both engines: the empty-move closure `E`,
    the worklist that turns a rule list into an automaton over groups of
    states, and the renumbering of the groups by first appearance. */
module Subset {
  import opened Automata
  import opened Nfa

  // ---------------------------------------------------------------- closure

  /** An empty rule that leads out of `C`. */
  predicate Exits<S(==), A(==)>(r: Rule<S, A>, eps: A, C: set<S>)
  {
    r.a == eps && r.p in C && r.q !in C
  }

  /** One scan of `E`: the index of the first empty rule leading out of `C`,
      or `-1` when there is none. */
  method FirstExit<S(==), A(==)>(R: seq<Rule<S, A>>, eps: A, C: set<S>) returns (k: int)
    ensures -1 <= k < |R|
    ensures k >= 0 ==> Exits(R[k], eps, C)
    ensures forall j :: 0 <= j < |R| && (k < 0 || j < k) ==> !Exits(R[j], eps, C)
  {
    k := 0;
    while k < |R|
      invariant 0 <= k <= |R|
      invariant forall j :: 0 <= j < k ==> !Exits(R[j], eps, C)
    {
      if Exits(R[k], eps, C) {
        return;
      }
      k := k + 1;
    }
    k := -1;
  }

  /** `E`: add the target of the first empty rule that leads out of the set,
      and rescan, until a whole scan adds nothing. */
  method Closure<S(==), A(==)>(R: seq<Rule<S, A>>, eps: A, X: set<S>) returns (C: set<S>)
    ensures C == Cl(R, eps, X)
  {
    ghost var T := Cl(R, eps, X);
    ClBasic(R, eps, X);
    C := X;
    var done := false;
    while !done
      invariant X <= C <= T
      invariant done ==> Closed(R, eps, C)
      decreases |T - C|, !done
    {
      var k := FirstExit(R, eps, C);
      if k < 0 {
        done := true;
        forall r | r in R && r.a == eps && r.p in C ensures r.q in C {
          var j :| 0 <= j < |R| && R[j] == r;
          assert !Exits(R[j], eps, C);
        }
      } else {
        ClGrow(R, eps, X, C, R[k]);
        C := C + {R[k].q};
      }
    }
    ClUnique(R, eps, X, C);
  }

  /** Adding the target of an empty rule that leads out of a set between `X`
      and its closure stays inside the closure and gets nearer to it. */
  lemma ClGrow<S, A>(R: seq<Rule<S, A>>, eps: A, X: set<S>, C: set<S>, r: Rule<S, A>)
    requires X <= C <= Cl(R, eps, X)
    requires r in R && r.a == eps && r.p in C && r.q !in C
    ensures C + {r.q} <= Cl(R, eps, X)
    ensures |Cl(R, eps, X) - (C + {r.q})| < |Cl(R, eps, X) - C|
  {
    ClBasic(R, eps, X);
    var T := Cl(R, eps, X);
    assert r.q in T;
    assert T - (C + {r.q}) == (T - C) - {r.q};
  }

  // ------------------------------------------------------- successor groups

  /** The map `cs` of one group: for every symbol other than `eps` that some rule
      leaving the group reads, the targets of those rules. */
  method Successors<S(==), A(==)>(R: seq<Rule<S, A>>, eps: A, P: set<S>) returns (cs: map<A, set<S>>)
    ensures SuccessorMap(R, eps, P, cs)
  {
    cs := map[];
    for i := 0 to |R|
      invariant SuccessorMap(R[..i], eps, P, cs)
    {
      assert R[..i + 1] == R[..i] + [R[i]];
      forall a ensures Post(R[..i + 1], eps, P, a) ==
                       Post(R[..i], eps, P, a) + (if R[i].a == a && a != eps && R[i].p in P then {R[i].q} else {})
      {
        PostSnoc(R[..i], R[i], eps, P, a);
      }
      if R[i].a != eps && R[i].p in P {
        if R[i].a !in cs {
          cs := cs[R[i].a := {}];
        }
        cs := cs[R[i].a := cs[R[i].a] + {R[i].q}];
      }
    }
    assert R[..|R|] == R;
  }

  /** `cs` maps exactly the symbols `P` has rules on to their targets. */
  ghost predicate SuccessorMap<S, A>(R: seq<Rule<S, A>>, eps: A, P: set<S>, cs: map<A, set<S>>)
  {
    (forall a :: a in cs ==> cs[a] == Post(R, eps, P, a) && cs[a] != {}) &&
    (forall r :: r in R && r.a != eps && r.p in P ==> r.a in cs)
  }

  lemma PostSnoc<S, A>(R: seq<Rule<S, A>>, r: Rule<S, A>, eps: A, P: set<S>, a: A)
    ensures Post(R + [r], eps, P, a) == Post(R, eps, P, a) + (if r.a == a && a != eps && r.p in P then {r.q} else {})
  {
  }

  // ------------------------------------------------ a bound on the groups

  /** Every start state and rule target, as a list. */
  ghost function Points<S, A>(R: seq<Rule<S, A>>, s: S): seq<S>
  {
    [s] + seq(|R|, i requires 0 <= i < |R| => R[i].q)
  }

  lemma PointsIff<S, A>(R: seq<Rule<S, A>>, s: S, x: S)
    ensures x in Points(R, s) <==> x == s || x in Targets(R)
  {
    var xs := Points(R, s);
    if x in Targets(R) {
      var r :| r in R && r.q == x;
      var i :| 0 <= i < |R| && R[i] == r;
      assert xs[i + 1] == x;
    }
  }

  /** All subsets of the elements of `xs`. */
  ghost function Subsets<S>(xs: seq<S>): set<set<S>>
  {
    if |xs| == 0 then {{}}
    else
      var P := Subsets(xs[1..]);
      P + set Y | Y in P :: Y + {xs[0]}
  }

  lemma {:induction false} SubsetsComplete<S>(xs: seq<S>, X: set<S>)
    requires forall x :: x in X ==> x in xs
    ensures X in Subsets(xs)
  {
    if |xs| == 0 {
      assert X == {};
    } else {
      var Y := X - {xs[0]};
      forall x | x in Y ensures x in xs[1..] {
        assert x in xs && x != xs[0];
      }
      SubsetsComplete(xs[1..], Y);
      if xs[0] in X {
        assert X == Y + {xs[0]};
      } else {
        assert X == Y;
      }
    }
  }

  // ------------------------------------------------------------- worklist

  /** The groups of an automaton over groups: its start and every rule target. */
  ghost function Groups<S, A>(s0: set<S>, RG: seq<Rule<set<S>, A>>): set<set<S>>
  {
    {s0} + Targets(RG)
  }

  /** The subset step from a group: the closure of the targets, or trapped when
      the group has no rule on the symbol. */
  ghost function SubsetStep<S, A>(R: seq<Rule<S, A>>, eps: A, g: set<S>, a: A): Option<set<S>>
  {
    if Post(R, eps, g, a) == {} then None else Some(Delta(R, eps, g, a))
  }

  /** Some rule leaves a state of `X` on a symbol other than `eps`. */
  ghost predicate Moves<S, A>(R: seq<Rule<S, A>>, eps: A, X: set<S>)
  {
    exists r :: r in R && r.a != eps && r.p in X
  }

  lemma MovesUnion<S, A>(R: seq<Rule<S, A>>, eps: A, X: set<S>, Y: set<S>)
    ensures Moves(R, eps, X + Y) <==> Moves(R, eps, X) || Moves(R, eps, Y)
  {
  }

  /** When every move of `R` out of `X` is one of `R1`, which lies inside `R`,
      the two move from `X` alike. */
  lemma MovesWithin<S, A>(R: seq<Rule<S, A>>, R1: seq<Rule<S, A>>, eps: A, X: set<S>)
    requires forall r :: r in R1 ==> r in R
    requires forall r :: r in R && r.p in X && r.a != eps ==> r in R1
    ensures Moves(R, eps, X) <==> Moves(R1, eps, X)
  {
  }

  ghost predicate Distinct<T>(xs: seq<T>)
  {
    forall i, j :: 0 <= i < j < |xs| ==> xs[i] != xs[j]
  }

  ghost function Elems<T>(xs: seq<T>): set<T>
  {
    set x | x in xs
  }

  /** The worklist between two groups: the queued and processed groups are
      distinct, are subsets of `U`, and are exactly the start and the targets of
      the rules emitted so far. */
  ghost predicate Worklist<S, A>(U: set<S>, s0: set<S>, toDo: seq<set<S>>, done: seq<set<S>>,
                                 RG: seq<Rule<set<S>, A>>)
  {
    Distinct(toDo) && Distinct(done) && (forall g :: g in toDo ==> g !in done) &&
    (forall g :: g in toDo ==> g <= U && g in Groups(s0, RG)) &&
    (forall g :: g in done ==> g <= U && g in Groups(s0, RG)) &&
    (s0 in toDo || s0 in done) && (forall r :: r in RG ==> r.q in toDo || r.q in done)
  }

  /** Every emitted rule leaves a processed group, on a symbol other than
      `eps`, and is that group's subset step; no (group, symbol) pair twice. */
  ghost predicate Sound<S, A>(R: seq<Rule<S, A>>, eps: A, RG: seq<Rule<set<S>, A>>, done: seq<set<S>>)
  {
    NoDupPairs(RG) &&
    forall r :: r in RG ==> r.p in done && r.a != eps && Post(R, eps, r.p, r.a) != {} && r.q == Delta(R, eps, r.p, r.a)
  }

  /** Every processed group has the rule of each of its subset steps. */
  ghost predicate Complete<S, A>(R: seq<Rule<S, A>>, eps: A, RG: seq<Rule<set<S>, A>>, done: seq<set<S>>)
  {
    forall g, r :: g in done && r in R && r.a != eps && r.p in g ==> Rule(g, r.a, Delta(R, eps, g, r.a)) in RG
  }

  /** The emitted rules of the processed groups give their subset steps. */
  lemma EmittedSteps<S, A>(R: seq<Rule<S, A>>, eps: A, RG: seq<Rule<set<S>, A>>, done: seq<set<S>>, g: set<S>, a: A)
    requires Sound(R, eps, RG, done) && Complete(R, eps, RG, done) && g in done
    ensures Step(RG, g, a) == SubsetStep(R, eps, g, a)
  {
    NoDupPairsFunctional(RG);
    if Post(R, eps, g, a) != {} {
      var r :| r in R && r.a == a && a != eps && r.p in g;
      StepFunctional(RG, g, a, Delta(R, eps, g, a));
    }
  }

  /** Appending a rule for a new (state, symbol) pair keeps the pairs distinct. */
  lemma NoDupPairsSnoc<S, A>(RG: seq<Rule<S, A>>, r: Rule<S, A>)
    requires NoDupPairs(RG) && forall r' :: r' in RG ==> r'.p != r.p || r'.a != r.a
    ensures NoDupPairs(RG + [r])
  {
    var RG' := RG + [r];
    forall i, j | 0 <= i < j < |RG'| ensures RG'[i].p != RG'[j].p || RG'[i].a != RG'[j].a {
      if j == |RG| {
        assert RG'[i] in RG;
      } else {
        assert RG'[i] == RG[i] && RG'[j] == RG[j];
      }
    }
  }

  /** The groups lie inside the start and the rule targets. */
  lemma DeltaInTargets<S, A>(R: seq<Rule<S, A>>, eps: A, g: set<S>, a: A)
    ensures Delta(R, eps, g, a) <= Targets(R)
  {
    ClBasic(R, eps, Post(R, eps, g, a));
  }

  /** The targets of one more rule. */
  lemma TargetsSnoc<S, A>(R: seq<Rule<S, A>>, r: Rule<S, A>)
    ensures Targets(R + [r]) == Targets(R) + {r.q}
  {
    assert forall r' :: r' in R + [r] <==> r' in R || r' == r;
  }

  /** Moving the group being processed from the queue to the processed list. */
  lemma Retire<S, A>(U: set<S>, s0: set<S>, toDo: seq<set<S>>, p: set<S>, done: seq<set<S>>,
                     RG: seq<Rule<set<S>, A>>)
    requires Worklist(U, s0, toDo + [p], done, RG)
    ensures Worklist(U, s0, toDo, done + [p], RG)
    ensures p !in done && p <= U && Elems(done + [p]) == Elems(done) + {p}
  {
    assert (toDo + [p])[|toDo|] == p;
    forall i, j | 0 <= i < j < |toDo| ensures toDo[i] != toDo[j] {
      assert toDo[i] == (toDo + [p])[i] && toDo[j] == (toDo + [p])[j];
    }
    forall i, j | 0 <= i < j < |done + [p]| ensures (done + [p])[i] != (done + [p])[j] {
      if j == |done| {
        assert (done + [p])[i] in done;
      }
    }
    forall g | g in toDo ensures g !in done + [p] {
      var i :| 0 <= i < |toDo| && toDo[i] == g;
      assert (toDo + [p])[i] == g;
    }
  }

  /** Queueing the target `q` of a new rule of `p`, unless it was seen before. */
  lemma Enqueue<S, A>(U: set<S>, s0: set<S>, toDo: seq<set<S>>, p: set<S>, done: seq<set<S>>,
                      RG: seq<Rule<set<S>, A>>, a: A, q: set<S>)
    requires Worklist(U, s0, toDo + [p], done, RG) && q <= U
    ensures var toDo' := if q != p && q !in toDo && q !in done then toDo + [q] else toDo;
            Worklist(U, s0, toDo' + [p], done, RG + [Rule(p, a, q)])
  {
    var RG' := RG + [Rule(p, a, q)];
    TargetsSnoc(RG, Rule(p, a, q));
    assert (toDo + [p])[|toDo|] == p;
    if q != p && q !in toDo && q !in done {
      var T := toDo + [q] + [p];
      forall i, j | 0 <= i < j < |T| ensures T[i] != T[j] {
        if j == |toDo| + 1 {
          if i < |toDo| { assert T[i] == (toDo + [p])[i]; }
        } else if j == |toDo| {
          assert T[i] == toDo[i];
        } else {
          assert T[i] == (toDo + [p])[i] && T[j] == (toDo + [p])[j];
        }
      }
      forall g | g in T ensures g <= U && g in Groups(s0, RG') && g !in done {
        if g != q { assert g in toDo + [p]; }
      }
    }
  }

  /** The rules of `p` emitted so far are those of the symbols in `K`. */
  ghost predicate EmittedFor<S, A>(R: seq<Rule<S, A>>, eps: A, RG: seq<Rule<set<S>, A>>, p: set<S>, K: set<A>)
  {
    (forall r :: r in RG && r.p == p ==> r.a in K) &&
    (forall a :: a in K ==> Rule(p, a, Delta(R, eps, p, a)) in RG)
  }

  /** Emitting the rule of `p` on a new symbol `a` keeps the rules sound. */
  lemma EmitRule<S, A>(R: seq<Rule<S, A>>, eps: A, RG: seq<Rule<set<S>, A>>, done: seq<set<S>>,
                       p: set<S>, K: set<A>, a: A)
    requires Sound(R, eps, RG, done + [p]) && Complete(R, eps, RG, done) && EmittedFor(R, eps, RG, p, K)
    requires a !in K && Post(R, eps, p, a) != {}
    ensures var RG' := RG + [Rule(p, a, Delta(R, eps, p, a))];
            Sound(R, eps, RG', done + [p]) && Complete(R, eps, RG', done) && EmittedFor(R, eps, RG', p, K + {a})
  {
    var r0 := Rule(p, a, Delta(R, eps, p, a));
    NoDupPairsSnoc(RG, r0);
    assert forall r :: r in RG + [r0] <==> r in RG || r == r0;
  }

  /** Once every symbol of `p` is emitted, `p` counts as processed. */
  lemma FinishGroup<S, A>(R: seq<Rule<S, A>>, eps: A, RG: seq<Rule<set<S>, A>>, done: seq<set<S>>,
                          p: set<S>, K: set<A>)
    requires Complete(R, eps, RG, done) && EmittedFor(R, eps, RG, p, K)
    requires forall r :: r in R && r.a != eps && r.p in p ==> r.a in K
    ensures Complete(R, eps, RG, done + [p])
  {
  }

  /** The worklist loop's invariant. */
  ghost predicate Progress<S, A>(R: seq<Rule<S, A>>, eps: A, U: set<S>, s0: set<S>,
                                 toDo: seq<set<S>>, done: seq<set<S>>, RG: seq<Rule<set<S>, A>>)
  {
    Worklist(U, s0, toDo, done, RG) && Sound(R, eps, RG, done) && Complete(R, eps, RG, done) &&
    (|RG| > 0 ==> RG[0].p == s0)
  }

  /** The invariant while the popped group `p` emits the rules of the symbols in `K`. */
  ghost predicate InGroup<S, A>(R: seq<Rule<S, A>>, eps: A, U: set<S>, s0: set<S>, p: set<S>,
                                toDo: seq<set<S>>, done: seq<set<S>>, RG: seq<Rule<set<S>, A>>, K: set<A>)
  {
    Worklist(U, s0, toDo + [p], done, RG) && Sound(R, eps, RG, done + [p]) && Complete(R, eps, RG, done) &&
    EmittedFor(R, eps, RG, p, K) &&
    (|RG| > 0 ==> RG[0].p == s0)
  }

  /** Before the first rule, the start is the only group. */
  lemma OnlyStart<S, A>(U: set<S>, s0: set<S>, toDo: seq<set<S>>, p: set<S>, done: seq<set<S>>,
                        RG: seq<Rule<set<S>, A>>)
    requires Worklist(U, s0, toDo + [p], done, RG) && |RG| == 0
    ensures p == s0
  {
    assert p in toDo + [p];
  }

  lemma StartGroup<S, A>(R: seq<Rule<S, A>>, eps: A, U: set<S>, s0: set<S>, p: set<S>,
                         toDo: seq<set<S>>, done: seq<set<S>>, RG: seq<Rule<set<S>, A>>)
    requires Progress(R, eps, U, s0, toDo + [p], done, RG)
    ensures InGroup(R, eps, U, s0, p, toDo, done, RG, {})
  {
    assert p in toDo + [p];
  }

  lemma EndGroup<S, A>(R: seq<Rule<S, A>>, eps: A, U: set<S>, s0: set<S>, p: set<S>,
                       toDo: seq<set<S>>, done: seq<set<S>>, RG: seq<Rule<set<S>, A>>, cs: map<A, set<S>>)
    requires InGroup(R, eps, U, s0, p, toDo, done, RG, cs.Keys) && SuccessorMap(R, eps, p, cs)
    ensures Progress(R, eps, U, s0, toDo, done + [p], RG)
    ensures p !in done && p <= U && Elems(done + [p]) == Elems(done) + {p}
  {
    FinishGroup(R, eps, RG, done, p, cs.Keys);
    Retire(U, s0, toDo, p, done, RG);
  }

  /** The queue after the successor `q` of `p`: `q` goes last unless it is `p`
      itself or is already queued or processed. */
  function Push<S(==)>(toDo: seq<set<S>>, done: seq<set<S>>, p: set<S>, q: set<S>): (t: seq<set<S>>)
    ensures q in t || q == p || q in done
    ensures t == toDo || t == toDo + [q]
  {
    if q != p && q !in toDo && q !in done then toDo + [q] else toDo
  }

  /** Emitting the rule of one more symbol `a` of the successor map of `p`,
      and queueing its target, keeps the group invariant. */
  lemma EmitStep<S, A>(R: seq<Rule<S, A>>, eps: A, U: set<S>, s0: set<S>, p: set<S>, cs: map<A, set<S>>,
                       toDo: seq<set<S>>, done: seq<set<S>>, RG: seq<Rule<set<S>, A>>, K: set<A>, a: A)
    requires Targets(R) <= U && SuccessorMap(R, eps, p, cs) && a in cs && a !in K
    requires InGroup(R, eps, U, s0, p, toDo, done, RG, K)
    ensures var q := Cl(R, eps, cs[a]);
            InGroup(R, eps, U, s0, p, Push(toDo, done, p, q), done, RG + [Rule(p, a, q)], K + {a})
  {
    DeltaInTargets(R, eps, p, a);
    Enqueue(U, s0, toDo, p, done, RG, a, Cl(R, eps, cs[a]));
    if |RG| == 0 {
      OnlyStart(U, s0, toDo, p, done, RG);
    }
    EmitRule(R, eps, RG, done, p, K, a);
  }

  /** The loop over the successor map of the popped group `p`, in whatever
      order the map yields its symbols: close the targets, emit the rule and
      queue the successor.  It keeps any invariant `Inv` of the queue, the
      rules and the symbols handled that one such step keeps. */
  method EmitSymbols<S(==,!new), A(==,!new)>(R: seq<Rule<S, A>>, eps: A, p: set<S>, cs: map<A, set<S>>,
                                   toDo: seq<set<S>>, done: seq<set<S>>, RG: seq<Rule<set<S>, A>>,
                                   ghost Inv: (seq<set<S>>, seq<Rule<set<S>, A>>, set<A>) -> bool)
    returns (toDo': seq<set<S>>, RG': seq<Rule<set<S>, A>>)
    requires Inv(toDo, RG, {})
    requires forall t, g, k, a, q {:trigger Inv(Push(t, done, p, q), g + [Rule(p, a, q)], k + {a})} ::
               Inv(t, g, k) && a in cs && a !in k && q == Cl(R, eps, cs[a]) ==>
               Inv(Push(t, done, p, q), g + [Rule(p, a, q)], k + {a})
    ensures Inv(toDo', RG', cs.Keys)
  {
    var keys := cs.Keys;
    ghost var K: set<A> := {};
    toDo', RG' := toDo, RG;
    while keys != {}
      invariant keys !! K && keys + K == cs.Keys
      invariant Inv(toDo', RG', K)
      decreases |keys|
    {
      var a :| a in keys;
      var q := Closure(R, eps, cs[a]);
      assert Inv(Push(toDo', done, p, q), RG' + [Rule(p, a, q)], K + {a});
      RG' := RG' + [Rule(p, a, q)];
      if q != p && q !in toDo' && q !in done {
        toDo' := toDo' + [q];
      }
      keys, K := keys - {a}, K + {a};
    }
    assert K == cs.Keys;
  }

  /** The body of the worklist loop for one popped group `p`: emit one rule per
      symbol its rules read, with the closure of their targets as successor,
      and queue every successor neither current nor seen before. */
  method EmitGroup<S(==,!new), A(==,!new)>(R: seq<Rule<S, A>>, eps: A, ghost U: set<S>, ghost s0: set<S>,
                                 p: set<S>, toDo: seq<set<S>>, done: seq<set<S>>, RG: seq<Rule<set<S>, A>>)
    returns (toDo': seq<set<S>>, RG': seq<Rule<set<S>, A>>)
    requires Targets(R) <= U
    requires Progress(R, eps, U, s0, toDo + [p], done, RG)
    ensures Progress(R, eps, U, s0, toDo', done + [p], RG')
    ensures p !in done && p <= U
  {
    var cs := Successors(R, eps, p);
    StartGroup(R, eps, U, s0, p, toDo, done, RG);
    forall t, g, k, a, q | InGroup(R, eps, U, s0, p, t, done, g, k) && a in cs && a !in k && q == Cl(R, eps, cs[a])
      ensures InGroup(R, eps, U, s0, p, Push(t, done, p, q), done, g + [Rule(p, a, q)], k + {a})
    {
      EmitStep(R, eps, U, s0, p, cs, t, done, g, k, a);
    }
    toDo', RG' := EmitSymbols(R, eps, p, cs, toDo, done, RG,
                              (t, g, k) => InGroup(R, eps, U, s0, p, t, done, g, k));
    EndGroup(R, eps, U, s0, p, toDo', done, RG', cs);
  }

  /** `from_NFA` without the final renumbering: start from the closure of `{s}`,
      pop the most recent group, emit its rules, and finally collect the
      processed groups that meet `F`. */
  method Determinize<S(==,!new), A(==,!new)>(R: seq<Rule<S, A>>, eps: A, s: S, F: set<S>)
    returns (s0: set<S>, FG: seq<set<S>>, RG: seq<Rule<set<S>, A>>)
    ensures s0 == Cl(R, eps, {s})
    ensures forall g, a :: g in Groups(s0, RG) ==> Step(RG, g, a) == SubsetStep(R, eps, g, a)
    ensures forall g :: g in FG <==> g in Groups(s0, RG) && g * F != {}
    ensures NoDupPairs(RG) && forall r :: r in RG ==> r.a != eps
    ensures |RG| > 0 <==> Moves(R, eps, s0)
    ensures |RG| > 0 ==> RG[0].p == s0
    ensures DfaLang(RG, eps, s0, Elems(FG)) == NfaLang(R, eps, s, F)
  {
    s0 := Closure(R, eps, {s});
    ghost var U := {s} + Targets(R);
    ghost var Us := Points(R, s);
    var toDo := [s0];
    var done: seq<set<S>> := [];
    RG := [];
    StartWork(R, eps, s, U, s0);
    while |toDo| > 0
      invariant Progress(R, eps, U, s0, toDo, done, RG)
      decreases |Subsets(Us) - Elems(done)|
    {
      var p := toDo[|toDo| - 1];
      ghost var queued := toDo;
      toDo := toDo[..|toDo| - 1];
      assert toDo + [p] == queued;
      toDo, RG := EmitGroup(R, eps, U, s0, p, toDo, done, RG);
      Shrinks(R, s, p, done);
      done := done + [p];
    }
    FG := AcceptingGroups(done, F);
    EndWork(R, eps, U, s0, done, RG);
    GroupLang(R, eps, s, F, s0, Elems(FG), RG);
  }

  lemma StartWork<S, A>(R: seq<Rule<S, A>>, eps: A, s: S, U: set<S>, s0: set<S>)
    requires U == {s} + Targets(R) && s0 == Cl(R, eps, {s})
    ensures Progress(R, eps, U, s0, [s0], [], [])
  {
    ClBasic(R, eps, {s});
  }

  /** Processing a new group `p` brings the processed groups nearer to all
      subsets of the start and the rule targets. */
  lemma Shrinks<S, A>(R: seq<Rule<S, A>>, s: S, p: set<S>, done: seq<set<S>>)
    requires p <= {s} + Targets(R) && p !in done
    ensures |Subsets(Points(R, s)) - Elems(done + [p])| < |Subsets(Points(R, s)) - Elems(done)|
  {
    forall x | x in p ensures x in Points(R, s) { PointsIff(R, s, x); }
    SubsetsComplete(Points(R, s), p);
    var P := Subsets(Points(R, s));
    assert Elems(done + [p]) == Elems(done) + {p};
    assert P - Elems(done + [p]) == (P - Elems(done)) - {p};
  }

  lemma EndWork<S, A>(R: seq<Rule<S, A>>, eps: A, U: set<S>, s0: set<S>, done: seq<set<S>>, RG: seq<Rule<set<S>, A>>)
    requires Progress(R, eps, U, s0, [], done, RG)
    ensures forall g, a :: g in Groups(s0, RG) ==> Step(RG, g, a) == SubsetStep(R, eps, g, a)
    ensures forall g :: g in done <==> g in Groups(s0, RG)
    ensures NoDupPairs(RG) && forall r :: r in RG ==> r.a != eps
    ensures |RG| > 0 <==> Moves(R, eps, s0)
    ensures |RG| > 0 ==> RG[0].p == s0
  {
    forall g | g in Groups(s0, RG) ensures g in done {
      if g != s0 {
        var r :| r in RG && r.q == g;
      }
    }
    forall g, a | g in Groups(s0, RG) ensures Step(RG, g, a) == SubsetStep(R, eps, g, a) {
      EmittedSteps(R, eps, RG, done, g, a);
    }
    MovesStart(R, eps, s0, RG);
  }

  /** The final loop of `from_NFA`: the processed groups that meet `F`, in order. */
  method AcceptingGroups<S(==)>(done: seq<set<S>>, F: set<S>) returns (FG: seq<set<S>>)
    ensures forall g :: g in FG <==> g in done && g * F != {}
  {
    FG := [];
    for i := 0 to |done|
      invariant forall g :: g in FG <==> g in done[..i] && g * F != {}
    {
      if done[i] * F != {} {
        FG := FG + [done[i]];
      }
      assert done[..i + 1] == done[..i] + [done[i]];
    }
    assert done[..|done|] == done;
  }

  // ------------------------------------------------------------- language

  /** Trapped exactly when nothing is reached; otherwise the reached set. */
  ghost function Reached<S>(X: set<S>): Option<set<S>>
  {
    if X == {} then None else Some(X)
  }

  /** Run from a nonempty group of the group automaton follows the sets the
      rule list reaches nondeterministically, and stays among the groups. */
  lemma {:induction false} GroupRun<S, A>(R: seq<Rule<S, A>>, eps: A, s0: set<S>, RG: seq<Rule<set<S>, A>>,
                                          g: set<S>, w: seq<A>)
    requires forall g, a :: g in Groups(s0, RG) ==> Step(RG, g, a) == SubsetStep(R, eps, g, a)
    requires g in Groups(s0, RG) && g != {}
    ensures Run(RG, g, w) == Reached(DeltaStar(R, eps, g, w))
    ensures Run(RG, g, w).Some? ==> Run(RG, g, w).value in Groups(s0, RG)
    decreases |w|
  {
    if |w| > 0 {
      var P := Post(R, eps, g, w[0]);
      if P == {} {
        ClEmpty(R, eps);
        DeltaStarEmpty(R, eps, w[1..]);
      } else {
        var h := Delta(R, eps, g, w[0]);
        assert Step(RG, g, w[0]) == Some(h);
        assert Rule(g, w[0], h) in RG;
        assert h in Groups(s0, RG);
        ClBasic(R, eps, P);
        GroupRun(R, eps, s0, RG, h, w[1..]);
      }
    }
  }

  /** The group automaton accepts what the rule list accepts nondeterministically. */
  lemma GroupLang<S, A(!new)>(R: seq<Rule<S, A>>, eps: A, s: S, F: set<S>,
                              s0: set<S>, FG: set<set<S>>, RG: seq<Rule<set<S>, A>>)
    requires s0 == Cl(R, eps, {s})
    requires forall g, a :: g in Groups(s0, RG) ==> Step(RG, g, a) == SubsetStep(R, eps, g, a)
    requires forall g :: g in FG <==> g in Groups(s0, RG) && g * F != {}
    ensures DfaLang(RG, eps, s0, FG) == NfaLang(R, eps, s, F)
  {
    ClBasic(R, eps, {s});
    forall w: seq<A> ensures Accepts(RG, s0, FG, w) <==> NfaAccepts(R, eps, s, F, w) {
      GroupRun(R, eps, s0, RG, s0, w);
    }
  }

  /** The group automaton has rules exactly when its start group has a move. */
  lemma MovesStart<S, A>(R: seq<Rule<S, A>>, eps: A, s0: set<S>, RG: seq<Rule<set<S>, A>>)
    requires forall g, a :: g in Groups(s0, RG) ==> Step(RG, g, a) == SubsetStep(R, eps, g, a)
    requires |RG| > 0 ==> RG[0].p == s0
    ensures |RG| > 0 <==> Moves(R, eps, s0)
  {
    if |RG| > 0 {
      assert Step(RG, s0, RG[0].a).Some?;
      var r :| r in R && r.a == RG[0].a && RG[0].a != eps && r.p in s0;
    }
    if Moves(R, eps, s0) {
      var r :| r in R && r.a != eps && r.p in s0;
      assert r.q in Post(R, eps, s0, r.a);
      assert Step(RG, s0, r.a).Some?;
    }
  }
}
