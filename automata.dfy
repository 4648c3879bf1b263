/** Finite automata as the regular-expression engine stores them: a start state,
    a set of accepting states and a list of transition rules `(p, a, q)`.  A run
    follows, for each input symbol, the FIRST rule in list order that leaves the
    current state on that symbol, and gets stuck when there is none. */
module Automata {

  datatype Option<T> = None | Some(value: T)

  datatype Result<T, E> = Ok(value: T) | Err(error: E)

  /** One transition rule: from `p`, reading `a`, go to `q`. */
  datatype Rule<S, A> = Rule(p: S, a: A, q: S)

  /** Every state a rule list mentions, as source or as target. */
  ghost function Ids<S, A>(R: seq<Rule<S, A>>): set<S>
  {
    (set r | r in R :: r.p) + (set r | r in R :: r.q)
  }

  /** The states an automaton mentions: start, accepting states and rule ends. */
  ghost function States<S, A>(s: S, F: set<S>, R: seq<Rule<S, A>>): set<S>
  {
    {s} + F + Ids(R)
  }

  /** A word that never contains the empty-move symbol. */
  predicate NoEps<A(==)>(eps: A, w: seq<A>)
  {
    eps !in w
  }

  /** No two rules leave the same state on the same symbol for different targets. */
  ghost predicate Functional<S, A>(R: seq<Rule<S, A>>)
  {
    forall r1, r2 :: r1 in R && r2 in R && r1.p == r2.p && r1.a == r2.a ==> r1.q == r2.q
  }

  /** The empty-move symbol only appears on self-loops. */
  ghost predicate EpsLoopsOnly<S, A>(R: seq<Rule<S, A>>, eps: A)
  {
    forall r :: r in R && r.a == eps ==> r.q == r.p
  }

  /** Rule lists a first-match run reads as a deterministic automaton. */
  ghost predicate DetLike<S, A>(R: seq<Rule<S, A>>, eps: A)
  {
    Functional(R) && EpsLoopsOnly(R, eps)
  }

  /** No two rules share a (state, symbol) pair. */
  ghost predicate NoDupPairs<S, A>(R: seq<Rule<S, A>>)
  {
    forall i, j :: 0 <= i < j < |R| ==> R[i].p != R[j].p || R[i].a != R[j].a
  }

  lemma NoDupPairsFunctional<S, A>(R: seq<Rule<S, A>>)
    requires NoDupPairs(R)
    ensures Functional(R)
  {
    forall r1, r2 | r1 in R && r2 in R && r1.p == r2.p && r1.a == r2.a
      ensures r1.q == r2.q
    {
      var i :| 0 <= i < |R| && R[i] == r1;
      var j :| 0 <= j < |R| && R[j] == r2;
      assert !(i < j) && !(j < i);
    }
  }

  /** Index of the first rule leaving `x` on `c`; `|R|` when there is none. */
  function FirstRule<S(==), A(==)>(R: seq<Rule<S, A>>, x: S, c: A): (i: nat)
    ensures i <= |R|
    ensures i < |R| ==> R[i].p == x && R[i].a == c
    ensures forall k :: 0 <= k < i ==> R[k].p != x || R[k].a != c
  {
    if |R| == 0 then 0
    else if R[0].p == x && R[0].a == c then 0
    else 1 + FirstRule(R[1..], x, c)
  }

  /** One step: the target of the first matching rule, or `None` (trapped). */
  function Step<S(==), A(==)>(R: seq<Rule<S, A>>, x: S, c: A): (r: Option<S>)
    ensures r.None? <==> forall k :: 0 <= k < |R| ==> R[k].p != x || R[k].a != c
    ensures r.Some? ==> Rule(x, c, r.value) in R
  {
    var i := FirstRule(R, x, c);
    if i == |R| then None else Some(R[i].q)
  }

  /** The state reached after reading all of `w` from `x`, or `None` once trapped. */
  function Run<S(==), A(==)>(R: seq<Rule<S, A>>, x: S, w: seq<A>): Option<S>
    decreases |w|
  {
    if |w| == 0 then Some(x)
    else match Step(R, x, w[0])
      case None => None
      case Some(y) => Run(R, y, w[1..])
  }

  /** Acceptance: the run is never trapped and ends in an accepting state. */
  predicate Accepts<S(==), A(==)>(R: seq<Rule<S, A>>, s: S, F: set<S>, w: seq<A>)
  {
    var r := Run(R, s, w);
    r.Some? && r.value in F
  }

  /** The language of an automaton, over words free of the empty-move symbol. */
  ghost function DfaLang<S, A(!new)>(R: seq<Rule<S, A>>, eps: A, s: S, F: set<S>): iset<seq<A>>
  {
    iset w: seq<A> | NoEps(eps, w) && Accepts(R, s, F, w)
  }

  /** In a functional rule list the first match is the only match. */
  lemma StepFunctional<S, A>(R: seq<Rule<S, A>>, x: S, c: A, y: S)
    requires Functional(R) && Rule(x, c, y) in R
    ensures Step(R, x, c) == Some(y)
  {
  }

  /** A run of a nonempty word is a step followed by a run of the rest. */
  lemma RunCons<S, A>(R: seq<Rule<S, A>>, x: S, w: seq<A>)
    requires |w| > 0
    ensures Run(R, x, w) == match Step(R, x, w[0])
              case None => None
              case Some(y) => Run(R, y, w[1..])
  {
  }

  /** A run only visits states the rules mention, after its first step. */
  lemma {:induction false} RunInIds<S, A>(R: seq<Rule<S, A>>, x: S, w: seq<A>)
    ensures Run(R, x, w).Some? && |w| > 0 ==> Run(R, x, w).value in Ids(R)
    decreases |w|
  {
    if |w| > 0 {
      match Step(R, x, w[0])
      case None =>
      case Some(y) =>
        assert y in Ids(R) by { assert Rule(x, w[0], y) in R; }
        RunInIds(R, y, w[1..]);
    }
  }

  // ---------------------------------------------------------------- renaming

  /** A rule list with every state renamed by `f`. */
  function MapRules<S, T, A>(R: seq<Rule<S, A>>, f: S -> T): (R': seq<Rule<T, A>>)
    ensures |R'| == |R|
    ensures forall i :: 0 <= i < |R| ==> R'[i] == Rule(f(R[i].p), R[i].a, f(R[i].q))
  {
    seq(|R|, i requires 0 <= i < |R| => Rule(f(R[i].p), R[i].a, f(R[i].q)))
  }

  function MapOpt<S, T>(o: Option<S>, f: S -> T): Option<T>
  {
    match o
    case None => None
    case Some(x) => Some(f(x))
  }

  /** `f` is one-to-one on `D`. */
  ghost predicate InjectiveOn<S, T>(f: S -> T, D: set<S>)
  {
    forall x, y :: x in D && y in D && f(x) == f(y) ==> x == y
  }

  /** Renaming by a map that is one-to-one on the rule ends commutes with a step,
      both from a state the rules mention and from one they never leave. */
  lemma StepRenamed<S, T, A>(R: seq<Rule<S, A>>, f: S -> T, x: S, c: A)
    requires InjectiveOn(f, Ids(R))
    requires x in Ids(R) || forall r :: r in R ==> f(r.p) != f(x)
    ensures Step(MapRules(R, f), f(x), c) == MapOpt(Step(R, x, c), f)
  {
    var R' := MapRules(R, f);
    var i := FirstRule(R, x, c);
    var i' := FirstRule(R', f(x), c);
    forall k | 0 <= k < |R|
      ensures (R'[k].p == f(x) && R'[k].a == c) <==> (R[k].p == x && R[k].a == c)
    {
      assert R[k] in R;
      assert R[k].p in Ids(R);
    }
    assert i == i';
  }

  /** Renaming commutes with runs from the start state. */
  lemma {:induction false} RunRenamed<S, T, A>(R: seq<Rule<S, A>>, f: S -> T, x: S, w: seq<A>)
    requires InjectiveOn(f, Ids(R))
    requires x in Ids(R) || forall r :: r in R ==> f(r.p) != f(x)
    ensures Run(MapRules(R, f), f(x), w) == MapOpt(Run(R, x, w), f)
    decreases |w|
  {
    if |w| > 0 {
      StepRenamed(R, f, x, w[0]);
      match Step(R, x, w[0])
      case None =>
      case Some(y) =>
        assert y in Ids(R) by { assert Rule(x, w[0], y) in R; }
        RunRenamed(R, f, y, w[1..]);
    }
  }

  /** Renaming keeps the accepted words when it separates an accepting state
      from every non-accepting state a run can end in. */
  lemma AcceptsRenamed<S, T, A>(R: seq<Rule<S, A>>, f: S -> T, s: S, F: set<S>, F': set<T>, w: seq<A>)
    requires InjectiveOn(f, Ids(R))
    requires s in Ids(R) || forall r :: r in R ==> f(r.p) != f(s)
    requires forall y :: y in Ids(R) + {s} ==> (f(y) in F' <==> y in F)
    ensures Accepts(MapRules(R, f), f(s), F', w) == Accepts(R, s, F, w)
  {
    RunRenamed(R, f, s, w);
    RunInIds(R, s, w);
  }

  /** A rule list that a one-to-one renaming maps keeps being deterministic. */
  lemma NoDupPairsRenamed<S, T, A>(R: seq<Rule<S, A>>, f: S -> T)
    requires InjectiveOn(f, Ids(R)) && NoDupPairs(R)
    ensures NoDupPairs(MapRules(R, f))
  {
    var R' := MapRules(R, f);
    forall i, j | 0 <= i < j < |R'| ensures R'[i].p != R'[j].p || R'[i].a != R'[j].a {
      assert R[i] in R && R[j] in R;
    }
  }

  /** The image of a set of states under a renaming. */
  ghost function Image<S, T>(X: set<S>, f: S -> T): set<T>
  {
    set x | x in X :: f(x)
  }

  /** Renaming every state of an automaton, one-to-one, keeps its language. */
  lemma RenamedDfaLang<S, T, A(!new)>(R: seq<Rule<S, A>>, f: S -> T, eps: A, s: S, F: set<S>)
    requires InjectiveOn(f, States(s, F, R))
    ensures DfaLang(MapRules(R, f), eps, f(s), Image(F, f)) == DfaLang(R, eps, s, F)
  {
    forall r | r in R ensures r.p in Ids(R) {}
    forall y | y in Ids(R) + {s} ensures f(y) in Image(F, f) <==> y in F {
      if f(y) in Image(F, f) {
        var x :| x in F && f(x) == f(y);
      }
    }
    forall w: seq<A> ensures Accepts(MapRules(R, f), f(s), Image(F, f), w) == Accepts(R, s, F, w) {
      AcceptsRenamed(R, f, s, F, Image(F, f), w);
    }
  }

  /** The states of a renamed automaton are the renamed states. */
  lemma StatesRenamed<S, T, A>(R: seq<Rule<S, A>>, f: S -> T, s: S, F: set<S>)
    ensures States(f(s), Image(F, f), MapRules(R, f)) == Image(States(s, F, R), f)
  {
    var R' := MapRules(R, f);
    forall y | y in Ids(R') ensures y in Image(Ids(R), f) {
      var r :| r in R' && (y == r.p || y == r.q);
      var i :| 0 <= i < |R'| && R'[i] == r;
      assert R[i] in R;
    }
    forall x | x in Ids(R) ensures f(x) in Ids(R') {
      var r :| r in R && (x == r.p || x == r.q);
      var i :| 0 <= i < |R| && R[i] == r;
      assert R'[i] in R';
    }
  }

  /** A one-to-one renaming keeps a rule list deterministic. */
  lemma DetLikeRenamed<S, T, A>(R: seq<Rule<S, A>>, f: S -> T, eps: A)
    requires InjectiveOn(f, Ids(R)) && DetLike(R, eps)
    ensures DetLike(MapRules(R, f), eps)
  {
    var R' := MapRules(R, f);
    forall r1, r2 | r1 in R' && r2 in R' && r1.p == r2.p && r1.a == r2.a ensures r1.q == r2.q {
      var i :| 0 <= i < |R'| && R'[i] == r1;
      var j :| 0 <= j < |R'| && R'[j] == r2;
      assert R[i] in R && R[j] in R;
    }
    forall r | r in R' && r.a == eps ensures r.q == r.p {
      var i :| 0 <= i < |R'| && R'[i] == r;
      assert R[i] in R;
    }
  }

  // ------------------------------------------------------------------ matcher

  /** One state with an empty-move loop that accepts: the empty word only. */
  lemma LoopLang<S, A(!new)>(s: S, eps: A)
    ensures DfaLang([Rule(s, eps, s)], eps, s, {s}) == iset{[]}
  {
    forall w: seq<A> ensures w in DfaLang([Rule(s, eps, s)], eps, s, {s}) <==> w == [] {
      if |w| > 0 && NoEps(eps, w) {
        assert w[0] != eps;
        assert Step([Rule(s, eps, s)], s, w[0]) == None;
      }
    }
  }

  /** One rule reading `c` into the only accepting state: the word `c` only. */
  lemma EdgeLang<S, A(!new)>(s: S, c: A, q: S, eps: A)
    requires c != eps && s != q
    ensures DfaLang([Rule(s, c, q)], eps, s, {q}) == iset{[c]}
  {
    var R := [Rule(s, c, q)];
    forall w: seq<A> ensures w in DfaLang(R, eps, s, {q}) <==> w == [c] {
      if w == [c] {
        assert Step(R, s, c) == Some(q);
        assert Run(R, q, w[1..]) == Some(q);
      } else if |w| > 0 && w[0] != c {
        assert Step(R, s, w[0]) == None;
      } else if |w| > 0 {
        assert |w| > 1;
        assert Step(R, s, w[0]) == Some(q);
        assert Step(R, q, w[1]) == None;
        assert Run(R, q, w[1..]) == None;
      }
    }
  }

  /** The matcher state of an automaton: the current state and whether the
      input has already trapped it. */
  class Matcher<S(==), A(==)> {
    const start: S
    const accept: set<S>
    const rules: seq<Rule<S, A>>
    var state: S
    var trapped: bool

    /** Building an automaton resets it. */
    constructor (s: S, F: set<S>, R: seq<Rule<S, A>>)
      ensures start == s && accept == F && rules == R
      ensures state == s && !trapped
    {
      start, accept, rules := s, F, R;
      state, trapped := s, false;
    }

    /** `reset`: back to the start state, not trapped. */
    method Reset()
      modifies this
      ensures state == start && !trapped
    {
      state := start;
      trapped := false;
    }

    /** `advance`: follow the first rule that leaves the current state on `c`;
        with no such rule, become trapped and keep the state. */
    method Advance(c: A)
      modifies this
      ensures Step(rules, old(state), c).Some? ==>
                state == Step(rules, old(state), c).value && trapped == old(trapped)
      ensures Step(rules, old(state), c).None? ==> state == old(state) && trapped
    {
      for i := 0 to |rules|
        invariant forall k :: 0 <= k < i ==> rules[k].p != state || rules[k].a != c
      {
        if rules[i].p == state && rules[i].a == c {
          assert FirstRule(rules, state, c) == i;
          state := rules[i].q;
          return;
        }
      }
      trapped := true;
    }

    /** `operator()`: reset, advance over the tape, give up at the first trap,
        and otherwise report whether the final state accepts. */
    method Call(tape: seq<A>) returns (b: bool)
      modifies this
      ensures b == Accepts(rules, start, accept, tape)
    {
      Reset();
      var k := 0;
      while k < |tape|
        invariant 0 <= k <= |tape| && !trapped
        invariant Run(rules, start, tape) == Run(rules, state, tape[k..])
      {
        Advance(tape[k]);
        if trapped {
          return false;
        }
        k := k + 1;
      }
      return state in accept;
    }
  }
}
