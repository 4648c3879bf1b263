/** Renumbering an automaton whose states are arbitrary values (sets of states,
    after the subset construction) into one whose states are `0, 1, 2, ...`, in
    order of first appearance in the rule list, source before target. */
module Renumber {
  import opened Automata
  import opened Subset

  /** Position of the first `x` in `xs`, or `|xs|` when there is none: what
      `std::find(...) - begin()` computes. */
  function IndexOf<T(==)>(xs: seq<T>, x: T): (i: nat)
    ensures i <= |xs|
    ensures i < |xs| ==> xs[i] == x
    ensures forall k :: 0 <= k < i ==> xs[k] != x
  {
    if |xs| == 0 then 0
    else if xs[0] == x then 0
    else 1 + IndexOf(xs[1..], x)
  }

  lemma IndexOfIn<T>(xs: seq<T>, x: T)
    ensures IndexOf(xs, x) < |xs| <==> x in xs
  {
  }

  /** Appending a new value keeps the positions of the values already there. */
  lemma IndexOfSnoc<T>(xs: seq<T>, y: T, x: T)
    requires x in xs
    ensures IndexOf(xs + [y], x) == IndexOf(xs, x)
  {
    var i := IndexOf(xs, x);
    var ys := xs + [y];
    assert ys[i] == x;
    assert forall k :: 0 <= k < i ==> ys[k] != x;
  }

  /** In a list without repetitions, positions tell values apart. */
  lemma IndexOfInjective<T>(xs: seq<T>, x: T, y: T)
    requires Distinct(xs) && x in xs && y in xs && IndexOf(xs, x) == IndexOf(xs, y)
    ensures x == y
  {
    IndexOfIn(xs, x);
    IndexOfIn(xs, y);
  }

  lemma IdsSnoc<S, A>(R: seq<Rule<S, A>>, r: Rule<S, A>)
    ensures Ids(R + [r]) == Ids(R) + {r.p, r.q}
  {
    var R' := R + [r];
    assert forall x :: x in R' <==> x in R || x == r;
  }

  lemma IdsPrefix<S, A>(R: seq<Rule<S, A>>, i: nat)
    requires i < |R|
    ensures Ids(R[..i + 1]) == Ids(R[..i]) + {R[i].p, R[i].q}
  {
    IdsSnoc(R[..i], R[i]);
    assert R[..i + 1] == R[..i] + [R[i]];
  }

  /** A list without repetitions has as many values as entries. */
  lemma {:induction false} DistinctCard<T>(xs: seq<T>)
    requires Distinct(xs)
    ensures |Elems(xs)| == |xs|
  {
    if |xs| > 0 {
      var ys := xs[..|xs| - 1];
      var y := xs[|xs| - 1];
      assert Distinct(ys);
      DistinctCard(ys);
      assert xs == ys + [y];
      assert Elems(xs) == Elems(ys) + {y};
      assert y !in Elems(ys);
    }
  }

  /** The first `n` rules are renamed by position in `states`. */
  ghost predicate Numbered<T, A>(RG: seq<Rule<T, A>>, n: nat, states: seq<T>, R: seq<Rule<nat, A>>)
  {
    n <= |RG| && |R| == n &&
    forall k :: 0 <= k < n ==>
      RG[k].p in states && RG[k].q in states &&
      R[k] == Rule(IndexOf(states, RG[k].p), RG[k].a, IndexOf(states, RG[k].q))
  }

  /** Numbering a new value at the end keeps the earlier numbers. */
  lemma Grow<T, A>(RG: seq<Rule<T, A>>, n: nat, states: seq<T>, R: seq<Rule<nat, A>>, y: T)
    requires Numbered(RG, n, states, R) && Distinct(states) && y !in states
    ensures Numbered(RG, n, states + [y], R) && Distinct(states + [y])
    ensures IndexOf(states + [y], y) == |states| && Elems(states + [y]) == Elems(states) + {y}
  {
    forall k | 0 <= k < n
      ensures IndexOf(states + [y], RG[k].p) == IndexOf(states, RG[k].p)
      ensures IndexOf(states + [y], RG[k].q) == IndexOf(states, RG[k].q)
    {
      IndexOfSnoc(states, y, RG[k].p);
      IndexOfSnoc(states, y, RG[k].q);
    }
    IndexOfIn(states, y);
    var ys := states + [y];
    assert ys[|states|] == y;
    assert forall x :: x in ys <==> x in states || x == y;
  }

  /** `xs` with `x` appended unless it is already there. */
  ghost function Add<T>(xs: seq<T>, x: T): seq<T>
  {
    if x in xs then xs else xs + [x]
  }

  /** Adding a value keeps the numbers already given and numbers the value
      where it was found, or at the end. */
  lemma AddKeeps<T, A>(RG: seq<Rule<T, A>>, n: nat, states: seq<T>, R: seq<Rule<nat, A>>, y: T)
    requires Numbered(RG, n, states, R) && Distinct(states)
    ensures Numbered(RG, n, Add(states, y), R) && Distinct(Add(states, y))
    ensures Elems(Add(states, y)) == Elems(states) + {y} && |Add(states, y)| <= |states| + 1
    ensures IndexOf(Add(states, y), y) == IndexOf(states, y)
  {
    IndexOfIn(states, y);
    if y !in states {
      Grow(RG, n, states, R, y);
    }
  }

  /** The rule ends in order of first appearance, the source of each rule
      before its target: the list of numbered states the renumbering builds. */
  ghost function FirstSeen<T, A>(RG: seq<Rule<T, A>>): seq<T>
  {
    if |RG| == 0 then []
    else Add(Add(FirstSeen(RG[..|RG| - 1]), RG[|RG| - 1].p), RG[|RG| - 1].q)
  }

  lemma FirstSeenPrefix<T, A>(RG: seq<Rule<T, A>>, i: nat)
    requires i < |RG|
    ensures FirstSeen(RG[..i + 1]) == Add(Add(FirstSeen(RG[..i]), RG[i].p), RG[i].q)
  {
    assert RG[..i + 1][..i] == RG[..i];
  }

  /** The source of the first rule is numbered first. */
  lemma {:induction false} FirstSeenHead<T, A>(RG: seq<Rule<T, A>>)
    requires |RG| > 0
    ensures |FirstSeen(RG)| > 0 && FirstSeen(RG)[0] == RG[0].p
  {
    if |RG| > 1 {
      var ys := RG[..|RG| - 1];
      assert ys[..|ys| - 1] == RG[..|RG| - 2];
      FirstSeenHead(ys);
      assert ys[0] == RG[0];
    } else {
      assert RG[..0] == [];
    }
  }

  /** The invariant of the renumbering loop after `i` rules. */
  ghost predicate Loop<T, A>(RG: seq<Rule<T, A>>, i: nat, states: seq<T>, R: seq<Rule<nat, A>>)
  {
    i <= |RG| && Distinct(states) && Elems(states) == Ids(RG[..i]) && |states| <= 2 * i &&
    Numbered(RG, i, states, R)
  }

  /** Numbering one more rule whose ends are both numbered already. */
  lemma NumberedSnoc<T, A>(RG: seq<Rule<T, A>>, n: nat, states: seq<T>, R: seq<Rule<nat, A>>)
    requires n < |RG| && Numbered(RG, n, states, R) && RG[n].p in states && RG[n].q in states
    ensures Numbered(RG, n + 1, states, R + [Rule(IndexOf(states, RG[n].p), RG[n].a, IndexOf(states, RG[n].q))])
  {
  }

  /** One turn of the renumbering loop keeps its invariant. */
  lemma LoopStep<T, A>(RG: seq<Rule<T, A>>, i: nat, states: seq<T>, R: seq<Rule<nat, A>>)
    requires i < |RG| && Loop(RG, i, states, R)
    ensures Loop(RG, i + 1, Add(Add(states, RG[i].p), RG[i].q),
                 R + [Rule(IndexOf(states, RG[i].p), RG[i].a, IndexOf(Add(states, RG[i].p), RG[i].q))])
  {
    var x, y := RG[i].p, RG[i].q;
    var s1 := Add(states, x);
    var s2 := Add(s1, y);
    AddKeeps(RG, i, states, R, x);
    AddKeeps(RG, i, s1, R, y);
    assert x in s1 && y in s2;
    assert IndexOf(s2, x) == IndexOf(s1, x) by {
      if y !in s1 {
        IndexOfSnoc(s1, y, x);
      }
    }
    NumberedSnoc(RG, i, s2, R);
    IdsPrefix(RG, i);
  }

  /** The renumbering loop of both constructors from state sets: each rule end
      not seen before gets the next number.  The numbered states are listed in
      `states`, without repetition and in order of first appearance, and each
      rule is renamed by position. */
  method Renumber<T(==), A>(RG: seq<Rule<T, A>>) returns (states: seq<T>, R: seq<Rule<nat, A>>)
    ensures states == FirstSeen(RG)
    ensures Distinct(states) && Elems(states) == Ids(RG) && |states| <= 2 * |RG|
    ensures R == MapRules(RG, x => IndexOf(states, x))
  {
    states, R := [], [];
    for i := 0 to |RG|
      invariant Loop(RG, i, states, R) && states == FirstSeen(RG[..i])
    {
      ghost var s0 := states;
      var p := IndexOf(states, RG[i].p);
      if p == |states| {
        states := states + [RG[i].p];
      }
      IndexOfIn(s0, RG[i].p);
      assert states == Add(s0, RG[i].p);
      ghost var s1 := states;
      var q := IndexOf(states, RG[i].q);
      if q == |states| {
        states := states + [RG[i].q];
      }
      IndexOfIn(s1, RG[i].q);
      assert states == Add(s1, RG[i].q);
      LoopStep(RG, i, s0, R);
      FirstSeenPrefix(RG, i);
      R := R + [Rule(p, RG[i].a, q)];
    }
    assert RG[..|RG|] == RG;
  }

  /** Renumbered rule ends are positions in the list of numbered states. */
  lemma NumberedBelow<T, A>(RG: seq<Rule<T, A>>, states: seq<T>, R: seq<Rule<nat, A>>)
    requires Elems(states) == Ids(RG) && R == MapRules(RG, x => IndexOf(states, x))
    ensures forall x :: x in Ids(R) ==> x < |states|
  {
    forall k | 0 <= k < |R| ensures R[k].p < |states| && R[k].q < |states| {
      assert R[k] == Rule(IndexOf(states, RG[k].p), RG[k].a, IndexOf(states, RG[k].q));
      assert RG[k] in RG;
      assert RG[k].p in Ids(RG) && RG[k].q in Ids(RG);
      IndexOfIn(states, RG[k].p);
      IndexOfIn(states, RG[k].q);
    }
    forall x | x in Ids(R) ensures x < |states| {
      var r :| r in R && (x == r.p || x == r.q);
      var k :| 0 <= k < |R| && R[k] == r;
    }
  }

  /** Renumbering keeps the language when the accepting states are renumbered
      alike; a start that no rule mentions gets the number `|states|`. */
  lemma RenamedLang<T, A(!new)>(RG: seq<Rule<T, A>>, eps: A, states: seq<T>, s0: T, FG: set<T>, F: set<nat>)
    requires Distinct(states) && Elems(states) == Ids(RG)
    requires FG <= {s0} + Ids(RG)
    requires F == set g | g in FG :: IndexOf(states, g)
    ensures DfaLang(MapRules(RG, x => IndexOf(states, x)), eps, IndexOf(states, s0), F) == DfaLang(RG, eps, s0, FG)
  {
    var f := x => IndexOf(states, x);
    forall x, y | x in States(s0, FG, RG) && y in States(s0, FG, RG) && f(x) == f(y) ensures x == y {
      IndexOfIn(states, x);
      IndexOfIn(states, y);
      if x in Ids(RG) && y in Ids(RG) {
        IndexOfInjective(states, x, y);
      }
    }
    assert F == Image(FG, f);
    RenamedDfaLang(RG, f, eps, s0, FG);
  }
}
