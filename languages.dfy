/** Languages as possibly infinite sets of words, the regular operations on
    them, and the syntax trees of regular expressions with their meaning. */
module Languages {

  /** Words that split into a word of `L1` followed by a word of `L2`. */
  ghost function CatL<A(!new)>(L1: iset<seq<A>>, L2: iset<seq<A>>): iset<seq<A>>
  {
    iset w: seq<A> | exists k :: 0 <= k <= |w| && w[..k] in L1 && w[k..] in L2
  }

  /** `w` splits into zero or more nonempty words of `L`. */
  ghost predicate InStar<A>(L: iset<seq<A>>, w: seq<A>)
    decreases |w|
  {
    |w| == 0 || exists k :: 1 <= k <= |w| && w[..k] in L && InStar(L, w[k..])
  }

  ghost function StarL<A(!new)>(L: iset<seq<A>>): iset<seq<A>>
  {
    iset w: seq<A> | InStar(L, w)
  }

  /** Syntax trees of the regular expressions the compilers build. */
  datatype Re<A> = Eps | Lit(c: A) | Cat(l: Re<A>, r: Re<A>) | Alt(l: Re<A>, r: Re<A>) | Star(e: Re<A>)

  /** The words a regular expression denotes. */
  ghost function LangRe<A(!new)>(re: Re<A>): iset<seq<A>>
  {
    match re
    case Eps => iset{[]}
    case Lit(c) => iset{[c]}
    case Cat(l, r) => CatL(LangRe(l), LangRe(r))
    case Alt(l, r) => LangRe(l) + LangRe(r)
    case Star(e) => StarL(LangRe(e))
  }

  /** `x` occurs in no literal of `re`. */
  predicate LitsAvoid<A(==)>(re: Re<A>, x: A)
  {
    match re
    case Eps => true
    case Lit(c) => c != x
    case Cat(l, r) => LitsAvoid(l, x) && LitsAvoid(r, x)
    case Alt(l, r) => LitsAvoid(l, x) && LitsAvoid(r, x)
    case Star(e) => LitsAvoid(e, x)
  }

  /** Every word of `L` avoids `x`. */
  ghost predicate Avoids<A(!new)>(L: iset<seq<A>>, x: A)
  {
    forall w :: w in L ==> x !in w
  }

  lemma {:induction false} StarAvoids<A(!new)>(L: iset<seq<A>>, x: A, w: seq<A>)
    requires Avoids(L, x) && InStar(L, w)
    ensures x !in w
    decreases |w|
  {
    if |w| > 0 {
      var k :| 1 <= k <= |w| && w[..k] in L && InStar(L, w[k..]);
      StarAvoids(L, x, w[k..]);
      assert w == w[..k] + w[k..];
    }
  }

  /** A word of a regular expression only holds symbols its literals hold. */
  lemma {:induction false} LangReAvoids<A(!new)>(re: Re<A>, x: A)
    requires LitsAvoid(re, x)
    ensures Avoids(LangRe(re), x)
  {
    match re
    case Eps =>
    case Lit(c) =>
    case Cat(l, r) =>
      LangReAvoids(l, x);
      LangReAvoids(r, x);
      forall w | w in LangRe(re) ensures x !in w {
        var k :| 0 <= k <= |w| && w[..k] in LangRe(l) && w[k..] in LangRe(r);
        assert w == w[..k] + w[k..];
      }
    case Alt(l, r) =>
      LangReAvoids(l, x);
      LangReAvoids(r, x);
    case Star(e) =>
      LangReAvoids(e, x);
      forall w | w in LangRe(re) ensures x !in w {
        StarAvoids(LangRe(e), x, w);
      }
  }
}
