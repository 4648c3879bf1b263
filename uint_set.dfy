/** A growable set of natural numbers kept as a bit array: value `i` lives in bit
    `i % 8` of byte `i / 8`.  The class keeps the bytes and, as a ghost, the set they
    stand for; every operation is specified on that set. */
module UintSets {

  /** The one-bit byte `1 << j`, written as a table. */
  function Mask(j: nat): bv8
    requires j < 8
  {
    if j == 0 then 1 else if j == 1 then 2 else if j == 2 then 4 else if j == 3 then 8
    else if j == 4 then 16 else if j == 5 then 32 else if j == 6 then 64 else 128
  }

  lemma MaskIsShift(j: nat)
    requires j < 8
    ensures Mask(j) == (1 as bv8) << j
  {}

  /** Bit `j` of byte `b`, as `b & (1 << j)` tests it. */
  function BitAt(b: bv8, j: nat): bool
    requires j < 8
  {
    b & Mask(j) != 0
  }

  /** Membership as the bytes encode it: the byte exists and the bit is set. */
  predicate InBytes(bytes: seq<bv8>, i: nat)
  {
    i / 8 < |bytes| && BitAt(bytes[i / 8], i % 8)
  }

  /** The set of values a byte sequence encodes. */
  ghost function Members(bytes: seq<bv8>): set<nat>
  {
    set i: nat | i < 8 * |bytes| && InBytes(bytes, i)
  }

  /** `n` zero bytes. */
  function Zeros(n: nat): (z: seq<bv8>)
    ensures |z| == n && forall k :: 0 <= k < n ==> z[k] == 0
  {
    seq(n, _ => 0)
  }

  /** Every value raised by `d`. */
  ghost function Shifted(s: set<nat>, d: nat): set<nat>
  {
    set x | x in s :: x + d
  }

  function Max(a: nat, b: nat): nat { if a < b then b else a }

  function Min(a: nat, b: nat): nat { if a < b then a else b }

  lemma OrBit(b: bv8, c: bv8, j: nat)
    requires j < 8
    ensures BitAt(b | c, j) == (BitAt(b, j) || BitAt(c, j))
  {}

  lemma AndBit(b: bv8, c: bv8, j: nat)
    requires j < 8
    ensures BitAt(b & c, j) == (BitAt(b, j) && BitAt(c, j))
  {}

  lemma SetBit(b: bv8, j: nat, k: nat)
    requires j < 8 && k < 8
    ensures BitAt(b | Mask(j), k) == (k == j || BitAt(b, k))
  {}

  lemma ClearBit(b: bv8, j: nat, k: nat)
    requires j < 8 && k < 8
    ensures BitAt(b & !Mask(j), k) == (k != j && BitAt(b, k))
  {}

  /** A byte is zero exactly when none of its eight bits is set. */
  lemma ZeroByte(b: bv8)
    ensures b == 0 <==> forall k: nat :: k < 8 ==> !BitAt(b, k)
  {
    if b != 0 {
      assert BitAt(b, 0) || BitAt(b, 1) || BitAt(b, 2) || BitAt(b, 3)
          || BitAt(b, 4) || BitAt(b, 5) || BitAt(b, 6) || BitAt(b, 7);
    }
  }

  /** Two byte sequences encode the same set when they agree pointwise. */
  lemma MembersExt(bytes: seq<bv8>, s: set<nat>)
    requires forall i: nat :: InBytes(bytes, i) <==> i in s
    ensures Members(bytes) == s
  {}

  /** `i` is a member exactly when the bytes say so. */
  lemma MembersIff(bytes: seq<bv8>, i: nat)
    ensures i in Members(bytes) <==> InBytes(bytes, i)
  {}

  lemma ShiftedIff(s: set<nat>, d: nat, x: nat)
    ensures x in Shifted(s, d) <==> x >= d && x - d in s
  {
    if x >= d && x - d in s {
      assert (x - d) + d in Shifted(s, d);
    }
  }

  /** Byte `k` holds the values `8k .. 8k+7`; a zero byte holds none of them. */
  lemma ZeroByteNoMember(bytes: seq<bv8>, k: nat, i: nat)
    requires k < |bytes| && bytes[k] == 0 && i / 8 == k
    ensures !InBytes(bytes, i)
  {
    ZeroByte(bytes[k]);
  }

  /** Zero leading bytes hold no member. */
  lemma ZeroPrefixNoMember(bytes: seq<bv8>, n: nat)
    requires n <= |bytes| && forall m :: 0 <= m < n ==> bytes[m] == 0
    ensures forall x: nat :: x / 8 < n ==> !InBytes(bytes, x)
  {
    forall x: nat | x / 8 < n ensures !InBytes(bytes, x) {
      ZeroByteNoMember(bytes, x / 8, x);
    }
  }

  /** A nonzero byte holds a member. */
  lemma NonZeroByteHasMember(bytes: seq<bv8>, k: nat) returns (i: nat)
    requires k < |bytes| && bytes[k] != 0
    ensures i / 8 == k && InBytes(bytes, i)
  {
    ZeroByte(bytes[k]);
    var j: nat :| j < 8 && BitAt(bytes[k], j);
    i := 8 * k + j;
  }

  /** Appending or prepending zero bytes: how membership moves. */
  lemma PadIff(bytes: seq<bv8>, n: nat, i: nat)
    ensures InBytes(bytes + Zeros(n), i) <==> InBytes(bytes, i)
  {
    if i / 8 >= |bytes| && i / 8 < |bytes| + n {
      ZeroByteNoMember(bytes + Zeros(n), i / 8, i);
    }
  }

  lemma PrependIff(bytes: seq<bv8>, n: nat, i: nat)
    ensures InBytes(Zeros(n) + bytes, i) <==> i >= 8 * n && InBytes(bytes, i - 8 * n)
  {
    var z := Zeros(n) + bytes;
    if i / 8 < n {
      ZeroByteNoMember(z, i / 8, i);
    } else {
      assert (i - 8 * n) / 8 == i / 8 - n && (i - 8 * n) % 8 == i % 8;
    }
  }

  /** The byte sequence is all zeros beyond index `from`. */
  ghost predicate ZeroFrom(bytes: seq<bv8>, from: nat)
  {
    forall k :: from <= k < |bytes| ==> bytes[k] == 0
  }

  /** Value `p` is the first member at or after `from` (or the end position `8*|bytes|`
      when there is none). */
  ghost predicate FirstMemberFrom(bytes: seq<bv8>, from: nat, p: nat)
  {
    from <= p <= 8 * |bytes|
    && (p < 8 * |bytes| ==> InBytes(bytes, p))
    && (forall k: nat :: from <= k < p ==> !InBytes(bytes, k))
  }

  /** No value in `from .. to - 1` is a member. */
  predicate NoMemberIn(bytes: seq<bv8>, from: nat, to: nat)
  {
    forall k: nat :: from <= k < to ==> !InBytes(bytes, k)
  }

  lemma NoMemberExtend(bytes: seq<bv8>, from: nat, to: nat)
    requires NoMemberIn(bytes, from, to) && !InBytes(bytes, to)
    ensures NoMemberIn(bytes, from, to + 1)
  {}

  /** `xs` lists, in ascending order, exactly the members below `pos`, and `pos`
      is a member or the end position. */
  ghost predicate Collected(bytes: seq<bv8>, xs: seq<nat>, pos: nat)
  {
    (forall a, b :: 0 <= a < b < |xs| ==> xs[a] < xs[b])
    && (forall a :: 0 <= a < |xs| ==> xs[a] < pos)
    && (forall x: nat :: x in xs <==> InBytes(bytes, x) && x < pos)
    && pos <= 8 * |bytes| && (pos < 8 * |bytes| ==> InBytes(bytes, pos))
  }

  /** Appending the member at `p` and moving on to the next member keeps the list. */
  lemma CollectStep(bytes: seq<bv8>, xs: seq<nat>, p: nat, q: nat)
    requires Collected(bytes, xs, p) && p < 8 * |bytes|
    requires FirstMemberFrom(bytes, p + 1, q)
    ensures Collected(bytes, xs + [p], q)
  {
    forall x: nat ensures x in xs + [p] <==> InBytes(bytes, x) && x < q {
      assert x in xs + [p] <==> x in xs || x == p;
    }
  }

  /** A list collected up to the end position holds exactly the members. */
  lemma CollectDone(bytes: seq<bv8>, xs: seq<nat>)
    requires Collected(bytes, xs, 8 * |bytes|)
    ensures forall a, b :: 0 <= a < b < |xs| ==> xs[a] < xs[b]
    ensures forall x :: x in xs <==> x in Members(bytes)
  {
    forall x ensures x in xs <==> x in Members(bytes) {
      MembersIff(bytes, x);
    }
  }

  /** Clearing the bit of `i` removes exactly `i`. */
  lemma ClearMembers(bytes: seq<bv8>, i: nat)
    requires i / 8 < |bytes|
    ensures Members(bytes[i / 8 := bytes[i / 8] & !Mask(i % 8)]) == Members(bytes) - {i}
  {
    var res := bytes[i / 8 := bytes[i / 8] & !Mask(i % 8)];
    forall x: nat ensures InBytes(res, x) <==> x in Members(bytes) - {i} {
      MembersIff(bytes, x);
      ClearIff(bytes, i, x);
    }
    MembersExt(res, Members(bytes) - {i});
  }

  lemma ClearIff(bytes: seq<bv8>, i: nat, x: nat)
    requires i / 8 < |bytes|
    ensures InBytes(bytes[i / 8 := bytes[i / 8] & !Mask(i % 8)], x)
            <==> InBytes(bytes, x) && x != i
  {
    if x / 8 == i / 8 {
      ClearBit(bytes[i / 8], i % 8, x % 8);
      assert x == i <==> x % 8 == i % 8;
    }
  }

  /** Bytewise OR of `b` into `a` (with `a` at least as long) encodes the union. */
  lemma OrBytesIff(res: seq<bv8>, a: seq<bv8>, b: seq<bv8>, x: nat)
    requires |res| == |a| >= |b|
    requires forall m :: 0 <= m < |b| ==> res[m] == a[m] | b[m]
    requires forall m :: |b| <= m < |res| ==> res[m] == a[m]
    ensures InBytes(res, x) <==> InBytes(a, x) || InBytes(b, x)
  {
    var m := x / 8;
    if m < |b| {
      OrBit(a[m], b[m], x % 8);
    }
  }

  /** Bytewise AND over the shared prefix, zeros beyond it, encodes the intersection. */
  lemma AndBytesIff(res: seq<bv8>, a: seq<bv8>, b: seq<bv8>, n: nat, x: nat)
    requires |res| == |a| && n == Min(|a|, |b|)
    requires forall m :: 0 <= m < n ==> res[m] == a[m] & b[m]
    requires forall m :: n <= m < |res| ==> res[m] == 0
    ensures InBytes(res, x) <==> InBytes(a, x) && InBytes(b, x)
  {
    var m := x / 8;
    if m < n {
      AndBit(a[m], b[m], x % 8);
    } else if m < |res| {
      ZeroByteNoMember(res, m, x);
    }
  }

  /** Set-level form of `AndBytesIff`. */
  lemma AndBytesMembers(res: seq<bv8>, a: seq<bv8>, b: seq<bv8>, n: nat)
    requires |res| == |a| && n == Min(|a|, |b|)
    requires forall m :: 0 <= m < n ==> res[m] == a[m] & b[m]
    requires forall m :: n <= m < |res| ==> res[m] == 0
    ensures Members(res) == Members(a) * Members(b)
  {
    forall x: nat ensures InBytes(res, x) <==> x in Members(a) * Members(b) {
      MembersIff(a, x);
      MembersIff(b, x);
      AndBytesIff(res, a, b, n, x);
    }
    MembersExt(res, Members(a) * Members(b));
  }

  /** Two byte sequences whose shared prefix ANDs to zero share no member. */
  lemma AndZeroDisjoint(a: seq<bv8>, b: seq<bv8>, x: nat)
    requires forall m :: 0 <= m < Min(|a|, |b|) ==> a[m] & b[m] == 0
    ensures !(InBytes(a, x) && InBytes(b, x))
  {
    var m := x / 8;
    if m < |a| && m < |b| {
      AndBit(a[m], b[m], x % 8);
      ZeroByte(a[m] & b[m]);
    }
  }

  /** A nonzero AND at byte `k` yields a shared member. */
  lemma AndNonZeroShared(a: seq<bv8>, b: seq<bv8>, k: nat) returns (x: nat)
    requires k < |a| && k < |b| && a[k] & b[k] != 0
    ensures InBytes(a, x) && InBytes(b, x)
  {
    ZeroByte(a[k] & b[k]);
    var j: nat :| j < 8 && BitAt(a[k] & b[k], j);
    AndBit(a[k], b[k], j);
    PosBit(a, k, j);
    PosBit(b, k, j);
    x := 8 * k + j;
  }

  /** Range-for iterator over the members of a set: byte index `i`, bit index `j`. */
  class UintSetIterator {
    const bytes: seq<bv8>
    var i: nat
    var j: nat

    /** A position is a bit inside the bytes or the end position (size, 0). */
    ghost predicate Valid()
      reads this
    {
      (i < |bytes| && j < 8) || (i == |bytes| && j == 0)
    }

    constructor (bytes: seq<bv8>, i: nat, j: nat)
      ensures this.bytes == bytes && this.i == i && this.j == j
    {
      this.bytes, this.i, this.j := bytes, i, j;
    }

    /** `operator*`: the value at the current position. */
    function Get(): (v: nat)
      reads this
      requires Valid()
      ensures v == 8 * i + j && v <= 8 * |bytes|
      ensures v / 8 == i && v % 8 == j
    {
      8 * i + j
    }

    /** Iterator equality compares both indices. */
    predicate SameAs(other: UintSetIterator)
      reads this, other
    {
      i == other.i && j == other.j
    }

    /** `operator++`: move to the next set bit, or to the end position.  At the end
        position it stays put. */
    method Next()
      requires Valid()
      modifies this`i, this`j
      ensures Valid()
      ensures old(i) < |bytes| ==> FirstMemberFrom(bytes, old(8 * i + j) + 1, 8 * i + j)
      ensures old(i) >= |bytes| ==> i == old(i) && j == old(j)
    {
      var bs: seq<bv8>, ii: nat, jj: nat := bytes, i, j;
      ghost var start: nat := 8 * ii + jj + 1;
      while ii < |bs|
        invariant (ii < |bs| && jj < 8) || (ii == |bs| && jj == 0)
        invariant old(i) < |bs| ==> start <= 8 * ii + jj + 1 && NoMemberIn(bs, start, 8 * ii + jj + 1)
        invariant old(i) >= |bs| ==> ii == old(i) && jj == old(j)
        decreases 8 * |bs| - (8 * ii + jj)
      {
        ghost var p: nat := 8 * ii + jj;
        jj := jj + 1;
        if jj >= 8 {
          jj := 0;
          ii := ii + 1;
          if ii >= |bs| {
            break;
          }
        }
        assert 8 * ii + jj == p + 1;
        PosBit(bs, ii, jj);
        if BitAt(bs[ii], jj) {
          break;
        }
        NoMemberExtend(bs, start, p + 1);
      }
      i, j := ii, jj;
    }
  }

  class UintSet {
    var bytes: seq<bv8>
    ghost var Contents: set<nat>

    ghost predicate Valid()
      reads this
    {
      Contents == Members(bytes)
    }

    /** An empty set with no backing bytes. */
    constructor ()
      ensures Valid() && Contents == {} && bytes == []
    {
      bytes := [];
      Contents := {};
    }

    /** The initializer-list constructor: adds each value in turn. */
    constructor FromList(ints: seq<nat>)
      ensures Valid() && Contents == set x | x in ints
    {
      bytes := [];
      Contents := {};
      new;
      var k := 0;
      while k < |ints|
        invariant 0 <= k <= |ints|
        invariant Valid() && Contents == set x | x in ints[..k]
      {
        Add(ints[k]);
        assert ints[..k + 1] == ints[..k] + [ints[k]];
        k := k + 1;
      }
      assert ints[..k] == ints;
    }

    /** The copy constructor: same bytes, same members. */
    constructor Copy(other: UintSet)
      requires other.Valid()
      ensures Valid() && bytes == other.bytes && Contents == other.Contents
    {
      bytes := other.bytes;
      Contents := other.Contents;
    }

    /** `has(i)`: exact membership, false beyond the backing bytes. */
    function Has(i: nat): (r: bool)
      reads this
      requires Valid()
      ensures r <==> i in Contents
      ensures r ==> i / 8 < |bytes|
    {
      MembersIff(bytes, i);
      InBytes(bytes, i)
    }

    /** `capacity()`: every member is below it. */
    function Capacity(): (c: nat)
      reads this
      requires Valid()
      ensures c == 8 * |bytes|
      ensures forall x :: x in Contents ==> x < c
    {
      8 * |bytes|
    }

    /** `allocate(size)`: grow to `size` bytes, keeping the old bytes and zeroing the new. */
    method Allocate(size: nat)
      requires Valid()
      modifies this
      ensures Valid() && Contents == old(Contents)
      ensures bytes == if old(|bytes|) < size then old(bytes) + Zeros(size - old(|bytes|)) else old(bytes)
    {
      if |bytes| < size {
        ghost var before := bytes;
        bytes := bytes + Zeros(size - |bytes|);
        forall i: nat ensures InBytes(bytes, i) <==> i in Contents {
          PadIff(before, size - |before|, i);
          MembersIff(before, i);
        }
        MembersExt(bytes, Contents);
      }
    }

    /** `rshift(n)`: prepend `n` zero bytes, which raises every member by `8n`. */
    method RShift(n: nat)
      requires Valid()
      modifies this
      ensures Valid()
      ensures bytes == Zeros(n) + old(bytes)
      ensures Contents == Shifted(old(Contents), 8 * n)
    {
      ghost var before := bytes;
      bytes := Zeros(n) + bytes;
      Contents := Shifted(Contents, 8 * n);
      forall i: nat ensures InBytes(bytes, i) <==> i in Contents {
        PrependIff(before, n, i);
        ShiftedIff(old(Contents), 8 * n, i);
        if i >= 8 * n { MembersIff(before, i - 8 * n); }
      }
      MembersExt(bytes, Contents);
    }

    /** `add(i)`: grow to at least `i/8 + 1` bytes and set the bit. */
    method Add(i: nat)
      requires Valid()
      modifies this
      ensures Valid() && Contents == old(Contents) + {i}
      ensures |bytes| == Max(old(|bytes|), i / 8 + 1)
      ensures forall k :: 0 <= k < old(|bytes|) && k != i / 8 ==> bytes[k] == old(bytes[k])
      ensures forall k :: old(|bytes|) <= k < |bytes| && k != i / 8 ==> bytes[k] == 0
    {
      Allocate(i / 8 + 1);
      ghost var mid := bytes;
      bytes := bytes[i / 8 := bytes[i / 8] | Mask(i % 8)];
      Contents := Contents + {i};
      forall x: nat ensures InBytes(bytes, x) <==> x in Contents {
        MembersIff(mid, x);
        if x / 8 == i / 8 {
          SetBit(mid[i / 8], i % 8, x % 8);
          assert x == i <==> x % 8 == i % 8;
        }
      }
      MembersExt(bytes, Contents);
    }

    /** `remove(i)`: clear the bit; nothing happens past the backing bytes. */
    method Remove(i: nat)
      requires Valid()
      modifies this
      ensures Valid() && Contents == old(Contents) - {i}
      ensures |bytes| == old(|bytes|)
      ensures i / 8 >= |bytes| ==> bytes == old(bytes)
      ensures forall k :: 0 <= k < |bytes| && k != i / 8 ==> bytes[k] == old(bytes[k])
    {
      if i / 8 < |bytes| {
        ClearMembers(bytes, i);
        bytes := bytes[i / 8 := bytes[i / 8] & !Mask(i % 8)];
        Contents := Contents - {i};
      } else {
        MembersIff(bytes, i);
        Contents := Contents - {i};
      }
    }

    /** `empty()`: scans for a nonzero byte. */
    method IsEmpty() returns (r: bool)
      requires Valid()
      ensures r <==> Contents == {}
    {
      var k := 0;
      while k < |bytes|
        invariant 0 <= k <= |bytes|
        invariant forall m :: 0 <= m < k ==> bytes[m] == 0
      {
        if bytes[k] != 0 {
          var x := NonZeroByteHasMember(bytes, k);
          MembersIff(bytes, x);
          return false;
        }
        k := k + 1;
      }
      ZeroPrefixNoMember(bytes, |bytes|);
      forall x ensures x !in Contents {
        MembersIff(bytes, x);
      }
      return true;
    }

    /** `clear()`: zero every byte; the length stays. */
    method Clear()
      requires Valid()
      modifies this
      ensures Valid() && Contents == {} && bytes == Zeros(old(|bytes|))
    {
      bytes := Zeros(|bytes|);
      Contents := {};
      forall x: nat ensures !InBytes(bytes, x) {
        if x / 8 < |bytes| { ZeroByteNoMember(bytes, x / 8, x); }
      }
      MembersExt(bytes, Contents);
    }

    /** `pop(el)`: finds the first nonzero byte and, in it, the first set bit whose
        index is below the byte count; the set is not changed.  With at least eight
        bytes it reports exactly the smallest member. */
    method Pop() returns (found: bool, el: nat)
      requires Valid()
      ensures found ==> el in Contents
      ensures |bytes| >= 8 ==> (found <==> Contents != {})
      ensures |bytes| >= 8 && found ==> forall x :: x in Contents ==> el <= x
    {
      var i := 0;
      while i < |bytes|
        invariant 0 <= i <= |bytes|
        invariant |bytes| >= 8 ==> forall m :: 0 <= m < i ==> bytes[m] == 0
      {
        if bytes[i] != 0 {
          var j := 0;
          while j < |bytes|
            invariant 0 <= j <= |bytes|
            invariant forall m :: 0 <= m < j && m < 8 ==> !BitAt(bytes[i], m)
          {
            if j < 8 && BitAt(bytes[i], j) {
              el := 8 * i + j;
              assert InBytes(bytes, el);
              MembersIff(bytes, el);
              if |bytes| >= 8 {
                ZeroPrefixNoMember(bytes, i);
                forall x | x in Contents ensures el <= x {
                  MembersIff(bytes, x);
                }
              }
              return true, el;
            }
            j := j + 1;
          }
          if |bytes| >= 8 {
            ZeroByte(bytes[i]);
            assert false;
          }
        }
        i := i + 1;
      }
      if |bytes| >= 8 {
        ZeroPrefixNoMember(bytes, |bytes|);
        forall x ensures x !in Contents {
          MembersIff(bytes, x);
        }
      }
      return false, 0;
    }

    /** `intersect(other)`: true iff the two sets share a member. */
    method Intersect(other: UintSet) returns (r: bool)
      requires Valid() && other.Valid()
      ensures r <==> Contents * other.Contents != {}
    {
      var n := Min(|bytes|, |other.bytes|);
      var k := 0;
      while k < n
        invariant 0 <= k <= n
        invariant forall m :: 0 <= m < k ==> bytes[m] & other.bytes[m] == 0
      {
        if bytes[k] & other.bytes[k] != 0 {
          var x := AndNonZeroShared(bytes, other.bytes, k);
          MembersIff(bytes, x);
          MembersIff(other.bytes, x);
          assert x in Contents * other.Contents;
          return true;
        }
        k := k + 1;
      }
      forall x | x in Contents * other.Contents ensures false {
        MembersIff(bytes, x);
        MembersIff(other.bytes, x);
        AndZeroDisjoint(bytes, other.bytes, x);
      }
      return false;
    }

    /** `operator|=`: OR the other set's bytes in, after growing to the longer length. */
    method UnionWith(other: UintSet)
      requires Valid() && other.Valid()
      modifies this
      ensures Valid() && Contents == old(Contents) + old(other.Contents)
      ensures |bytes| == Max(old(|bytes|), old(|other.bytes|))
    {
      var ob := other.bytes;
      ghost var oc := other.Contents;
      assert oc == Members(ob);
      Allocate(Max(|bytes|, |ob|));
      ghost var grown := bytes;
      ghost var gc := Contents;
      assert gc == Members(grown);
      var k := 0;
      while k < |ob|
        invariant 0 <= k <= |ob| <= |bytes| == |grown|
        invariant forall m :: 0 <= m < k ==> bytes[m] == grown[m] | ob[m]
        invariant forall m :: k <= m < |bytes| ==> bytes[m] == grown[m]
      {
        bytes := bytes[k := bytes[k] | ob[k]];
        k := k + 1;
      }
      Contents := gc + oc;
      forall x: nat ensures InBytes(bytes, x) <==> x in gc + oc {
        MembersIff(grown, x);
        MembersIff(ob, x);
        OrBytesIff(bytes, grown, ob, x);
      }
      MembersExt(bytes, gc + oc);
    }

    /** `operator&=`: AND over the shared prefix, zero the rest of this set's bytes. */
    method IntersectWith(other: UintSet)
      requires Valid() && other.Valid()
      modifies this
      ensures Valid() && Contents == old(Contents) * old(other.Contents)
      ensures |bytes| == old(|bytes|)
    {
      var ob := other.bytes;
      ghost var oc := other.Contents;
      assert oc == Members(ob);
      ghost var bc := Contents;
      assert bc == Members(bytes);
      var bs := AndBytes(bytes, ob);
      AndBytesMembers(bs, bytes, ob, Min(|bytes|, |ob|));
      bytes := bs;
      Contents := bc * oc;
    }

    /** `end()`: the position one past the last byte. */
    method End() returns (it: UintSetIterator)
      ensures fresh(it) && it.Valid()
      ensures it.bytes == bytes && it.i == |bytes| && it.j == 0
    {
      it := new UintSetIterator(bytes, |bytes|, 0);
    }

    /** `begin()`: the position of the smallest member, or `end()` when empty. */
    method Begin() returns (it: UintSetIterator)
      ensures fresh(it) && it.Valid() && it.bytes == bytes
      ensures FirstMemberFrom(bytes, 0, it.Get())
    {
      var i := 0;
      while i < |bytes|
        invariant 0 <= i <= |bytes|
        invariant forall k: nat :: k < 8 * i ==> !InBytes(bytes, k)
      {
        var j := 0;
        while j < 8
          invariant 0 <= j <= 8
          invariant forall k: nat :: k < 8 * i + j ==> !InBytes(bytes, k)
        {
          if BitAt(bytes[i], j) {
            it := new UintSetIterator(bytes, i, j);
            assert InBytes(bytes, 8 * i + j);
            return;
          }
          assert !InBytes(bytes, 8 * i + j);
          j := j + 1;
        }
        i := i + 1;
      }
      it := End();
    }

    /** The range-for loop `for (x : set)`: walks `begin()` to `end()` and collects
        what it visits, which is every member once, in ascending order. */
    method Elements() returns (xs: seq<nat>)
      requires Valid()
      ensures forall a, b :: 0 <= a < b < |xs| ==> xs[a] < xs[b]
      ensures forall x :: x in xs <==> x in Contents
    {
      var bs := bytes;
      var it := Begin();
      var e := End();
      xs := [];
      ghost var pos: nat := 8 * it.i + it.j;
      while !it.SameAs(e)
        invariant fresh(it) && it.Valid() && it.bytes == bs
        invariant it != e && e.i == |bs| && e.j == 0
        invariant pos == 8 * it.i + it.j && Collected(bs, xs, pos)
        decreases 8 * |bs| - pos
      {
        ghost var xs0, p := xs, pos;
        assert it.i < |bs|;
        xs := xs + [it.Get()];
        assert xs == xs0 + [p];
        it.Next();
        pos := 8 * it.i + it.j;
        assert FirstMemberFrom(bs, p + 1, pos);
        CollectStep(bs, xs0, p, pos);
      }
      CollectDone(bs, xs);
    }

    /** `operator==`: the shared prefix must agree and the longer side's excess bytes
        must all be zero, so backing lengths do not matter. */
    method Equals(other: UintSet) returns (r: bool)
      requires Valid() && other.Valid()
      ensures r <==> Contents == other.Contents
    {
      if |bytes| >= |other.bytes| {
        var n := |other.bytes|;
        var tail := NonZero(bytes[n..]);
        r := bytes[..n] == other.bytes && !tail;
        EqualsCase(bytes, other.bytes, r);
      } else {
        var n := |bytes|;
        var tail := NonZero(other.bytes[n..]);
        r := bytes == other.bytes[..n] && !tail;
        EqualsCase(other.bytes, bytes, r);
      }
      MembersIff(bytes, 0);
      if r {
        forall x: nat ensures x in Contents <==> x in other.Contents {
          MembersIff(bytes, x);
          MembersIff(other.bytes, x);
        }
      } else {
        var x :| InBytes(bytes, x) != InBytes(other.bytes, x);
        MembersIff(bytes, x);
        MembersIff(other.bytes, x);
      }
    }
  }

  /** The byte loops of `operator&=`: AND over the shared prefix, then zero the
      rest of `a`. */
  method AndBytes(a: seq<bv8>, b: seq<bv8>) returns (r: seq<bv8>)
    ensures |r| == |a|
    ensures forall m :: 0 <= m < Min(|a|, |b|) ==> r[m] == a[m] & b[m]
    ensures forall m :: Min(|a|, |b|) <= m < |r| ==> r[m] == 0
  {
    var n := Min(|a|, |b|);
    r := AndPrefix(a, b, n);
    r := ZeroTail(r, n);
  }

  /** The first loop of `operator&=`: AND the first `n` bytes. */
  method AndPrefix(a: seq<bv8>, b: seq<bv8>, n: nat) returns (r: seq<bv8>)
    requires n <= |a| && n <= |b|
    ensures |r| == |a|
    ensures forall m :: 0 <= m < n ==> r[m] == a[m] & b[m]
    ensures forall m :: n <= m < |r| ==> r[m] == a[m]
  {
    r := a;
    for k := 0 to n
      invariant |r| == |a|
      invariant forall m :: 0 <= m < k ==> r[m] == a[m] & b[m]
      invariant forall m :: k <= m < |r| ==> r[m] == a[m]
    {
      r := r[k := r[k] & b[k]];
    }
  }

  /** The second loop of `operator&=`: zero every byte from `n` on. */
  method ZeroTail(a: seq<bv8>, n: nat) returns (r: seq<bv8>)
    requires n <= |a|
    ensures |r| == |a|
    ensures forall m :: 0 <= m < n ==> r[m] == a[m]
    ensures forall m :: n <= m < |r| ==> r[m] == 0
  {
    r := a;
    for k := n to |a|
      invariant |r| == |a|
      invariant forall m :: 0 <= m < k ==> r[m] == (if m < n then a[m] else 0)
      invariant forall m :: k <= m < |r| ==> r[m] == a[m]
    {
      r := r[k := 0];
    }
  }

  /** `nonzero(first, last)`: some byte of the range is nonzero. */
  method NonZero(s: seq<bv8>) returns (r: bool)
    ensures r <==> exists k :: 0 <= k < |s| && s[k] != 0
  {
    var k := 0;
    while k < |s|
      invariant 0 <= k <= |s|
      invariant forall m :: 0 <= m < k ==> s[m] == 0
    {
      if s[k] != 0 {
        return true;
      }
      k := k + 1;
    }
    return false;
  }

  /** The comparison `operator==` performs, for `long` at least as long as `short`,
      decides equality of the encoded members. */
  lemma EqualsCase(long: seq<bv8>, short: seq<bv8>, r: bool)
    requires |long| >= |short|
    requires r == (long[..|short|] == short && !(exists k :: 0 <= k < |long[|short|..]| && long[|short|..][k] != 0))
    ensures r <==> forall x: nat :: InBytes(long, x) <==> InBytes(short, x)
  {
    var n := |short|;
    if r {
      forall x: nat ensures InBytes(long, x) <==> InBytes(short, x) {
        if x / 8 >= n && x / 8 < |long| {
          assert long[|short|..][x / 8 - n] == long[x / 8];
          ZeroByteNoMember(long, x / 8, x);
        } else if x / 8 < n {
          assert long[x / 8] == short[x / 8];
        }
      }
    } else if long[..n] != short {
      var k :| 0 <= k < n && long[k] != short[k];
      var j := BytesDiffer(long[k], short[k]);
      PosBit(long, k, j);
      PosBit(short, k, j);
    } else {
      var k :| 0 <= k < |long[n..]| && long[n..][k] != 0;
      var x := NonZeroByteHasMember(long, n + k);
      assert !InBytes(short, x);
    }
  }

  /** Two different bytes differ in some bit. */
  lemma BytesDiffer(b: bv8, c: bv8) returns (j: nat)
    requires b != c
    ensures j < 8 && BitAt(b, j) != BitAt(c, j)
  {
    if forall k: nat :: k < 8 ==> BitAt(b, k) == BitAt(c, k) {
      BitsEqual(b, c);
      assert false;
    }
    j :| j < 8 && BitAt(b, j) != BitAt(c, j);
  }

  /** Bytes that agree on all eight bits are equal. */
  lemma BitsEqual(b: bv8, c: bv8)
    requires forall k: nat :: k < 8 ==> BitAt(b, k) == BitAt(c, k)
    ensures b == c
  {
    assert BitAt(b, 0) == BitAt(c, 0) && BitAt(b, 1) == BitAt(c, 1);
    assert BitAt(b, 2) == BitAt(c, 2) && BitAt(b, 3) == BitAt(c, 3);
    assert BitAt(b, 4) == BitAt(c, 4) && BitAt(b, 5) == BitAt(c, 5);
    assert BitAt(b, 6) == BitAt(c, 6) && BitAt(b, 7) == BitAt(c, 7);
  }

  /** Position `8i + j` is bit `j` of byte `i`. */
  lemma PosBit(bytes: seq<bv8>, i: nat, j: nat)
    requires j < 8
    ensures (8 * i + j) / 8 == i && (8 * i + j) % 8 == j
    ensures InBytes(bytes, 8 * i + j) == (i < |bytes| && BitAt(bytes[i], j))
  {}

  /** `operator|`: a fresh set holding the union; both operands unchanged. */
  method Union(lhs: UintSet, rhs: UintSet) returns (r: UintSet)
    requires lhs.Valid() && rhs.Valid()
    ensures fresh(r) && r.Valid() && r.Contents == lhs.Contents + rhs.Contents
  {
    r := new UintSet.Copy(lhs);
    r.UnionWith(rhs);
  }

  /** `operator&`: a fresh set holding the intersection; both operands unchanged. */
  method Intersection(lhs: UintSet, rhs: UintSet) returns (r: UintSet)
    requires lhs.Valid() && rhs.Valid()
    ensures fresh(r) && r.Valid() && r.Contents == lhs.Contents * rhs.Contents
  {
    r := new UintSet.Copy(lhs);
    r.IntersectWith(rhs);
  }
}
