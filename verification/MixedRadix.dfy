/** Row-major mixed-radix numbers: the arithmetic shared by the layout walk and
    the permute kernel.  Position 0 is the most significant one. */
module MixedRadix {

  function Product(e: seq<nat>): nat {
    if e == [] then 1 else e[0] * Product(e[1..])
  }

  ghost predicate Positive(e: seq<nat>) {
    forall i | 0 <= i < |e| :: 0 < e[i]
  }

  /** `c` is a digit vector of the radices `e`. */
  ghost predicate InRange(c: seq<nat>, e: seq<nat>) {
    |c| == |e| && forall i | 0 <= i < |e| :: c[i] < e[i]
  }

  /** The number a digit vector denotes (digits may overflow their radix). */
  function Value(e: seq<nat>, c: seq<nat>): nat
    requires |c| == |e|
  {
    if e == [] then 0 else c[0] * Product(e[1..]) + Value(e[1..], c[1..])
  }

  lemma {:induction false} ProductPositive(e: seq<nat>)
    requires Positive(e)
    ensures 0 < Product(e)
  {
    if e != [] {
      ProductPositive(e[1..]);
    }
  }

  lemma {:induction false} ValueBound(e: seq<nat>, c: seq<nat>)
    requires InRange(c, e)
    ensures Value(e, c) < Product(e)
  {
    if e != [] {
      ValueBound(e[1..], c[1..]);
      var p := Product(e[1..]);
      Scale(c[0] + 1, e[0], p);
      Distribute(c[0], 1, p);
    }
  }

  /** The digits of `d`; the inverse of `Value` below `Product(e)`. */
  ghost function Digits(e: seq<nat>, d: nat): (c: seq<nat>)
    requires Positive(e) && d < Product(e)
    ensures InRange(c, e)
    ensures Value(e, c) == d
  {
    if e == [] then []
    else
      ProductPositive(e[1..]);
      var p := Product(e[1..]);
      QuotientBound(d, e[0], p);
      ConsDigit(e, d / p, Digits(e[1..], d % p));
      [d / p] + Digits(e[1..], d % p)
  }

  lemma ConsDigit(e: seq<nat>, q: nat, c: seq<nat>)
    requires e != [] && q < e[0] && InRange(c, e[1..])
    ensures InRange([q] + c, e)
    ensures Value(e, [q] + c) == q * Product(e[1..]) + Value(e[1..], c)
  {
    assert ([q] + c)[1..] == c;
  }

  lemma Scale(a: nat, b: nat, p: nat)
    ensures a <= b ==> a * p <= b * p
  {
  }

  lemma Associate(x: nat, y: nat, z: nat)
    ensures x * (y * z) == x * y * z
  {
  }

  lemma Distribute(a: int, b: int, p: int)
    ensures (a + b) * p == a * p + b * p
  {
  }

  lemma QuotientBound(d: nat, n: nat, p: nat)
    requires 0 < p && d < n * p
    ensures d / p < n
    ensures d == d / p * p + d % p
  {
    Scale(n, d / p, p);
  }

  lemma QuotientUnique(a: nat, b: nat, r: nat, s: nat, p: nat)
    requires r < p && s < p
    requires a * p + r == b * p + s
    ensures a == b && r == s
  {
    Scale(a + 1, b, p);
    Scale(b + 1, a, p);
    Distribute(a, 1, p);
    Distribute(b, 1, p);
  }

  /** Two digit vectors that denote the same number are the same vector. */
  lemma {:induction false} ValueInjective(e: seq<nat>, b: seq<nat>, c: seq<nat>)
    requires InRange(b, e) && InRange(c, e)
    requires Value(e, b) == Value(e, c)
    ensures b == c
  {
    if e != [] {
      ValueBound(e[1..], b[1..]);
      ValueBound(e[1..], c[1..]);
      QuotientUnique(b[0], c[0], Value(e[1..], b[1..]), Value(e[1..], c[1..]), Product(e[1..]));
      ValueInjective(e[1..], b[1..], c[1..]);
      assert b == [b[0]] + b[1..] && c == [c[0]] + c[1..];
    }
  }

  /** Changing one digit moves the value by that position's weight. */
  lemma {:induction false} ValueUpdate(e: seq<nat>, c: seq<nat>, i: nat, v: nat)
    requires |c| == |e| && i < |e|
    ensures Value(e, c[i := v]) + c[i] * Product(e[i + 1..]) == Value(e, c) + v * Product(e[i + 1..])
  {
    if i == 0 {
      assert c[0 := v][1..] == c[1..];
    } else {
      assert c[i := v][1..] == c[1..][i - 1 := v];
      assert e[1..][i..] == e[i + 1..];
      ValueUpdate(e[1..], c[1..], i - 1, v);
    }
  }

  lemma {:induction false} ProductAppend(a: seq<nat>, b: seq<nat>)
    ensures Product(a + b) == Product(a) * Product(b)
  {
    if a == [] {
      assert a + b == b;
    } else {
      assert (a + b)[1..] == a[1..] + b;
      ProductAppend(a[1..], b);
      assert a[0] * (Product(a[1..]) * Product(b)) == a[0] * Product(a[1..]) * Product(b);
    }
  }

  lemma ProductSplit(e: seq<nat>, i: nat)
    requires i <= |e|
    ensures Product(e) == Product(e[..i]) * Product(e[i..])
    ensures i < |e| ==> Product(e[i..]) == e[i] * Product(e[i + 1..])
  {
    assert e == e[..i] + e[i..];
    ProductAppend(e[..i], e[i..]);
    if i < |e| {
      assert e[i..][1..] == e[i + 1..];
    }
  }

  // --- permutations -----------------------------------------------------------

  ghost predicate IsPermutation(p: seq<nat>) {
    && (forall i | 0 <= i < |p| :: p[i] < |p|)
    && (forall i, j | 0 <= i < j < |p| :: p[i] != p[j])
  }

  function Gather<T>(p: seq<nat>, x: seq<T>): (y: seq<T>)
    requires |x| == |p| && forall i | 0 <= i < |p| :: p[i] < |p|
    ensures |y| == |p| && forall i | 0 <= i < |p| :: y[i] == x[p[i]]
  {
    seq(|p|, i requires 0 <= i < |p| => x[p[i]])
  }

  function Below(n: nat): (s: set<nat>)
    ensures forall i: nat :: i in s <==> i < n
    ensures |s| == n
  {
    if n == 0 then {} else Below(n - 1) + {n - 1}
  }

  lemma {:induction false} DistinctCardinality<T>(p: seq<T>)
    requires forall i, j | 0 <= i < j < |p| :: p[i] != p[j]
    ensures |set x | x in p| == |p|
  {
    if p == [] {
      assert (set x | x in p) == {};
    } else {
      var q := p[..|p| - 1];
      var last := p[|p| - 1];
      DistinctCardinality(q);
      assert p == q + [last];
      assert last !in q;
      assert (set x | x in p) == (set x | x in q) + {last};
    }
  }

  lemma {:induction false} SubsetCardinality<T>(a: set<T>, b: set<T>)
    requires a <= b
    ensures |a| <= |b|
    ensures |a| == |b| ==> a == b
  {
    if a != {} {
      var x :| x in a;
      SubsetCardinality(a - {x}, b - {x});
      assert a == a - {x} + {x} && b == b - {x} + {x};
    }
  }

  /** The pigeonhole step: n distinct numbers below n are all of them. */
  lemma PermutationOnto(p: seq<nat>, j: nat)
    requires IsPermutation(p) && j < |p|
    ensures exists i :: 0 <= i < |p| && p[i] == j
  {
    DistinctCardinality(p);
    var image := set x | x in p;
    SubsetCardinality(image, Below(|p|));
    assert j in image;
  }

  ghost function IndexOf(p: seq<nat>, j: nat): (i: nat)
    requires IsPermutation(p) && j < |p|
    ensures i < |p| && p[i] == j
  {
    PermutationOnto(p, j);
    var i :| 0 <= i < |p| && p[i] == j;
    i
  }

  ghost function Inverse(p: seq<nat>): (q: seq<nat>)
    requires IsPermutation(p)
    ensures |q| == |p| && IsPermutation(q)
    ensures forall j | 0 <= j < |p| :: p[q[j]] == j
    ensures forall i | 0 <= i < |p| :: q[p[i]] == i
  {
    seq(|p|, j requires 0 <= j < |p| => IndexOf(p, j))
  }

  lemma GatherInverse<T>(p: seq<nat>, x: seq<T>)
    requires IsPermutation(p) && |x| == |p|
    ensures Gather(Inverse(p), Gather(p, x)) == x
    ensures Gather(p, Gather(Inverse(p), x)) == x
  {
  }

  lemma InverseInverse(p: seq<nat>)
    requires IsPermutation(p)
    ensures Inverse(Inverse(p)) == p
  {
    var q := Inverse(p);
    forall i | 0 <= i < |p| ensures Inverse(q)[i] == p[i] {
      assert q[Inverse(q)[i]] == i == q[p[i]];
    }
  }

  lemma GatherInRange(p: seq<nat>, c: seq<nat>, e: seq<nat>)
    requires IsPermutation(p) && InRange(c, e) && |e| == |p|
    ensures InRange(Gather(p, c), Gather(p, e))
  {
  }

  lemma Swap(x: nat, y: nat, z: nat)
    ensures x * (y * z) == y * (x * z)
  {
    assert x * y * z == y * x * z;
  }

  lemma ProductRemove(e: seq<nat>, i: nat)
    requires i < |e|
    ensures Product(e) == e[i] * Product(e[..i] + e[i + 1..])
  {
    ProductSplit(e, i);
    ProductAppend(e[..i], e[i + 1..]);
    Swap(Product(e[..i]), e[i], Product(e[i + 1..]));
  }

  /** Reordering factors keeps their product. */
  lemma {:induction false} ProductGather(p: seq<nat>, e: seq<nat>)
    requires IsPermutation(p) && |e| == |p|
    ensures Product(Gather(p, e)) == Product(e)
  {
    if p != [] {
      var n := |p| - 1;
      var k := IndexOf(p, n);
      var q := p[..k] + p[k + 1..];
      var g := Gather(p, e);
      assert forall i | 0 <= i < n :: q[i] < n by {
        forall i | 0 <= i < n ensures q[i] < n {
          assert q[i] == p[if i < k then i else i + 1];
        }
      }
      assert IsPermutation(q);
      ProductGather(q, e[..n]);
      assert g[..k] + g[k + 1..] == Gather(q, e[..n]);
      ProductRemove(g, k);
      ProductRemove(e, n);
      assert e[..n] + e[n + 1..] == e[..n];
    }
  }

  // --- strides and zeros -----------------------------------------------------------------

  ghost predicate RowMajor(shape: seq<nat>, strides: seq<nat>) {
    |strides| == |shape| && forall a | 0 <= a < |shape| :: strides[a] == Product(shape[a + 1..])
  }

  method RowMajorStrides(dims: seq<nat>) returns (strides: seq<nat>)
    ensures RowMajor(dims, strides)
  {
    strides := seq(|dims|, _ => 1);
    if dims == [] {
      return;
    }
    var n := |dims| - 1;
    assert dims[n + 1..] == [];
    for axis := n downto 0
      invariant |strides| == |dims|
      invariant forall a | axis <= a < |dims| :: strides[a] == Product(dims[a + 1..])
    {
      assert dims[axis + 1..][1..] == dims[axis + 2..];
      strides := strides[axis := strides[axis + 1] * dims[axis + 1]];
    }
  }

  lemma {:induction false} ZeroValue(e: seq<nat>, c: seq<nat>)
    requires |c| == |e| && forall j | 0 <= j < |c| :: c[j] == 0
    ensures Value(e, c) == 0
  {
    if e != [] {
      ZeroValue(e[1..], c[1..]);
    }
  }
}
