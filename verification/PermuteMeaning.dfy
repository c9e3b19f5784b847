/** What the permute kernel's transforms do to a tensor, element by element, and which dimensions
    a declared view comes to. */
module PermuteMeaning {
  import opened Wrappers
  import opened MixedRadix
  import opened PermuteKernel
  import opened LayoutShapes

  // --- where the elements go -------------------------------------------------------

  /** Element `d` of `to` is element `s` of `from`. */
  ghost predicate SameElement(from: seq<byte>, s: nat, to: seq<byte>, d: nat, e: nat) {
    s * e + e <= |from| && d * e + e <= |to| && to[d * e..d * e + e] == from[s * e..s * e + e]
  }

  /** The element at view coordinates `x` goes to the coordinates `x` read in the order of `axes`. */
  lemma ElementGoes(input: seq<byte>, e: nat, dims: seq<nat>, axes: seq<nat>, x: seq<nat>)
    requires Positive(dims) && IsPermutation(axes) && |axes| == |dims| && |input| == Product(dims) * e && InRange(x, dims)
    ensures SameElement(input, Value(dims, x), Permuted(input, e, dims, axes),
                        Value(Gather(axes, dims), Gather(axes, x)), e)
  {
    hide Origin, Value, Product, Permuted;
    var s, d := Value(dims, x), Value(Gather(axes, dims), Gather(axes, x));
    GatherInRange(axes, x, dims);
    OriginAt(dims, axes, Gather(axes, x));
    GatherInverse(axes, x);
    ValueBound(dims, x);
    ElementLands(input, e, dims, axes, s, d);
  }

  lemma ElementLands(input: seq<byte>, e: nat, dims: seq<nat>, axes: seq<nat>, s: nat, d: nat)
    requires Positive(dims) && IsPermutation(axes) && |axes| == |dims| && |input| == Product(dims) * e
    requires d < Product(dims) && Origin(dims, axes, d) == s
    ensures SameElement(input, s, Permuted(input, e, dims, axes), d, e)
  {
    hide Origin, Value, Product, Permuted, Positive, IsPermutation;
    var output := Permuted(input, e, dims, axes);
    ElementEnds(input, s, Product(dims), e);
    ElementEnds(output, d, Product(dims), e);
    var there, here := output[d * e..d * e + e], input[s * e..s * e + e];
    forall b | 0 <= b < e ensures there[b] == here[b] {
      PermutedAt(input, e, dims, axes, d, b);
    }
  }

  lemma ElementEnds(bytes: seq<byte>, s: nat, n: nat, e: nat)
    requires s < n && |bytes| == n * e
    ensures s * e + e <= |bytes|
  {
    Scale(s + 1, n, e);
    Distribute(s, 1, e);
  }

  /** The forward transform takes the element at coordinates `x` of the view to coordinates
      `Gather(axes, x)` of the permuted view; the inverse transform takes it back from there. */
  lemma TransformMoves(permute: Permute, bytes: seq<byte>, e: nat, shape: seq<nat>, x: seq<nat>)
    requires permute.Valid() && |bytes| == Product(shape) * e
    requires ViewDims(permute.view, shape).Some? && InRange(x, ViewDims(permute.view, shape).value)
    ensures var dims := ViewDims(permute.view, shape).value;
      var s, d := Value(dims, x), Value(Gather(permute.axes, dims), Gather(permute.axes, x));
      var forward, back := Transformed(Forward(permute), bytes, e, shape), Transformed(Undo(permute), bytes, e, shape);
      && forward.Moved? && SameElement(bytes, s, forward.bytes, d, e)
      && back.Moved? && SameElement(bytes, d, back.bytes, s, e)
  {
    hide Product, Permuted, ViewDims, SameElement, Value;
    var dims, axes := ViewDims(permute.view, shape).value, permute.axes;
    ViewFactorsTensor(permute.view, shape);
    ValueBound(dims, x);
    ElementGoes(bytes, e, dims, axes, x);
    PositiveGather(axes, dims);
    ProductGather(axes, dims);
    GatherInRange(axes, x, dims);
    GatherInverse(axes, x);
    GatherInverse(axes, dims);
    ElementGoes(bytes, e, Gather(axes, dims), Inverse(axes), Gather(axes, x));
  }

  /** In plain arithmetic: the axes [1, 2, 0] take the element (i, j, k) of an a x b x c view to
      (j, k, i) of a b x c x a one, and back. */
  lemma TurnedTransform(permute: Permute, bytes: seq<byte>, e: nat, shape: seq<nat>, x: seq<nat>)
    requires permute.Valid() && permute.axes == [1, 2, 0] && |bytes| == Product(shape) * e
    requires ViewDims(permute.view, shape).Some? && InRange(x, ViewDims(permute.view, shape).value) && |x| == 3
    ensures var dims := ViewDims(permute.view, shape).value;
      var s, d := Row(dims[1], dims[2], x[0], x[1], x[2]), Row(dims[2], dims[0], x[1], x[2], x[0]);
      var forward, back := Transformed(Forward(permute), bytes, e, shape), Transformed(Undo(permute), bytes, e, shape);
      && forward.Moved? && SameElement(bytes, s, forward.bytes, d, e)
      && back.Moved? && SameElement(bytes, d, back.bytes, s, e)
  {
    hide Product, Transformed, ViewDims, SameElement, Value;
    var dims, axes := ViewDims(permute.view, shape).value, permute.axes;
    TransformMoves(permute, bytes, e, shape, x);
    assert dims == [dims[0], dims[1], dims[2]] && x == [x[0], x[1], x[2]];
    Value3(dims[0], dims[1], dims[2], x[0], x[1], x[2]);
    assert Gather(axes, dims) == [dims[1], dims[2], dims[0]] && Gather(axes, x) == [x[1], x[2], x[0]];
    Value3(dims[1], dims[2], dims[0], x[1], x[2], x[0]);
  }

  // --- what a view comes to ------------------------------------------------------------

  /** One dimension agrees with its declaration: the literal, or the named axis divided exactly. */
  ghost predicate Agrees(dim: Dim, shape: seq<nat>, value: nat) {
    match dim
    case Literal(v) => value == v && v > 0
    case Axis(axis, divisor) => axis < |shape| && value > 0 && divisor > 0 && value * divisor == shape[axis]
    case Auto => true
  }

  /** The dimensions with the inferred one left out of the product. */
  ghost function Declared(view: seq<Dim>, dims: seq<nat>): (v: seq<nat>)
    requires |dims| == |view|
    ensures |v| == |dims| && forall i | 0 <= i < |v| :: v[i] == if view[i].Auto? then 1 else dims[i]
  {
    seq(|dims|, i requires 0 <= i < |dims| => if view[i].Auto? then 1 else dims[i])
  }

  /** `dims` agree with the view, at most one of them is inferred, they multiply to the tensor, and
      neither running product leaves 64 bits. */
  ghost predicate Fits(view: seq<Dim>, shape: seq<nat>, dims: seq<nat>) {
    && |dims| == |view|
    && (forall i | 0 <= i < |view| :: Agrees(view[i], shape, dims[i]))
    && (forall i, j | 0 <= i < j < |view| :: !(view[i].Auto? && view[j].Auto?))
    && Product(dims) == Product(shape)
    && (forall k | 0 < k <= |shape| :: Product(shape[..k]) < 18_446_744_073_709_551_616)
    && (forall k | 0 < k <= |dims| :: Product(Declared(view, dims)[..k]) < 18_446_744_073_709_551_616)
  }

  lemma Divides(n: nat, d: nat, q: nat)
    requires d > 0
    ensures q * d == n <==> n % d == 0 && n / d == q
  {
    if q * d == n {
      QuotientUnique(n / d, q, n % d, 0, d);
    }
  }

  lemma AgreesIff(dim: Dim, shape: seq<nat>, value: nat)
    ensures Agrees(dim, shape, value) <==> dim.Auto? || (value > 0 && DimValue(dim, shape) == Some(value))
  {
    if dim.Axis? && dim.axis < |shape| && dim.divisor > 0 {
      Divides(shape[dim.axis], dim.divisor, value);
    }
  }

  /** A view resolves to exactly the dimensions that fit it. */
  lemma ResolvesIff(view: seq<Dim>, shape: seq<nat>, dims: seq<nat>)
    ensures ViewDims(view, shape) == Some(dims) <==> Fits(view, shape, dims)
  {
    hide Product, DimValue;
    if ViewDims(view, shape) == Some(dims) { ResolvedFits(view, shape, dims); }
    if Fits(view, shape, dims) { FittingResolves(view, shape, dims); }
  }

  lemma ResolvedFits(view: seq<Dim>, shape: seq<nat>, dims: seq<nat>)
    requires ViewDims(view, shape) == Some(dims)
    ensures Fits(view, shape, dims)
  {
    hide Product, Agrees;
    var values := Values(view, shape);
    ViewFactorsTensor(view, shape);
    assert forall i | 0 <= i < |view| && !view[i].Auto? :: dims[i] == values[i];
    assert Declared(view, dims) == values;
    forall i | 0 <= i < |view| ensures Agrees(view[i], shape, dims[i]) {
      AgreesIff(view[i], shape, dims[i]);
    }
  }

  lemma FittingValues(view: seq<Dim>, shape: seq<nat>, dims: seq<nat>)
    requires Fits(view, shape, dims)
    ensures Usable(view, shape) && Values(view, shape) == Declared(view, dims)
  {
    hide Product, Agrees;
    forall i | 0 <= i < |view| ensures DimValue(view[i], shape) == Some(Declared(view, dims)[i]) && Declared(view, dims)[i] > 0 {
      if !view[i].Auto? { AgreesIff(view[i], shape, dims[i]); }
    }
  }

  lemma FittingResolves(view: seq<Dim>, shape: seq<nat>, dims: seq<nat>)
    requires Fits(view, shape, dims)
    ensures ViewDims(view, shape) == Some(dims)
  {
    hide Product, DimValue, Agrees;
    FittingValues(view, shape, dims);
    var values := Values(view, shape);
    ProductPositive(values);
    if Auto !in view {
      assert dims == values;
    } else {
      var i :| 0 <= i < |view| && view[i] == Auto;
      OneAuto(view, shape);
      assert dims == values[i := dims[i]];
      ReplaceFactor(values, i, dims[i]);
      Divides(Product(shape), Product(values), dims[i]);
    }
  }
}
