/** The generalized permute: reshape to a view, permute its axes, reshape back.
    A pure index remap of fixed-size elements, and exactly invertible. */
module PermuteKernel {
  import opened Wrappers
  import opened MixedRadix
  import opened LayoutBytes
  import opened Buffers

  // --- the element-wise meaning --------------------------------------------------

  /** The source element output element `d` reads: output axis `t` is source axis
      `axes[t]`, both sides row-major. */
  ghost function Origin(dims: seq<nat>, axes: seq<nat>, d: nat): (s: nat)
    requires Positive(dims) && IsPermutation(axes) && |axes| == |dims| && d < Product(dims)
    ensures s < Product(dims)
  {
    ProductGather(axes, dims);
    var c := Digits(Gather(axes, dims), d);
    Scattered(dims, axes, c);
    ValueBound(dims, Gather(Inverse(axes), c));
    Value(dims, Gather(Inverse(axes), c))
  }

  lemma Scattered(dims: seq<nat>, axes: seq<nat>, c: seq<nat>)
    requires IsPermutation(axes) && |axes| == |dims| && InRange(c, Gather(axes, dims))
    ensures InRange(Gather(Inverse(axes), c), dims)
  {
    var q := Inverse(axes);
    forall j | 0 <= j < |dims| ensures Gather(q, c)[j] < dims[j] {
      assert c[q[j]] < Gather(axes, dims)[q[j]] == dims[axes[q[j]]];
    }
  }

  ghost function PermutedByte(input: seq<byte>, e: nat, dims: seq<nat>, axes: seq<nat>, i: nat): byte
    requires Positive(dims) && IsPermutation(axes) && |axes| == |dims|
    requires |input| == Product(dims) * e && i < |input|
  {
    ByteIndex(i, Product(dims), e);
    ElementByte(input, e, Product(dims), Some(Origin(dims, axes, i / e)), i % e)
  }

  ghost function Permuted(input: seq<byte>, e: nat, dims: seq<nat>, axes: seq<nat>): (r: seq<byte>)
    requires Positive(dims) && IsPermutation(axes) && |axes| == |dims| && |input| == Product(dims) * e
    ensures |r| == |input| && forall i | 0 <= i < |r| :: r[i] == PermutedByte(input, e, dims, axes, i)
  {
    seq(|input|, i requires 0 <= i < |input| => PermutedByte(input, e, dims, axes, i))
  }

  /** Permuting the permuted view by the inverse axes reads every element back
      from where it went. */
  lemma OriginInverse(dims: seq<nat>, axes: seq<nat>, d: nat)
    requires Positive(dims) && IsPermutation(axes) && |axes| == |dims| && d < Product(dims)
    ensures Positive(Gather(axes, dims)) && Product(Gather(axes, dims)) == Product(dims)
    ensures Origin(dims, axes, Origin(Gather(axes, dims), Inverse(axes), d)) == d
  {
    hide Origin, Value, Product, Gather, Inverse;
    ProductGather(axes, dims);
    PositiveGather(axes, dims);
    var q := Inverse(axes);
    InverseInverse(axes);
    GatherInverse(axes, dims);
    var x := Digits(dims, d);
    GatherInRange(axes, x, dims);
    GatherInverse(axes, x);
    OriginAt(Gather(axes, dims), q, x);
    OriginAt(dims, axes, Gather(axes, x));
  }

  lemma PositiveGather(axes: seq<nat>, dims: seq<nat>)
    requires Positive(dims) && IsPermutation(axes) && |axes| == |dims|
    ensures Positive(Gather(axes, dims))
  {
  }

  lemma OriginAt(dims: seq<nat>, axes: seq<nat>, c: seq<nat>)
    requires Positive(dims) && IsPermutation(axes) && |axes| == |dims| && InRange(c, Gather(axes, dims))
    ensures Value(Gather(axes, dims), c) < Product(dims)
    ensures Origin(dims, axes, Value(Gather(axes, dims), c)) == Value(dims, Gather(Inverse(axes), c))
  {
    hide Value, Product, Gather, Inverse;
    ProductGather(axes, dims);
    PositiveGather(axes, dims);
    ValueBound(Gather(axes, dims), c);
    ValueInjective(Gather(axes, dims), Digits(Gather(axes, dims), Value(Gather(axes, dims), c)), c);
  }

  lemma PermuteRoundTrip(input: seq<byte>, e: nat, dims: seq<nat>, axes: seq<nat>)
    requires Positive(dims) && IsPermutation(axes) && |axes| == |dims| && |input| == Product(dims) * e
    ensures Positive(Gather(axes, dims)) && Product(Gather(axes, dims)) == Product(dims)
    ensures Permuted(Permuted(input, e, dims, axes), e, Gather(axes, dims), Inverse(axes)) == input
  {
    hide Origin, PermutedByte, Product;
    ProductGather(axes, dims);
    var moved := Permuted(input, e, dims, axes);
    var outDims, q := Gather(axes, dims), Inverse(axes);
    var back := Permuted(moved, e, outDims, q);
    forall i | 0 <= i < |input| ensures back[i] == input[i] {
      var d, b := SplitIndex(i, Product(dims), e);
      ByteComesBack(input, e, dims, axes, d, b);
    }
  }

  lemma PermutedAt(input: seq<byte>, e: nat, dims: seq<nat>, axes: seq<nat>, d: nat, b: nat)
    requires Positive(dims) && IsPermutation(axes) && |axes| == |dims| && |input| == Product(dims) * e
    requires d < Product(dims) && b < e
    ensures d * e + b < |input|
    ensures Permuted(input, e, dims, axes)[d * e + b] == ElementByte(input, e, Product(dims), Some(Origin(dims, axes, d)), b)
  {
    hide Origin, ElementByte, Product;
    ByteBound(d, Product(dims), e, b);
    ByteSplit(d, e, b);
    assert Permuted(input, e, dims, axes)[d * e + b] == PermutedByte(input, e, dims, axes, d * e + b);
  }

  lemma ByteComesBack(input: seq<byte>, e: nat, dims: seq<nat>, axes: seq<nat>, d: nat, b: nat)
    requires Positive(dims) && IsPermutation(axes) && |axes| == |dims| && |input| == Product(dims) * e
    requires d < Product(dims) && b < e
    ensures Positive(Gather(axes, dims)) && Product(Gather(axes, dims)) == Product(dims)
    ensures d * e + b < |input|
    ensures Permuted(Permuted(input, e, dims, axes), e, Gather(axes, dims), Inverse(axes))[d * e + b] == input[d * e + b]
  {
    hide Origin, Permuted, Product;
    OriginInverse(dims, axes, d);
    var s := Origin(Gather(axes, dims), Inverse(axes), d);
    PermutedAt(Permuted(input, e, dims, axes), e, Gather(axes, dims), Inverse(axes), d, b);
    PermutedAt(input, e, dims, axes, s, b);
  }

  // --- the strided kernel -----------------------------------------------------------

  function Dot(c: seq<nat>, w: seq<nat>): nat
    requires |c| == |w|
  {
    if c == [] then 0 else c[0] * w[0] + Dot(c[1..], w[1..])
  }

  lemma {:induction false} DotAppend(a: seq<nat>, b: seq<nat>, v: seq<nat>, w: seq<nat>)
    requires |a| == |v| && |b| == |w|
    ensures Dot(a + b, v + w) == Dot(a, v) + Dot(b, w)
  {
    if a == [] {
      assert a + b == b && v + w == w;
    } else {
      DotAppend(a[1..], b, v[1..], w);
      assert (a + b)[1..] == a[1..] + b && (v + w)[1..] == v[1..] + w;
    }
  }

  lemma {:induction false} ValueAppend(d: seq<nat>, e: seq<nat>, a: seq<nat>, b: seq<nat>)
    requires |a| == |d| && |b| == |e|
    ensures Value(d + e, a + b) == Value(d, a) * Product(e) + Value(e, b)
  {
    if d == [] {
      assert d + e == e && a + b == b;
    } else {
      ValueAppend(d[1..], e, a[1..], b);
      assert (d + e)[1..] == d[1..] + e && (a + b)[1..] == a[1..] + b;
      ProductAppend(d[1..], e);
      Distribute(a[0] * Product(d[1..]), Value(d[1..], a[1..]), Product(e));
      Associate(a[0], Product(d[1..]), Product(e));
    }
  }

  /** `c` with every digit from position `k` on cleared. */
  ghost function Cleared(c: seq<nat>, k: nat): (z: seq<nat>)
    requires k <= |c|
    ensures |z| == |c| && forall i | 0 <= i < |c| :: z[i] == if i < k then c[i] else 0
  {
    seq(|c|, i requires 0 <= i < |c| => if i < k then c[i] else 0)
  }

  /** The strided sum reaches the element the permuted digits name. */
  lemma {:induction false} StridedSum(dims: seq<nat>, strides: seq<nat>, axes: seq<nat>, c: seq<nat>, k: nat)
    requires IsPermutation(axes) && |axes| == |dims| == |c| && RowMajor(dims, strides) && k <= |c|
    ensures Value(dims, Gather(Inverse(axes), Cleared(c, k))) == Dot(c[..k], Gather(axes, strides)[..k])
  {
    var q, w := Inverse(axes), Gather(axes, strides);
    if k == 0 {
      ZeroValue(dims, Gather(q, Cleared(c, 0)));
    } else {
      hide Value, Product, Dot;
      StridedSum(dims, strides, axes, c, k - 1);
      var before := Gather(q, Cleared(c, k - 1));
      ValueUpdate(dims, before, axes[k - 1], c[k - 1]);
      ClearedStep(axes, c, k);
      DotLast(c, w, k);
    }
  }

  lemma ClearedStep(axes: seq<nat>, c: seq<nat>, k: nat)
    requires IsPermutation(axes) && |axes| == |c| && 0 < k <= |c|
    ensures Gather(Inverse(axes), Cleared(c, k)) == Gather(Inverse(axes), Cleared(c, k - 1))[axes[k - 1] := c[k - 1]]
    ensures Gather(Inverse(axes), Cleared(c, k - 1))[axes[k - 1]] == 0
  {
  }

  lemma DotLast(c: seq<nat>, w: seq<nat>, k: nat)
    requires 0 < k <= |c| == |w|
    ensures Dot(c[..k], w[..k]) == Dot(c[..k - 1], w[..k - 1]) + c[k - 1] * w[k - 1]
  {
    DotAppend(c[..k - 1], [c[k - 1]], w[..k - 1], [w[k - 1]]);
    assert c[..k] == c[..k - 1] + [c[k - 1]] && w[..k] == w[..k - 1] + [w[k - 1]];
    assert Dot([c[k - 1]], [w[k - 1]]) == c[k - 1] * w[k - 1];
  }

  lemma OriginOf(dims: seq<nat>, strides: seq<nat>, axes: seq<nat>, c: seq<nat>)
    requires Positive(dims) && IsPermutation(axes) && |axes| == |dims| && RowMajor(dims, strides)
    requires InRange(c, Gather(axes, dims))
    ensures Value(Gather(axes, dims), c) < Product(dims)
    ensures Origin(dims, axes, Value(Gather(axes, dims), c)) == Dot(c, Gather(axes, strides))
  {
    OriginAt(dims, axes, c);
    StridedSum(dims, strides, axes, c, |c|);
    assert Cleared(c, |c|) == c && c[..|c|] == c;
    assert Gather(axes, strides)[..|c|] == Gather(axes, strides);
  }

  /** How many trailing output elements one copy moves: the whole innermost axis
      when it is unmoved, one element otherwise. */
  ghost predicate Blocked(dims: seq<nat>, axes: seq<nat>, block: nat, outer: nat)
    requires |axes| == |dims|
  {
    || (outer == |dims| && block == 1)
    || (outer == |dims| - 1 && axes[outer] == outer && block == dims[outer])
  }

  lemma BlockElement(dims: seq<nat>, strides: seq<nat>, axes: seq<nat>, block: nat, outer: nat, counter: seq<nat>, first: nat, j: nat)
    requires Positive(dims) && IsPermutation(axes) && |axes| == |dims| && RowMajor(dims, strides)
    requires Blocked(dims, axes, block, outer) && j < block && InRange(counter, Gather(axes, dims)[..outer])
    requires first == Value(Gather(axes, dims)[..outer], counter) * block
    ensures first + j < Product(dims)
    ensures Origin(dims, axes, first + j) == Dot(counter, Gather(axes, strides)[..outer]) + j
  {
    hide Origin, Value, Product, Dot, Gather, IsPermutation, Positive, RowMajor;
    Shapes(dims, strides, axes);
    var outDims, w := Gather(axes, dims), Gather(axes, strides);
    if outer == |dims| {
      assert outDims[..outer] == outDims && w[..outer] == w;
      OriginOf(dims, strides, axes, counter);
    } else {
      var head, weights := outDims[..outer], w[..outer];
      UnmovedLast(dims, strides, axes);
      InRangeLast(head, counter, block, j);
      SingleDigit(block, j);
      ValueAppend(head, [block], counter, [j]);
      DotAppend(counter, [j], weights, [1]);
      OriginOf(dims, strides, axes, counter + [j]);
    }
  }

  lemma Shapes(dims: seq<nat>, strides: seq<nat>, axes: seq<nat>)
    requires IsPermutation(axes) && RowMajor(dims, strides)
    ensures |strides| == |dims| && forall i | 0 <= i < |axes| :: axes[i] < |axes|
  {
  }

  lemma InRangeLast(head: seq<nat>, counter: seq<nat>, block: nat, j: nat)
    requires InRange(counter, head) && j < block
    ensures InRange(counter + [j], head + [block])
  {
  }

  lemma UnmovedLast(dims: seq<nat>, strides: seq<nat>, axes: seq<nat>)
    requires IsPermutation(axes) && |axes| == |dims| > 0 && RowMajor(dims, strides) && axes[|axes| - 1] == |axes| - 1
    ensures var n := |dims| - 1;
      Gather(axes, dims) == Gather(axes, dims)[..n] + [dims[n]] && Gather(axes, strides) == Gather(axes, strides)[..n] + [1]
  {
    assert dims[|dims|..] == [];
  }

  lemma SingleDigit(block: nat, j: nat)
    ensures Value([block], [j]) == j && Product([block]) == block && Dot([j], [1]) == j
  {
    assert [block][1..] == [] && [j][1..] == [];
  }

  /** A block is one contiguous copy. */
  lemma BlockIsOneCopy(input: seq<byte>, e: nat, dims: seq<nat>, axes: seq<nat>, first: nat, source: nat, block: nat,
                       at: nat, start: nat, span: nat)
    requires Positive(dims) && IsPermutation(axes) && |axes| == |dims| && |input| == Product(dims) * e
    requires block > 0 && first + block <= Product(dims)
    requires forall d | first <= d < first + block :: Origin(dims, axes, d) == source + (d - first)
    requires ByteMark(first, e, at) && ByteMark(source, e, start) && ByteMark(block, e, span)
    ensures at + span <= |input| && start + span <= |input| && ByteMark(first + block, e, at + span)
    ensures Permuted(input, e, dims, axes)[at..at + span] == input[start..start + span]
  {
    hide Origin, Product, PermutedByte;
    Distribute(first, block, e);
    Scale(first + block, Product(dims), e);
    assert source + (block - 1) < Product(dims) by {
      assert Origin(dims, axes, first + (block - 1)) == source + (block - 1);
    }
    Scale(source + block, Product(dims), e);
    Distribute(source, block, e);
    var piece := Permuted(input, e, dims, axes)[at..at + span];
    forall k | 0 <= k < span ensures piece[k] == input[start..start + span][k] {
      var j, b := SplitIndex(k, block, e);
      PermutedAt(input, e, dims, axes, first + j, b);
      Distribute(first, j, e);
      Distribute(source, j, e);
    }
  }

  /** The row-major odometer, one step. */
  method Increment(dims: seq<nat>, before: seq<nat>) returns (counter: seq<nat>)
    requires InRange(before, dims) && Value(dims, before) + 1 < Product(dims)
    ensures InRange(counter, dims) && Value(dims, counter) == Value(dims, before) + 1
  {
    hide Value, Product;
    counter := before;
    TailWeights(dims, |dims|);
    assert dims[0..] == dims;
    for axis := |dims| downto 0
      invariant InRange(counter, dims)
      invariant Value(dims, counter) + Product(dims[axis..]) == Value(dims, before) + 1
    {
      TailWeights(dims, axis);
      ghost var digit := counter[axis];
      Distribute(digit, 1, Product(dims[axis + 1..]));
      if digit + 1 < dims[axis] {
        ValueUpdate(dims, counter, axis, digit + 1);
      } else {
        ValueUpdate(dims, counter, axis, 0);
      }
      ghost var start := counter;
      counter := counter[axis := counter[axis] + 1];
      if counter[axis] < dims[axis] {
        return;
      }
      counter := counter[axis := 0];
      assert counter == start[axis := 0];
    }
    assert false;
  }

  lemma TailWeights(dims: seq<nat>, axis: nat)
    requires axis <= |dims|
    ensures axis < |dims| ==> Product(dims[axis..]) == dims[axis] * Product(dims[axis + 1..])
    ensures axis == |dims| ==> Product(dims[axis..]) == 1
  {
    ProductSplit(dims, axis);
  }

  /** `step` blocks are written. */
  ghost predicate Progress(step: nat, block: nat, e: nat, written: nat) { ByteMark(step * block, e, written) }

  lemma OuterCount(dims: seq<nat>, axes: seq<nat>, block: nat, outer: nat)
    requires Positive(dims) && IsPermutation(axes) && |axes| == |dims| && outer <= |dims|
    requires block == if |dims| > 0 && axes[|dims| - 1] == |dims| - 1 then dims[|dims| - 1] else 1
    requires outer == |dims| - if block > 1 then 1 else 0
    ensures Blocked(dims, axes, block, outer) && block > 0
    ensures Positive(Gather(axes, dims)[..outer])
    ensures Product(Gather(axes, dims)[..outer]) * block == Product(dims)
  {
    hide Product, Inverse;
    ProductGather(axes, dims);
    PositiveGather(axes, dims);
    if outer == |dims| {
      assert Gather(axes, dims)[..outer] == Gather(axes, dims);
    } else {
      HeadProduct(Gather(axes, dims), block);
    }
  }

  lemma HeadProduct(e: seq<nat>, last: nat)
    requires e != [] && e[|e| - 1] == last
    ensures Product(e[..|e| - 1]) * last == Product(e)
  {
    assert e == e[..|e| - 1] + [last];
    ProductAppend(e[..|e| - 1], [last]);
    SingleDigit(last, 0);
  }

  lemma NextBlock(input: seq<byte>, e: nat, dims: seq<nat>, strides: seq<nat>, axes: seq<nat>, block: nat, outer: nat,
                  counter: seq<nat>, step: nat, written: nat, from: nat, span: nat)
    requires Positive(dims) && IsPermutation(axes) && |axes| == |dims| && RowMajor(dims, strides)
    requires |input| == Product(dims) * e && outer <= |dims| && Blocked(dims, axes, block, outer) && block > 0
    requires InRange(counter, Gather(axes, dims)[..outer]) && step == Value(Gather(axes, dims)[..outer], counter)
    requires Progress(step, block, e, written)
    requires ByteMark(Dot(counter, Gather(axes, strides)[..outer]), e, from) && ByteMark(block, e, span)
    ensures written + span <= |input| && from + span <= |input| && Progress(step + 1, block, e, written + span)
    ensures Permuted(input, e, dims, axes)[written..written + span] == input[from..from + span]
  {
    hide Value, Product, Origin, PermutedByte, Permuted, Dot, RowMajor, Blocked, IsPermutation, Positive, ByteMark;
    Shapes(dims, strides, axes);
    var source := Dot(counter, Gather(axes, strides)[..outer]);
    var first := step * block;
    BlockElement(dims, strides, axes, block, outer, counter, first, block - 1);
    forall d | first <= d < first + block ensures d < Product(dims) && Origin(dims, axes, d) == source + (d - first) {
      BlockElement(dims, strides, axes, block, outer, counter, first, d - first);
    }
    BlockIsOneCopy(input, e, dims, axes, first, source, block, written, from, span);
    Distribute(step, 1, block);
  }

  lemma NoBlocks(block: nat, e: nat)
    ensures Progress(0, block, e, 0)
  {
  }

  lemma MoreBlocks(e: nat, block: nat, count: nat, step: nat, written: nat)
    requires step < count && Progress(step + 1, block, e, written) && written != count * block * e
    ensures step + 1 < count
  {
  }

  /** The kernel on a nonempty tensor: whole innermost rows when they are unmoved, single
      elements otherwise, in output order. */
  method PermuteRows(input: seq<byte>, e: nat, dims: seq<nat>, axes: seq<nat>) returns (output: array<byte>)
    requires Positive(dims) && IsPermutation(axes) && |axes| == |dims| && |input| == Product(dims) * e
    ensures fresh(output) && output[..] == Permuted(input, e, dims, axes)
  {
    hide Value, Product, Origin, PermutedByte, Dot, Progress;
    var rank := |dims|;
    var strides := RowMajorStrides(dims);
    var outDims, outStrides := Gather(axes, dims), Gather(axes, strides);
    var block := if rank > 0 && axes[rank - 1] == rank - 1 then outDims[rank - 1] else 1;
    var outer := rank - if block > 1 then 1 else 0;
    OuterCount(dims, axes, block, outer);

    output := new byte[|input|](_ => 0);
    ghost var whole := Permuted(input, e, dims, axes);
    var counter := seq(outer, _ => 0);
    ZeroValue(outDims[..outer], counter);
    var written: nat := 0;
    ghost var step: nat := 0;
    NoBlocks(block, e);
    while true
      invariant InRange(counter, outDims[..outer]) && Value(outDims[..outer], counter) == step
      invariant Progress(step, block, e, written) && written <= |whole|
      invariant output[..] == Patched(Zeros(|input|), 0, whole[..written])
      decreases Product(outDims[..outer]) - step
    {
      var source := Dot(counter, outStrides[..outer]);
      var from, span := source * e, block * e;
      ghost var now := output[..];
      NextBlock(input, e, dims, strides, axes, block, outer, counter, step, written, from, span);
      CopyInto(output, written, input[from..from + span]);
      Extend(Zeros(|input|), now, output[..], whole, 0, written, span);
      written := written + span;
      if written == output.Length {
        break;
      }
      ValueBound(outDims[..outer], counter);
      MoreBlocks(e, block, Product(outDims[..outer]), step, written);
      counter := Increment(outDims[..outer], counter);
      step := step + 1;
    }
    assert whole[..written] == whole;
  }

  /** The first copy moves nothing: elements have no bytes, or rows are copied whole and empty. */
  ghost predicate EmptyCopy(e: nat, dims: seq<nat>, axes: seq<nat>)
    requires |axes| == |dims|
  {
    e == 0 || (dims != [] && axes[|dims| - 1] == |dims| - 1 && dims[|dims| - 1] == 0)
  }

  /** The kernel. It copies before it tests for the end, so on an empty tensor its first copy
      overruns the output, and the call panics (None), unless that copy is empty. */
  method PermuteBytes(input: seq<byte>, e: nat, dims: seq<nat>, axes: seq<nat>) returns (r: Option<seq<byte>>)
    requires IsPermutation(axes) && |axes| == |dims| && |input| == Product(dims) * e
    ensures r.Some? <==> Product(dims) > 0 || EmptyCopy(e, dims, axes)
    ensures Product(dims) > 0 ==> Positive(dims) && r == Some(Permuted(input, e, dims, axes))
    ensures Product(dims) == 0 && r.Some? ==> r.value == input == []
  {
    hide Product, Permuted;
    PositiveOrEmpty(dims);
    if exists i :: 0 <= i < |dims| && dims[i] == 0 {
      var rank := |dims|;
      var block := if rank > 0 && axes[rank - 1] == rank - 1 then dims[rank - 1] else 1;
      if block * e > |input| {
        return None;
      }
      return Some([]);
    }
    var output := PermuteRows(input, e, dims, axes);
    r := Some(output[..]);
  }

  lemma {:induction false} PositiveOrEmpty(dims: seq<nat>)
    ensures Product(dims) > 0 <==> Positive(dims)
    ensures Product(dims) == 0 <==> exists i :: 0 <= i < |dims| && dims[i] == 0
  {
    if dims != [] {
      PositiveOrEmpty(dims[1..]);
      assert Product(dims) == dims[0] * Product(dims[1..]);
      if Product(dims) == 0 && dims[0] != 0 {
        var i :| 0 <= i < |dims[1..]| && dims[1..][i] == 0;
        assert dims[i + 1] == 0;
      }
      if Positive(dims) { ProductPositive(dims); }
    }
  }

  /** The permutation that undoes `axes`. */
  method InvertAxes(axes: seq<nat>) returns (inverse: seq<nat>)
    requires IsPermutation(axes)
    ensures inverse == Inverse(axes)
  {
    ghost var want := Inverse(axes);
    inverse := seq(|axes|, _ => 0);
    for position := 0 to |axes|
      invariant |inverse| == |axes|
      invariant forall i | 0 <= i < position :: inverse[axes[i]] == i
    {
      inverse := inverse[axes[position] := position];
    }
    forall j | 0 <= j < |axes| ensures inverse[j] == want[j] {
      assert inverse[axes[want[j]]] == want[j];
    }
  }

  // --- resolving a view --------------------------------------------------------------

  datatype Dim = Literal(value: nat) | Axis(axis: nat, divisor: nat) | Auto

  datatype Permute = Permute(view: seq<Dim>, axes: seq<nat>) {
    /** What loading a contract establishes. */
    ghost predicate Valid() { |axes| == |view| && IsPermutation(axes) }
  }

  /** A running product of the factors leaves 64 bits. */
  ghost predicate Overflows(e: seq<nat>) {
    exists k :: 0 < k <= |e| && Product(e[..k]) >= U64
  }

  lemma ProductLast(e: seq<nat>, i: nat)
    requires i < |e|
    ensures Product(e[..i + 1]) == Product(e[..i]) * e[i]
  {
    assert e[..i + 1] == e[..i] + [e[i]];
    ProductAppend(e[..i], [e[i]]);
    SingleDigit(e[i], 0);
  }

  method CheckedProduct(shape: seq<nat>) returns (r: Option<nat>)
    ensures r == if Overflows(shape) then None else Some(Product(shape))
  {
    hide Product;
    var n := 1;
    Empty();
    for i := 0 to |shape|
      invariant n == Product(shape[..i])
      invariant forall k | 0 < k <= i :: Product(shape[..k]) < U64
    {
      ProductLast(shape, i);
      n := n * shape[i];
      if n >= U64 {
        return None;
      }
    }
    assert shape[..|shape|] == shape;
    return Some(n);
  }

  /** The value of one view dimension; `auto` counts as one until the end. */
  function DimValue(dim: Dim, shape: seq<nat>): Option<nat> {
    match dim
    case Literal(v) => Some(v)
    case Axis(axis, divisor) =>
      if axis >= |shape| || divisor == 0 || shape[axis] % divisor != 0 then None else Some(shape[axis] / divisor)
    case Auto => Some(1)
  }

  /** Every dimension has a nonzero value, and at most one is inferred. */
  ghost predicate Usable(view: seq<Dim>, shape: seq<nat>) {
    && (forall i | 0 <= i < |view| :: DimValue(view[i], shape).Some? && DimValue(view[i], shape).value > 0)
    && (forall i, j | 0 <= i < j < |view| :: !(view[i].Auto? && view[j].Auto?))
  }

  ghost function Values(view: seq<Dim>, shape: seq<nat>): (v: seq<nat>)
    requires Usable(view, shape)
    ensures |v| == |view| && Positive(v)
  {
    seq(|view|, i requires 0 <= i < |view| => DimValue(view[i], shape).value)
  }

  /** The concrete view: the declared values, with the inferred dimension, if any,
      making the product come out right. */
  ghost function ViewDims(view: seq<Dim>, shape: seq<nat>): (r: Option<seq<nat>>)
    ensures r.Some? ==> |r.value| == |view|
  {
    if Overflows(shape) || !Usable(view, shape) || Overflows(Values(view, shape)) then None
    else
      var values := Values(view, shape);
      var n := Product(shape);
      ProductPositive(values);
      if Auto !in view then if Product(values) == n then Some(values) else None
      else if n % Product(values) == 0 then
        var i :| 0 <= i < |view| && view[i] == Auto;
        Some(values[i := n / Product(values)])
      else None
  }

  /** A resolved view factors exactly the tensor's elements, and no dimension is
      zero unless the tensor is empty. */
  lemma ViewFactorsTensor(view: seq<Dim>, shape: seq<nat>)
    requires ViewDims(view, shape).Some?
    ensures Product(ViewDims(view, shape).value) == Product(shape)
    ensures Product(shape) > 0 ==> Positive(ViewDims(view, shape).value)
  {
    hide Product;
    var values := Values(view, shape);
    ProductPositive(values);
    if Auto in view {
      var i :| 0 <= i < |view| && view[i] == Auto && ViewDims(view, shape) == Some(values[i := Product(shape) / Product(values)]);
      Exact(Product(shape), Product(values));
      ReplaceFactor(values, i, Product(shape) / Product(values));
    }
  }

  /** The declared values, their product, and the inferred dimension. */
  method DeclaredValues(view: seq<Dim>, shape: seq<nat>) returns (ok: bool, resolved: seq<nat>, known: nat, auto: Option<nat>)
    ensures ok <==> Usable(view, shape) && !Overflows(Values(view, shape))
    ensures ok ==> resolved == Values(view, shape) && known == Product(resolved) && known > 0
    ensures ok ==> (auto.None? <==> Auto !in view) && (auto.Some? ==> auto.value < |view| && view[auto.value].Auto?)
  {
    hide Product;
    resolved, known, auto := [], 1, None;
    Empty();
    for i := 0 to |view|
      invariant |resolved| == i && known == Product(resolved) && known > 0
      invariant forall k | 0 <= k < i :: DimValue(view[k], shape) == Some(resolved[k]) && resolved[k] > 0
      invariant auto.None? <==> Auto !in view[..i]
      invariant auto.Some? ==> auto.value < i && view[auto.value].Auto?
      invariant forall k, l | 0 <= k < l < i :: !(view[k].Auto? && view[l].Auto?)
      invariant forall k | 0 < k <= i :: Product(resolved[..k]) < U64
    {
      var value := DimValue(view[i], shape);
      if view[i].Auto? {
        if auto.Some? {
          return false, [], 0, None;
        }
        auto := Some(i);
      }
      if value.None? || value.value == 0 {
        return false, [], 0, None;
      }
      ghost var before := resolved;
      resolved := resolved + [value.value];
      assert resolved[..i] == before && resolved[..i + 1] == resolved;
      ProductLast(resolved, i);
      if known * value.value >= U64 {
        TooLarge(view, shape, resolved);
        return false, [], 0, None;
      }
      Scale(1, known, value.value);
      known := known * value.value;
      assert forall k | 0 < k <= i :: resolved[..k] == before[..k];
      assert view[..i + 1] == view[..i] + [view[i]];
    }
    assert view[..|view|] == view;
    assert resolved == Values(view, shape);
    ok := true;
  }

  method Resolve(permute: Permute, shape: seq<nat>) returns (r: Option<seq<nat>>)
    ensures r == ViewDims(permute.view, shape)
  {
    hide Product, Usable, Overflows, Values, Positive;
    var elements := CheckedProduct(shape);
    if elements.None? {
      return None;
    }
    var ok, resolved, known, auto := DeclaredValues(permute.view, shape);
    if !ok {
      return None;
    }
    if auto.None? {
      return if known == elements.value then Some(resolved) else None;
    }
    if elements.value % known != 0 {
      return None;
    }
    OneAuto(permute.view, shape);
    return Some(resolved[auto.value := elements.value / known]);
  }

  lemma OneAuto(view: seq<Dim>, shape: seq<nat>)
    requires Usable(view, shape)
    ensures forall i, j | 0 <= i < |view| && 0 <= j < |view| && view[i].Auto? && view[j].Auto? :: i == j
  {
  }

  lemma TooLarge(view: seq<Dim>, shape: seq<nat>, resolved: seq<nat>)
    requires 0 < |resolved| <= |view| && Product(resolved) >= U64
    requires forall k | 0 <= k < |resolved| :: DimValue(view[k], shape) == Some(resolved[k])
    ensures Usable(view, shape) ==> Overflows(Values(view, shape))
  {
    if Usable(view, shape) {
      assert Values(view, shape)[..|resolved|] == resolved;
    }
  }

  lemma Empty()
    ensures Product([]) == 1
  {
  }

  lemma ReplaceFactor(e: seq<nat>, i: nat, v: nat)
    requires i < |e| && e[i] == 1
    ensures Product(e[i := v]) == v * Product(e)
  {
    ProductRemove(e, i);
    ProductRemove(e[i := v], i);
    assert e[i := v][..i] + e[i := v][i + 1..] == e[..i] + e[i + 1..];
  }

  lemma Exact(n: nat, d: nat)
    requires d > 0 && n % d == 0
    ensures n / d * d == n && n / d >= 0
    ensures n > 0 ==> n / d > 0
  {
  }

  // --- transforms -----------------------------------------------------------------------

  datatype Transform = Identity | Forward(permute: Permute) | Undo(permute: Permute)

  /** What applying a transform comes to. */
  datatype Applied = Moved(bytes: seq<byte>) | Unresolved | Panicked

  /** What a transform computes: its permutation where the view resolves, a panic on an empty
      tensor whose first copy is not empty. */
  ghost function Transformed(t: Transform, bytes: seq<byte>, e: nat, shape: seq<nat>): Applied
    requires !t.Identity? ==> t.permute.Valid()
    requires |bytes| == Product(shape) * e
  {
    if t.Identity? then Moved(bytes)
    else
      var view, axes := t.permute.view, t.permute.axes;
      if ViewDims(view, shape).None? then Unresolved
      else
        var dims := ViewDims(view, shape).value;
        ViewFactorsTensor(view, shape);
        ProductGather(axes, dims);
        if Product(shape) == 0 then (if EmptyCopy(e, dims, axes) then Moved([]) else Panicked)
        else if t.Forward? then Moved(Permuted(bytes, e, dims, axes))
        else Moved(Permuted(bytes, e, Gather(axes, dims), Inverse(axes)))
  }

  /** The inverse transform undoes the forward one on every tensor it moves, and the two refuse
      and panic on the same tensors. */
  lemma TransformRoundTrip(permute: Permute, bytes: seq<byte>, e: nat, shape: seq<nat>)
    requires permute.Valid() && |bytes| == Product(shape) * e
    ensures var moved := Transformed(Forward(permute), bytes, e, shape);
      if moved.Moved? then |moved.bytes| == |bytes| && Transformed(Undo(permute), moved.bytes, e, shape) == Moved(bytes)
      else Transformed(Undo(permute), bytes, e, shape) == moved
  {
    hide Product, Permuted, PermutedByte, ViewDims;
    if ViewDims(permute.view, shape).Some? && Product(shape) > 0 {
      ViewFactorsTensor(permute.view, shape);
      PermuteRoundTrip(bytes, e, ViewDims(permute.view, shape).value, permute.axes);
    }
  }

  /** Applies a transform to one tensor's bytes. It panics exactly on an empty tensor whose view
      resolves and whose first copy is not empty. */
  method ApplyTransform(t: Transform, bytes: seq<byte>, e: nat, shape: seq<nat>) returns (r: Applied)
    requires !t.Identity? ==> t.permute.Valid()
    requires |bytes| == Product(shape) * e
    ensures r == Transformed(t, bytes, e, shape)
    ensures r.Unresolved? <==> !t.Identity? && ViewDims(t.permute.view, shape).None?
    ensures r.Panicked? <==>
      && !t.Identity? && ViewDims(t.permute.view, shape).Some? && Product(shape) == 0
      && !EmptyCopy(e, ViewDims(t.permute.view, shape).value, t.permute.axes)
  {
    hide Product, Permuted, ViewDims;
    if t.Identity? {
      return Moved(bytes);
    }
    var resolved := Resolve(t.permute, shape);
    if resolved.None? {
      return Unresolved;
    }
    var dims, axes := resolved.value, t.permute.axes;
    ViewFactorsTensor(t.permute.view, shape);
    ProductGather(axes, dims);
    var output;
    if t.Forward? {
      output := PermuteBytes(bytes, e, dims, axes);
    } else {
      var inverse := InvertAxes(axes);
      InnermostInverse(axes, dims, e);
      output := PermuteBytes(bytes, e, Gather(axes, dims), inverse);
    }
    r := if output.Some? then Moved(output.value) else Panicked;
  }

  /** The inverse moves the innermost axis exactly when the permutation does. */
  lemma InnermostInverse(axes: seq<nat>, dims: seq<nat>, e: nat)
    requires IsPermutation(axes) && |axes| == |dims|
    ensures IsPermutation(Inverse(axes)) && |Inverse(axes)| == |axes|
    ensures EmptyCopy(e, Gather(axes, dims), Inverse(axes)) <==> EmptyCopy(e, dims, axes)
  {
    if dims != [] {
      var last, q := |dims| - 1, Inverse(axes);
      assert axes[q[last]] == last && q[axes[last]] == last;
    }
  }

  /** Such a tensor: a view of an inferred and a literal dimension, exchanged. */
  lemma EmptyTensorPanics(e: nat, n: nat)
    requires e > 0 && 0 < n < U64
    ensures var permute := Permute([Auto, Literal(n)], [1, 0]);
      && permute.Valid() && ViewDims(permute.view, [0]) == Some([0, n]) && Product([0]) == 0
      && Transformed(Forward(permute), [], e, [0]) == Panicked
  {
    var view: seq<Dim>, axes: seq<nat>, shape: seq<nat> := [Auto, Literal(n)], [1, 0], [0];
    assert shape[..1] == shape && Product(shape) == 0;
    assert forall k | 0 < k <= |shape| :: shape[..k] == shape;
    assert view[0] == Auto && view[1] == Literal(n);
    var values := Values(view, shape);
    assert values == [1, n];
    assert values[..1] == [1] && values[..2] == [1, n] && [1, n][1..] == [n] && [n][1..] == [] && [1][1..] == [];
    assert Product([1]) == 1 && Product([n]) == n && Product([1, n]) == n;
    assert values[0 := 0 / n] == [0, n];
    assert axes[0] == 1 && axes[1] == 0;
  }
}
