/** Moving bytes along the walk: `apply`, `apply_inverse`, the round trip, and
    the ratification probe. */
module LayoutBytes {
  import opened Wrappers
  import opened MixedRadix
  import opened LayoutMorphism
  import opened LayoutMap
  import opened LayoutWalk
  import opened Buffers

  // --- what the movers compute -------------------------------------------------

  lemma ByteIndex(i: nat, n: nat, e: nat)
    requires i < n * e
    ensures e > 0 && i / e < n && i == i / e * e + i % e
  {
    assert e > 0;
    QuotientBound(i, n, e);
  }

  lemma SplitIndex(i: nat, n: nat, e: nat) returns (d: nat, b: nat)
    requires i < n * e
    ensures d < n && b < e && i == d * e + b
  {
    ByteIndex(i, n, e);
    d, b := i / e, i % e;
  }

  lemma ByteBound(s: nat, n: nat, e: nat, b: nat)
    requires s < n && b < e
    ensures s * e + b < n * e
  {
    Scale(s + 1, n, e);
    Distribute(s, 1, e);
  }

  lemma ByteSplit(s: nat, e: nat, b: nat)
    requires b < e
    ensures (s * e + b) / e == s && (s * e + b) % e == b
  {
    var i := s * e + b;
    QuotientBound(i, s + 1, e) by { Distribute(s, 1, e); }
    QuotientUnique(i / e, s, i % e, b, e);
  }

  /** Byte `i` of the destination: its element's source byte, or zero. */
  ghost function ArrangedByte(p: Plan, source: seq<byte>, e: nat, i: nat): byte
    requires Valid(p) && |source| == p.sourceElements * e && i < p.destElements * e
  {
    ByteIndex(i, p.destElements, e);
    ElementByte(source, e, p.sourceElements, SourceAt(p, i / e), i % e)
  }

  /** Byte `b` of source element `s`, or of padding. */
  ghost function ElementByte(source: seq<byte>, e: nat, n: nat, s: Option<nat>, b: nat): byte
    requires |source| == n * e && b < e && (s.Some? ==> s.value < n)
  {
    match s
    case None => 0
    case Some(k) =>
      ByteBound(k, n, e, b);
      source[k * e + b]
  }

  ghost function Arranged(p: Plan, source: seq<byte>, e: nat): (r: seq<byte>)
    requires Valid(p) && |source| == p.sourceElements * e
    ensures |r| == p.destElements * e
    ensures forall i | 0 <= i < |r| :: r[i] == ArrangedByte(p, source, e, i)
  {
    seq(p.destElements * e, i requires 0 <= i < p.destElements * e => ArrangedByte(p, source, e, i))
  }

  /** Byte `i` of the source, read back from the slot that carries its element. */
  ghost function RestoredByte(p: Plan, dest: seq<byte>, e: nat, i: nat): byte
    requires Valid(p) && |dest| == p.destElements * e && i < p.sourceElements * e
  {
    ByteIndex(i, p.sourceElements, e);
    ElementByte(dest, e, p.destElements, Some(Slot(p, i / e)), i % e)
  }

  ghost function Restored(p: Plan, dest: seq<byte>, e: nat): (r: seq<byte>)
    requires Valid(p) && |dest| == p.destElements * e
    ensures |r| == p.sourceElements * e
    ensures forall i | 0 <= i < |r| :: r[i] == RestoredByte(p, dest, e, i)
  {
    seq(p.sourceElements * e, i requires 0 <= i < p.sourceElements * e => RestoredByte(p, dest, e, i))
  }

  /** The round trip, at every shape and element size: the inverse of the
      arrangement returns the source bytes. */
  lemma RoundTrip(p: Plan, source: seq<byte>, e: nat)
    requires Valid(p) && |source| == p.sourceElements * e
    ensures Restored(p, Arranged(p, source, e), e) == source
  {
    hide Valid, SourceAt;
    var dest := Arranged(p, source, e);
    forall i | 0 <= i < |source|
      ensures Restored(p, dest, e)[i] == source[i]
    {
      ByteIndex(i, p.sourceElements, e);
      var s, b := i / e, i % e;
      var d := Slot(p, s);
      ByteBound(d, p.destElements, e, b);
      ByteSplit(d, e, b);
      assert dest[d * e + b] == ArrangedByte(p, source, e, d * e + b);
    }
  }

  ghost predicate ZeroPadding(p: Plan, dest: seq<byte>, e: nat)
    requires Valid(p) && |dest| == p.destElements * e
  {
    forall i | 0 <= i < |dest| :: (ByteIndex(i, p.destElements, e); SourceAt(p, i / e).None? ==> dest[i] == 0)
  }

  /** The other way round holds exactly on the image: a destination survives
      restore-then-arrange if and only if its padding is zero. */
  lemma ImageRoundTrip(p: Plan, dest: seq<byte>, e: nat)
    requires Valid(p) && |dest| == p.destElements * e
    ensures Arranged(p, Restored(p, dest, e), e) == dest <==> ZeroPadding(p, dest, e)
  {
    hide Valid, SourceAt;
    var source := Restored(p, dest, e);
    forall i | 0 <= i < |dest|
      ensures (ByteIndex(i, p.destElements, e);
        Arranged(p, source, e)[i] == if SourceAt(p, i / e).None? then 0 else dest[i])
    {
      ByteIndex(i, p.destElements, e);
      var d, b := i / e, i % e;
      if SourceAt(p, d).Some? {
        var s := SourceAt(p, d).value;
        SlotUnique(p, d, Slot(p, s));
        ByteBound(s, p.sourceElements, e, b);
        ByteSplit(s, e, b);
        assert source[s * e + b] == RestoredByte(p, dest, e, s * e + b);
      }
    }
    if ZeroPadding(p, dest, e) {
      assert Arranged(p, source, e) == dest;
    }
  }

  // --- the movers ---------------------------------------------------------------

  method SizedFor(p: Plan, src: nat, dst: nat, element: nat) returns (r: Outcome<LayoutError>)
    ensures r.Pass? <==> src == p.sourceElements * element && dst == p.destElements * element
  {
    if src != p.sourceElements * element {
      return Fail(Buffer(src, p.sourceElements * element));
    }
    if dst != p.destElements * element {
      return Fail(Buffer(dst, p.destElements * element));
    }
    return Pass;
  }

  /** Element `d` starts at byte `at`. */
  ghost predicate ByteMark(d: nat, e: nat, at: nat) { at == d * e }

  /** The run occupies `span` bytes: from `at` in the destination and, unless it
      is padding, from `start` in the source. */
  ghost predicate Spanned(run: Run, e: nat, at: nat, start: nat, span: nat) {
    ByteMark(run.to, e, at) && ByteMark(run.length, e, span) && (run.from.Some? ==> ByteMark(run.from.value, e, start))
  }

  method SpanOf(run: Run, element: nat) returns (at: nat, start: nat, span: nat)
    ensures Spanned(run, element, at, start, span)
  {
    at, span, start := run.to * element, run.length * element, 0;
    if run.from.Some? {
      start := run.from.value * element;
    }
  }

  lemma RunInside(p: Plan, run: Run, e: nat)
    requires Valid(p) && Faithful(p, run)
    ensures run.to + run.length <= p.destElements
    ensures run.to * e <= (run.to + run.length) * e <= p.destElements * e
    ensures (run.to + run.length) * e == run.to * e + run.length * e
    ensures run.from.Some? && run.length > 0 ==> run.from.value + run.length <= p.sourceElements
    ensures run.from.Some? && run.length > 0 ==> (run.from.value + run.length) * e <= p.sourceElements * e
    ensures run.from.Some? ==> (run.from.value + run.length) * e == run.from.value * e + run.length * e
  {
    hide Valid, SourceAt;
    Scale(run.to, run.to + run.length, e);
    Scale(run.to + run.length, p.destElements, e);
    Distribute(run.to, run.length, e);
    if run.from.Some? {
      Distribute(run.from.value, run.length, e);
      if run.length > 0 {
        assert SourceAt(p, run.to + run.length - 1) == Some(run.from.value + (run.length - 1));
        Scale(run.from.value + run.length, p.sourceElements, e);
      }
    }
  }

  /** A run is one copy or one zero fill. */
  lemma RunIsOneCopy(p: Plan, source: seq<byte>, e: nat, run: Run, at: nat, start: nat, span: nat)
    requires Valid(p) && |source| == p.sourceElements * e && Faithful(p, run) && run.length > 0
    requires Spanned(run, e, at, start, span)
    ensures run.to + run.length <= p.destElements && ByteMark(run.to + run.length, e, at + span)
    ensures at + span <= |Arranged(p, source, e)|
    ensures run.from.Some? ==> start + span <= |source|
    ensures Arranged(p, source, e)[at..at + span] == if run.from.Some? then source[start..start + span] else Zeros(span)
  {
    hide Valid, SourceAt, ArrangedByte, Faithful;
    RunInside(p, run, e);
    var piece := Arranged(p, source, e)[at..at + span];
    var want := if run.from.Some? then source[start..start + span] else Zeros(span);
    forall k | 0 <= k < span
      ensures piece[k] == want[k]
    {
      RunByteIs(p, source, e, run, k);
      assert piece[k] == ArrangedByte(p, source, e, at + k);
    }
    assert piece == want;
  }

  lemma ArrangedAt(p: Plan, source: seq<byte>, e: nat, d: nat, b: nat)
    requires Valid(p) && |source| == p.sourceElements * e && d < p.destElements && b < e
    ensures d * e + b < p.destElements * e
    ensures ArrangedByte(p, source, e, d * e + b) == ElementByte(source, e, p.sourceElements, SourceAt(p, d), b)
  {
    hide Valid, SourceAt, ElementByte;
    ByteBound(d, p.destElements, e, b);
    ByteSplit(d, e, b);
  }

  lemma RunByteIs(p: Plan, source: seq<byte>, e: nat, run: Run, k: nat)
    requires Valid(p) && |source| == p.sourceElements * e && Faithful(p, run) && k < run.length * e
    ensures run.to * e + k < p.destElements * e
    ensures run.from.Some? ==> run.from.value * e + k < |source|
    ensures ArrangedByte(p, source, e, run.to * e + k) == if run.from.None? then 0 else source[run.from.value * e + k]
  {
    hide Valid, SourceAt, ArrangedByte;
    var q, b := SplitIndex(k, run.length, e);
    Distribute(run.to, q, e);
    ArrangedAt(p, source, e, run.to + q, b);
    assert SourceAt(p, run.to + q) == Shift(run.from, q);
    if run.from.Some? {
      Distribute(run.from.value, q, e);
      ByteBound(run.from.value + q, p.sourceElements, e, b);
    }
  }

  /** `apply` into the slice dst[lo..hi]. */
  method Apply(p: Plan, source: seq<byte>, dst: array<byte>, lo: nat, hi: nat, element: nat)
      returns (r: Outcome<LayoutError>)
    requires Valid(p) && lo <= hi <= dst.Length
    modifies dst
    ensures r.Pass? <==> |source| == p.sourceElements * element && hi - lo == p.destElements * element
    ensures r.Fail? ==> dst[..] == old(dst[..])
    ensures r.Pass? ==> dst[..] == Patched(old(dst[..]), lo, Arranged(p, source, element))
  {
    hide Valid, Arranged, Faithful, ArrangedByte;
    r := SizedFor(p, |source|, hi - lo, element);
    if r.Fail? {
      return;
    }
    ghost var whole := Arranged(p, source, element);
    var runs := ForEachRun(p);
    ghost var done: nat, written: nat := 0, 0;
    assert ByteMark(0, element, 0);
    for i := 0 to |runs|
      invariant Tiles(runs[i..], done, p.destElements)
      invariant ByteMark(done, element, written) && written <= |whole|
      invariant dst[..] == Patched(old(dst[..]), lo, whole[..written])
    {
      hide ByteMark;
      var run := runs[i];
      assert runs[i..][1..] == runs[i + 1..];
      assert Faithful(p, run);
      ghost var now := dst[..];
      ghost var span := MoveRun(p, source, dst, lo, element, run, written);
      Extend(old(dst[..]), now, dst[..], whole, lo, written, span);
      done, written := done + run.length, written + span;
    }
  }

  method MoveRun(p: Plan, source: seq<byte>, dst: array<byte>, lo: nat, element: nat, run: Run, ghost written: nat)
      returns (ghost moved: nat)
    requires Valid(p) && |source| == p.sourceElements * element && Faithful(p, run) && run.length > 0
    requires lo + p.destElements * element <= dst.Length && ByteMark(run.to, element, written)
    modifies dst
    ensures ByteMark(run.to + run.length, element, written + moved)
    ensures written + moved <= |Arranged(p, source, element)|
    ensures dst[..] == Patched(old(dst[..]), lo + written, Arranged(p, source, element)[written..written + moved])
  {
    hide Valid, Faithful, ArrangedByte;
    var at, start, span := SpanOf(run, element);
    RunIsOneCopy(p, source, element, run, at, start, span);
    moved := span;
    CopyInto(dst, lo + at, if run.from.Some? then source[start..start + span] else Zeros(span));
  }

  /** `apply_inverse`: the same walk with source and destination swapped. */
  method ApplyInverse(p: Plan, dest: seq<byte>, src: array<byte>, element: nat)
      returns (r: Outcome<LayoutError>)
    requires Valid(p)
    modifies src
    ensures r.Pass? <==> src.Length == p.sourceElements * element && |dest| == p.destElements * element
    ensures r.Fail? ==> src[..] == old(src[..])
    ensures r.Pass? ==> src[..] == Restored(p, dest, element)
  {
    hide Valid, Faithful;
    r := SizedFor(p, src.Length, |dest|, element);
    if r.Fail? {
      return;
    }
    ghost var whole := Restored(p, dest, element);
    var runs := ForEachRun(p);
    ghost var done: nat := 0;
    for i := 0 to |runs|
      invariant Tiles(runs[i..], done, p.destElements) && done <= p.destElements
      invariant Carried(p, src[..], whole, element, done)
    {
      var run := runs[i];
      assert runs[i..][1..] == runs[i + 1..];
      assert Faithful(p, run);
      RunInside(p, run, element);
      ghost var before := src[..];
      var at, start, span := SpanOf(run, element);
      if run.from.Some? {
        CopyInto(src, start, dest[at..at + span]);
      }
      RunCarries(p, dest, element, run, before, src[..], at, start, span);
      done := done + run.length;
    }
    AllCarried(p, src[..], whole, element);
  }

  /** Every source byte whose slot lies below `done` has been read back. */
  ghost predicate Carried(p: Plan, src: seq<byte>, whole: seq<byte>, e: nat, done: nat)
    requires Valid(p) && |src| == |whole| == p.sourceElements * e
  {
    forall i | 0 <= i < |src| :: (ByteIndex(i, p.sourceElements, e); Slot(p, i / e) < done ==> src[i] == whole[i])
  }

  lemma AllCarried(p: Plan, src: seq<byte>, whole: seq<byte>, e: nat)
    requires Valid(p) && |src| == |whole| == p.sourceElements * e && Carried(p, src, whole, e, p.destElements)
    ensures src == whole
  {
    hide Valid;
    forall i | 0 <= i < |src| ensures src[i] == whole[i] {
      ByteIndex(i, p.sourceElements, e);
    }
  }

  lemma RunCarries(p: Plan, dest: seq<byte>, e: nat, run: Run, before: seq<byte>, after: seq<byte>,
                   at: nat, start: nat, span: nat)
    requires Valid(p) && |dest| == p.destElements * e && |before| == |after| == p.sourceElements * e
    requires Faithful(p, run) && run.length > 0
    requires Carried(p, before, Restored(p, dest, e), e, run.to)
    requires run.from.None? ==> after == before
    requires run.from.Some? ==>
      && Spanned(run, e, at, start, span)
      && at + span <= |dest| && start + span <= |before|
      && after == Patched(before, start, dest[at..at + span])
    ensures Carried(p, after, Restored(p, dest, e), e, run.to + run.length)
  {
    hide Valid, SourceAt;
    RunInside(p, run, e);
    var whole := Restored(p, dest, e);
    forall i | 0 <= i < |after|
      ensures (ByteIndex(i, p.sourceElements, e); Slot(p, i / e) < run.to + run.length ==> after[i] == whole[i])
    {
      ByteIndex(i, p.sourceElements, e);
      SlotInRun(p, run, i / e);
      if run.from.Some? {
        if run.from.value <= i / e < run.from.value + run.length {
          InsideRun(i, run.to, run.from.value, run.length, e);
          assert whole[i] == RestoredByte(p, dest, e, i);
        } else {
          OutsideRun(i, run.from.value, run.length, e);
        }
      }
    }
  }

  /** A run carries exactly the source elements whose slots it covers. */
  lemma SlotInRun(p: Plan, run: Run, s: nat)
    requires Valid(p) && Faithful(p, run) && s < p.sourceElements
    ensures run.to <= Slot(p, s) < run.to + run.length
       <==> run.from.Some? && run.from.value <= s < run.from.value + run.length
    ensures run.from.Some? && run.from.value <= s < run.from.value + run.length
        ==> Slot(p, s) == run.to + (s - run.from.value)
  {
    hide Valid, SourceAt;
    if run.from.Some? && run.from.value <= s < run.from.value + run.length {
      SlotUnique(p, Slot(p, s), run.to + (s - run.from.value));
    }
  }

  lemma DivMod(i: nat, e: nat)
    requires e > 0
    ensures i == i / e * e + i % e && i % e < e
  {
  }

  lemma InsideRun(i: nat, to: nat, from: nat, length: nat, e: nat)
    requires e > 0 && from <= i / e < from + length
    ensures from * e <= i < from * e + length * e
    ensures (to + (i / e - from)) * e + i % e == to * e + (i - from * e)
  {
    var k := i / e - from;
    DivMod(i, e);
    Distribute(from, k, e);
    Distribute(to, k, e);
    ByteBound(k, length, e, i % e);
  }

  lemma OutsideRun(i: nat, from: nat, length: nat, e: nat)
    requires e > 0 && !(from <= i / e < from + length)
    ensures i < from * e || i >= from * e + length * e
  {
    DivMod(i, e);
    var q := i / e;
    if q < from {
      ByteBound(q, from, e, i % e);
    } else {
      Scale(from + length, q, e);
      Distribute(from, length, e);
    }
  }

  // --- auto-ratification ----------------------------------------------------------

  const ELEMENT := 4
  const POISON: byte := 0xA5

  datatype Probe = Probe(shape: seq<nat>, destElements: nat, padded: bool)

  /** A distinct pattern per element: its index times a hash constant, as four
      little-endian bytes. */
  function TagByte(i: nat): byte {
    var tag := i / ELEMENT * 2_654_435_761;
    (if i % ELEMENT == 0 then tag
     else if i % ELEMENT == 1 then tag / 0x100
     else if i % ELEMENT == 2 then tag / 0x1_0000
     else tag / 0x100_0000) % 256
  }

  /** Tallies the walk: how many slots are mapped, and which are padding. */
  method Tally(p: Plan) returns (mapped: nat, padSlots: seq<nat>)
    requires Valid(p)
    ensures mapped == p.sourceElements
    ensures forall k | 0 <= k < |padSlots| :: padSlots[k] < p.destElements && SourceAt(p, padSlots[k]).None?
    ensures |padSlots| == p.destElements - p.sourceElements
    ensures !p.padded ==> padSlots == []
  {
    hide Valid, SourceAt;
    var visits := ForEach(p);
    mapped, padSlots := 0, [];
    assert Mapped(p, 0) == {};
    for to := 0 to |visits|
      invariant mapped == |Mapped(p, to)|
      invariant mapped + |padSlots| == to
      invariant forall k | 0 <= k < |padSlots| :: padSlots[k] < to && SourceAt(p, padSlots[k]).None?
    {
      MappedNext(p, to);
      if visits[to].Some? {
        mapped := mapped + 1;
      } else {
        padSlots := padSlots + [to];
      }
    }
    MappedCount(p);
    if !p.padded && padSlots != [] {
      UnpaddedMapsEverySlot(p, padSlots[0]);
      assert false;
    }
  }

  lemma MappedNext(p: Plan, n: nat)
    requires Valid(p) && n < p.destElements
    ensures |Mapped(p, n + 1)| == |Mapped(p, n)| + if SourceAt(p, n).Some? then 1 else 0
  {
    hide Valid, SourceAt;
    assert Mapped(p, n + 1) == Mapped(p, n) + if SourceAt(p, n).Some? then {n} else {};
  }

  /** Padding is written as zero bytes. */
  lemma PaddingIsZero(p: Plan, source: seq<byte>, e: nat, d: nat)
    requires Valid(p) && |source| == p.sourceElements * e && d < p.destElements && SourceAt(p, d).None?
    ensures d * e + e <= p.destElements * e
    ensures forall i | d * e <= i < d * e + e :: Arranged(p, source, e)[i] == 0
  {
    hide Valid, SourceAt;
    Scale(d + 1, p.destElements, e);
    Distribute(d, 1, e);
    forall i | d * e <= i < d * e + e ensures Arranged(p, source, e)[i] == 0 {
      ByteSplit(d, e, i - d * e);
      assert Arranged(p, source, e)[i] == ArrangedByte(p, source, e, i);
    }
  }

  method PaddingReadsZero(p: Plan, ghost source: seq<byte>, destination: seq<byte>, padSlots: seq<nat>) returns (ok: bool)
    requires Valid(p) && |source| == p.sourceElements * ELEMENT && destination == Arranged(p, source, ELEMENT)
    requires forall k | 0 <= k < |padSlots| :: padSlots[k] < p.destElements && SourceAt(p, padSlots[k]).None?
    ensures ok
  {
    hide Valid, Arranged, SourceAt;
    ok := true;
    for k := 0 to |padSlots|
      invariant ok
    {
      PaddingIsZero(p, source, ELEMENT, padSlots[k]);
      var at := padSlots[k] * ELEMENT;
      ok := ok && destination[at..at + ELEMENT] == [0, 0, 0, 0];
    }
  }

  /** The probe of one planned shape; every check it makes holds at every shape. */
  method ProbePlan(p: Plan) returns (ok: bool)
    requires Valid(p)
    ensures ok
  {
    hide Valid, Arranged, Restored, SourceAt, TagByte;
    var sourceBytes, destBytes := p.sourceElements * ELEMENT, p.destElements * ELEMENT;
    var source := seq(sourceBytes, i requires i >= 0 => TagByte(i));
    var destination := new byte[destBytes](_ => POISON);
    var applied := Apply(p, source, destination, 0, destBytes, ELEMENT);
    var arranged := destination[..];
    assert arranged == Arranged(p, source, ELEMENT);

    var mapped, padSlots := Tally(p);
    var zero := PaddingReadsZero(p, source, arranged, padSlots);

    var back := new byte[sourceBytes](_ => POISON);
    var undone := ApplyInverse(p, arranged, back, ELEMENT);
    RoundTrip(p, source, ELEMENT);
    ok := applied.Pass? && mapped == p.sourceElements && zero && (p.padded || padSlots == [])
       && undone.Pass? && back[..] == source;
  }

  /** The shapes the record plans, in order. */
  ghost function Probed(record: Record, shapes: seq<seq<nat>>): seq<seq<nat>> {
    if shapes == [] then []
    else
      var last := shapes[|shapes| - 1];
      Probed(record, shapes[..|shapes| - 1]) + if Plannable(record, last) then [last] else []
  }

  /** The probe reports its plan: as many slots as the extents multiply to, padded exactly when
      some axis is factored into more than its dim. */
  ghost predicate Reports(record: Record, probe: Probe)
    requires Plannable(record, probe.shape)
  {
    var axes, extents := PlanAxes(record, probe.shape), PlanExtents(record, probe.shape);
    && probe.destElements == Product(extents)
    && (probe.padded <==> exists a :: 0 <= a < |probe.shape| && probe.shape[a] < Product(Group(axes, extents, a)))
  }

  lemma PlanReports(record: Record, p: Plan)
    requires Plannable(record, p.shape) && Plans(record, p.shape, p)
    ensures Reports(record, Probe(p.shape, p.destElements, p.padded))
  {
    hide Product, Group, PlanAxes, PlanExtents;
    forall a | 0 <= a < |p.shape|
      ensures p.paddedAxis[a] <==> p.shape[a] < Product(Group(p.axes, p.extents, a))
    {
      assert AxisFactored(p.axes, p.extents, p.shape, p.paddedAxis, a);
    }
  }

  /** Each given shape is probed as often as it is given if the record plans it, and not otherwise. */
  lemma {:induction false} ProbedCount(record: Record, shapes: seq<seq<nat>>, shape: seq<nat>)
    ensures multiset(Probed(record, shapes))[shape] == if Plannable(record, shape) then multiset(shapes)[shape] else 0
  {
    hide Plannable;
    if shapes != [] {
      var n := |shapes| - 1;
      ProbedCount(record, shapes[..n], shape);
      assert shapes == shapes[..n] + [shapes[n]];
    }
  }

  /** And in the order given. */
  lemma {:induction false} ProbedInOrder(record: Record, a: seq<seq<nat>>, b: seq<seq<nat>>)
    ensures Probed(record, a + b) == Probed(record, a) + Probed(record, b)
  {
    hide Plannable;
    if b == [] {
      assert a + b == a;
    } else {
      var n := |b| - 1;
      ProbedInOrder(record, a, b[..n]);
      assert (a + b)[..|a + b| - 1] == a + b[..n] && (a + b)[|a + b| - 1] == b[n];
    }
  }

  /** Ratification over any probe shapes: a record is refused only when `check`
      refuses it or no probe shape reaches it, never by a probe itself. */
  method Ratify(record: Record, shapes: seq<seq<nat>>) returns (r: Result<seq<Probe>, LayoutError>)
    ensures r.Ok? <==> Sound(record) && exists i :: 0 <= i < |shapes| && Plannable(record, shapes[i])
    ensures r.Ok? ==> |r.value| == |Probed(record, shapes)|
    ensures r.Ok? ==> forall k | 0 <= k < |r.value| :: r.value[k].shape == Probed(record, shapes)[k]
    ensures r.Ok? ==> forall k | 0 <= k < |r.value| ::
      Plannable(record, r.value[k].shape) && Reports(record, r.value[k])
  {
    hide Plannable, PlannedByRuns, PlanByRuns, WellFactored, Valid, Plans, Reports;
    var checked := Check(record);
    if checked.Fail? {
      return Err(checked.error);
    }
    assert WellFactored(record);
    var probes: seq<Probe>, verdict := [], true;
    for i := 0 to |shapes|
      invariant verdict
      invariant probes != [] <==> exists j :: 0 <= j < i && Plannable(record, shapes[j])
      invariant |probes| == |Probed(record, shapes[..i])|
      invariant forall k | 0 <= k < |probes| :: probes[k].shape == Probed(record, shapes[..i])[k]
      invariant forall k | 0 <= k < |probes| :: Plannable(record, probes[k].shape) && Reports(record, probes[k])
    {
      assert shapes[..i + 1][..i] == shapes[..i] && shapes[..i + 1][i] == shapes[i];
      var planned := PlanFor(record, shapes[i]);
      if planned.Ok? {
        PlansIt(record, shapes[i], planned.value);
        PlanReports(record, planned.value);
        var ok := ProbePlan(planned.value);
        verdict := verdict && ok;
        probes := probes + [Probe(shapes[i], planned.value.destElements, planned.value.padded)];
        assert Plannable(record, shapes[i]);
      }
    }
    assert shapes[..|shapes|] == shapes;
    if !verdict || probes == [] {
      return Err(BadRecord);
    }
    return Ok(probes);
  }

  lemma PlansIt(record: Record, shape: seq<nat>, p: Plan)
    requires Plannable(record, shape) && Plans(record, shape, p)
    ensures Valid(p) && p.shape == shape
  {
  }
}
