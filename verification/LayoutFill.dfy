/** The fill path: a chunked source, arranged straight into memory somebody
    else owns. */
module LayoutFill {
  import opened Wrappers
  import opened MixedRadix
  import opened LayoutMorphism
  import opened LayoutMap
  import opened LayoutWalk
  import opened LayoutBytes
  import opened Buffers

  /** An ordered chunk list that is logically one buffer, with the start of each
      chunk and, last, the total. */
  datatype ChunkedSource = ChunkedSource(chunks: seq<seq<byte>>, starts: seq<nat>)
  {
    ghost predicate Valid() {
      && |starts| == |chunks| + 1
      && forall i | 0 <= i < |starts| :: starts[i] == |Concat(chunks[..i])|
    }

    ghost function Bytes(): seq<byte> { Concat(chunks) }

    function Len(): (n: nat)
      requires Valid()
      ensures n == |Bytes()|
    {
      assert chunks[..|chunks|] == chunks;
      starts[|starts| - 1]
    }

    /** Chunk `i` occupies its own range of the logical buffer. */
    lemma ChunkAt(i: nat)
      requires Valid() && i < |chunks|
      ensures starts[i + 1] == starts[i] + |chunks[i]| <= |Bytes()|
      ensures Bytes()[starts[i]..starts[i + 1]] == chunks[i]
    {
      assert chunks[..i + 1] == chunks[..i] + [chunks[i]];
      assert chunks == chunks[..i + 1] + chunks[i + 1..];
      ConcatAppend(chunks[..i], [chunks[i]]);
      ConcatAppend(chunks[..i + 1], chunks[i + 1..]);
      ConcatOne(chunks[i]);
    }

    lemma StartsSorted(i: nat, j: nat)
      requires Valid() && i <= j < |starts|
      ensures starts[i] <= starts[j]
      decreases j - i
    {
      if i < j {
        StartsSorted(i, j - 1);
        ChunkAt(j - 1);
      }
    }
  }

  method NewSource(chunks: seq<seq<byte>>) returns (s: ChunkedSource)
    ensures s.Valid() && s.chunks == chunks
  {
    var starts, at := [], 0;
    for i := 0 to |chunks|
      invariant |starts| == i && at == |Concat(chunks[..i])|
      invariant forall j | 0 <= j < i :: starts[j] == |Concat(chunks[..j])|
    {
      starts := starts + [at];
      assert chunks[..i + 1] == chunks[..i] + [chunks[i]];
      ConcatAppend(chunks[..i], [chunks[i]]);
      ConcatOne(chunks[i]);
      at := at + |chunks[i]|;
    }
    starts := starts + [at];
    s := ChunkedSource(chunks, starts);
  }

  datatype Search = Found(at: nat) | Insert(at: nat)

  /** The standard library's search: any index of an equal element, or the one
      insertion point.  With repeated starts (empty chunks) any of them may be
      returned. */
  method BinarySearch(a: seq<nat>, x: nat) returns (r: Search)
    requires forall i, j | 0 <= i <= j < |a| :: a[i] <= a[j]
    ensures r.Found? ==> r.at < |a| && a[r.at] == x
    ensures r.Insert? ==> r.at <= |a| && (forall i | 0 <= i < r.at :: a[i] < x) && (forall i | r.at <= i < |a| :: x < a[i])
  {
    var lo, hi := 0, |a|;
    while lo < hi
      invariant 0 <= lo <= hi <= |a|
      invariant forall i | 0 <= i < lo :: a[i] < x
      invariant forall i | hi <= i < |a| :: x < a[i]
    {
      var mid := (lo + hi) / 2;
      if a[mid] == x {
        return Found(mid);
      } else if a[mid] < x {
        lo := mid + 1;
      } else {
        hi := mid;
      }
    }
    return Insert(lo);
  }

  /** The chunk a read at `offset` starts in. */
  method FirstChunk(s: ChunkedSource, offset: nat) returns (index: nat)
    requires s.Valid() && offset <= |s.Bytes()|
    ensures index <= |s.chunks| && s.starts[index] <= offset
    ensures index < |s.chunks| ==> offset <= s.starts[index + 1]
  {
    assert s.starts[0] == 0 && s.starts[|s.chunks|] == |s.Bytes()| by {
      assert s.chunks[..0] == [] && s.chunks[..|s.chunks|] == s.chunks;
    }
    forall i, j | 0 <= i <= j < |s.starts| ensures s.starts[i] <= s.starts[j] {
      s.StartsSorted(i, j);
    }
    var found := BinarySearch(s.starts, offset);
    match found {
      case Found(at) => index := at;
      case Insert(at) => index := at - 1;
    }
  }

  lemma Frame(s: ChunkedSource)
    requires s.Valid()
    ensures |s.starts| == |s.chunks| + 1 && s.starts[|s.chunks|] == |s.Bytes()|
  {
    assert s.chunks[..|s.chunks|] == s.chunks;
  }

  /** Copies what one chunk holds from `cursor` on, at most `limit` bytes. */
  method CopyPiece(s: ChunkedSource, index: nat, cursor: nat, out: array<byte>, at: nat, limit: nat) returns (take: nat)
    requires s.Valid() && index < |s.chunks| && s.starts[index] <= cursor <= s.starts[index + 1]
    requires at + limit <= out.Length
    modifies out
    ensures take <= limit && cursor + take <= s.starts[index + 1] <= |s.Bytes()|
    ensures take < limit ==> cursor + take == s.starts[index + 1]
    ensures out[..] == Patched(old(out[..]), at, s.Bytes()[cursor..cursor + take])
  {
    hide ChunkedSource.Valid, Patched;
    Frame(s);
    s.ChunkAt(index);
    var chunk := s.chunks[index];
    var within := cursor - s.starts[index];
    take := if |chunk| - within < limit then |chunk| - within else limit;
    SliceOfSlice(s.Bytes(), s.starts[index], s.starts[index + 1], within, within + take);
    CopyInto(out, at, chunk[within..within + take]);
  }

  /** Copies the logical bytes from `offset` on into out[lo..hi], crossing chunk
      boundaries as needed. */
  method ReadAt(s: ChunkedSource, offset: nat, out: array<byte>, lo: nat, hi: nat) returns (r: Outcome<LayoutError>, touched: nat)
    requires s.Valid() && lo <= hi <= out.Length
    modifies out
    ensures r.Pass? <==> offset + (hi - lo) <= |s.Bytes()|
    ensures r.Fail? ==> out[..] == old(out[..])
    ensures r.Pass? ==> out[..] == Patched(old(out[..]), lo, s.Bytes()[offset..offset + (hi - lo)])
  {
    hide ChunkedSource.Valid, Patched;
    Frame(s);
    touched := 0;
    if offset + (hi - lo) > s.Len() {
      return Fail(Buffer(s.Len(), offset + (hi - lo))), touched;
    }
    r := Pass;
    var index := FirstChunk(s, offset);
    var written, cursor := 0, offset;
    ghost var want := s.Bytes()[offset..offset + (hi - lo)];
    PatchNothing(out[..], lo);
    assert want[..0] == [];
    while written < hi - lo
      invariant 0 <= written <= hi - lo && cursor == offset + written && 0 <= index
      invariant written < hi - lo ==> index <= |s.chunks| && s.starts[index] <= cursor
      invariant written < hi - lo && index < |s.chunks| ==> cursor <= s.starts[index + 1]
      invariant out[..] == Patched(old(out[..]), lo, want[..written])
      decreases hi - lo - written, |s.chunks| - index
    {
      ghost var now := out[..];
      var take := CopyPiece(s, index, cursor, out, lo + written, hi - lo - written);
      SliceOfSlice(s.Bytes(), offset, offset + (hi - lo), written, written + take);
      assert want[written..written + take] == s.Bytes()[cursor..cursor + take];
      Extend(old(out[..]), now, out[..], want, lo, written, take);
      written := written + take;
      cursor := cursor + take;
      touched := touched + 1;
      index := index + 1;
      if index < |s.chunks| {
        s.ChunkAt(index);
      }
    }
    assert want[..hi - lo] == want;
  }

  // --- the sink -------------------------------------------------------------------

  /** The CPU backend: plain memory the caller owns; staging is the destination. */
  class HostSink {
    var buffer: array<byte>
    var pending: Option<(nat, nat)>

    constructor (bytes: nat)
      ensures fresh(buffer) && buffer.Length == bytes && pending.None?
      ensures forall i | 0 <= i < bytes :: buffer[i] == 0
    {
      buffer := new byte[bytes](_ => 0);
      pending := None;
    }

    method Staging(bytes: nat, deviceOffset: nat) returns (r: Result<(nat, nat), LayoutError>)
      modifies this`pending
      ensures r.Ok? <==> deviceOffset + bytes <= buffer.Length
      ensures r.Ok? ==> r.value == (deviceOffset, deviceOffset + bytes) && pending == Some((deviceOffset, bytes))
      ensures r.Err? ==> pending == old(pending)
    {
      if deviceOffset + bytes > buffer.Length {
        return Err(Buffer(buffer.Length, deviceOffset + bytes));
      }
      pending := Some((deviceOffset, bytes));
      return Ok((deviceOffset, deviceOffset + bytes));
    }

    method Commit()
      modifies this`pending
      ensures pending.None?
    {
      pending := None;
    }
  }

  datatype FillStats = FillStats(sourceBytes: nat, destinationBytes: nat, paddingBytes: nat, runs: nat, chunks: nat)

  datatype TensorFill = TensorFill(layout: Record, shape: seq<nat>, elementBytes: nat, deviceOffset: nat)

  /** Padding elements among the first `n` destination slots. */
  ghost function Padding(p: Plan, n: nat): int
    requires LayoutMorphism.Valid(p) && n <= p.destElements
  {
    n - |Mapped(p, n)|
  }

  lemma {:induction false} PaddingRun(p: Plan, run: Run, k: nat)
    requires LayoutMorphism.Valid(p) && Faithful(p, run) && k <= run.length
    ensures Padding(p, run.to + k) == Padding(p, run.to) + if run.from.None? then k else 0
  {
    hide LayoutMorphism.Valid, SourceAt, Mapped;
    if k > 0 {
      PaddingRun(p, run, k - 1);
      MappedNext(p, run.to + (k - 1));
    }
  }

  lemma PaddingZero(p: Plan)
    requires LayoutMorphism.Valid(p)
    ensures Padding(p, 0) == 0
  {
    assert Mapped(p, 0) == {};
  }

  /** Counts the runs and the padding bytes of a walk. */
  method Measure(p: Plan, element: nat) returns (runs: nat, padding: nat)
    requires LayoutMorphism.Valid(p)
    ensures padding == (p.destElements - p.sourceElements) * element && runs * RunLength(p) == p.destElements
  {
    hide LayoutMorphism.Valid, Mapped, RunLength;
    var walk := ForEachRun(p);
    runs, padding := 0, 0;
    ghost var done: nat := 0;
    PaddingZero(p);
    for i := 0 to |walk|
      invariant Tiles(walk[i..], done, p.destElements) && done <= p.destElements
      invariant padding == Padding(p, done) * element && runs == i
    {
      assert walk[i..][1..] == walk[i + 1..];
      PaddingRun(p, walk[i], walk[i].length);
      Distribute(Padding(p, done), walk[i].length, element);
      runs := runs + 1;
      if walk[i].from.None? {
        padding := padding + walk[i].length * element;
      }
      done := done + walk[i].length;
    }
    MappedCount(p);
  }

  /** The many-chunk path: each run is read across chunk boundaries straight into
      the staging slice, or zeroed. */
  method FillRuns(p: Plan, source: ChunkedSource, dst: array<byte>, lo: nat, element: nat)
      returns (runs: nat, padding: nat, chunks: nat)
    requires LayoutMorphism.Valid(p) && source.Valid() && |source.Bytes()| == p.sourceElements * element
    requires lo + p.destElements * element <= dst.Length
    modifies dst
    ensures dst[..] == Patched(old(dst[..]), lo, Arranged(p, source.Bytes(), element))
    ensures padding == (p.destElements - p.sourceElements) * element && runs * RunLength(p) == p.destElements
  {
    hide LayoutMorphism.Valid, Arranged, ArrangedByte, Faithful, Mapped, RunLength, Concat, Patched;
    ghost var whole := Arranged(p, source.Bytes(), element);
    var walk := ForEachRun(p);
    runs, padding, chunks := 0, 0, 0;
    ghost var done: nat, written: nat := 0, 0;
    assert ByteMark(0, element, 0);
    PatchNothing(dst[..], lo);
    assert whole[..0] == [];
    PaddingZero(p);
    for i := 0 to |walk|
      invariant Tiles(walk[i..], done, p.destElements) && done <= p.destElements
      invariant ByteMark(done, element, written) && written <= |whole|
      invariant dst[..] == Patched(old(dst[..]), lo, whole[..written])
      invariant padding == Padding(p, done) * element && runs == i
    {
      hide ByteMark;
      var run := walk[i];
      assert walk[i..][1..] == walk[i + 1..];
      assert Faithful(p, run);
      ghost var now := dst[..];
      var touched, zeroed, span := FillRun(p, source, dst, lo, element, run, written);
      Extend(old(dst[..]), now, dst[..], whole, lo, written, span);
      runs, chunks, padding := runs + 1, chunks + touched, padding + zeroed;
      done, written := done + run.length, written + span;
    }
    MappedCount(p);
    assert written == |whole| && whole[..written] == whole;
  }

  method FillRun(p: Plan, source: ChunkedSource, dst: array<byte>, lo: nat, element: nat, run: Run, ghost written: nat)
      returns (touched: nat, zeroed: nat, ghost moved: nat)
    requires LayoutMorphism.Valid(p) && source.Valid() && |source.Bytes()| == p.sourceElements * element
    requires Faithful(p, run) && run.length > 0
    requires lo + p.destElements * element <= dst.Length && ByteMark(run.to, element, written)
    modifies dst
    ensures run.to + run.length <= p.destElements
    ensures ByteMark(run.to + run.length, element, written + moved)
    ensures written + moved <= |Arranged(p, source.Bytes(), element)|
    ensures dst[..] == Patched(old(dst[..]), lo + written, Arranged(p, source.Bytes(), element)[written..written + moved])
    ensures Padding(p, run.to + run.length) * element == Padding(p, run.to) * element + zeroed
  {
    hide LayoutMorphism.Valid, Faithful, ArrangedByte, Mapped, ChunkedSource.Valid;
    var at, start, span := SpanOf(run, element);
    RunIsOneCopy(p, source.Bytes(), element, run, at, start, span);
    PaddingRun(p, run, run.length);
    Distribute(Padding(p, run.to), run.length, element);
    moved := span;
    touched, zeroed := 0, 0;
    if run.from.Some? {
      var outcome;
      outcome, touched := ReadAt(source, start, dst, lo + at, lo + at + span);
    } else {
      CopyInto(dst, lo + at, Zeros(span));
      zeroed := span;
    }
  }

  /** Every test fill makes before it moves a byte. */
  ghost predicate Fillable(tensor: TensorFill, sourceBytes: nat, capacity: nat) {
    && !tensor.layout.candidate && tensor.elementBytes > 0
    && PlannedByRuns(tensor.layout, tensor.shape)
    && sourceBytes == Product(tensor.shape) * tensor.elementBytes
    && tensor.deviceOffset + Product(PlanExtents(tensor.layout, tensor.shape)) * tensor.elementBytes <= capacity
  }

  /** FILL ONE TENSOR: read its chunks, arrange them, commit. */
  method Fill(source: ChunkedSource, tensor: TensorFill, sink: HostSink)
      returns (r: Result<FillStats, LayoutError>, ghost p: Plan)
    requires source.Valid() && (Fillable(tensor, |source.Bytes()|, sink.buffer.Length) ==> WellFactored(tensor.layout))
    modifies sink`pending, sink.buffer
    ensures r.Ok? <==> Fillable(tensor, |source.Bytes()|, sink.buffer.Length)
    ensures r.Err? ==> sink.buffer[..] == old(sink.buffer[..]) && sink.pending == old(sink.pending)
    ensures r.Ok? ==> Plannable(tensor.layout, tensor.shape) && Plans(tensor.layout, tensor.shape, p) && sink.pending.None?
    ensures r.Ok? ==>
      sink.buffer[..] == Patched(old(sink.buffer[..]), tensor.deviceOffset, Arranged(p, source.Bytes(), tensor.elementBytes))
    ensures r.Ok? ==>
      && r.value.sourceBytes == |source.Bytes()|
      && r.value.destinationBytes == p.destElements * tensor.elementBytes
      && r.value.paddingBytes == r.value.destinationBytes - r.value.sourceBytes
      && r.value.runs * RunLength(p) == p.destElements
  {
    hide RunLength, Plannable, Plans, PlannedByRuns, PlanByRuns, LayoutMorphism.Valid, Arranged, ArrangedByte, WellFactored;
    p := *;
    if tensor.layout.candidate {
      r := Err(Candidate);
      return;
    }
    var element := tensor.elementBytes;
    if element == 0 {
      r := Err(Buffer(0, 1));
      return;
    }
    var planned := PlanFor(tensor.layout, tensor.shape);
    if planned.Err? {
      r := Err(planned.error);
      return;
    }
    var plan := planned.value;
    p := plan;
    PlanTotals(tensor.layout, tensor.shape, plan);
    var wantSource := plan.sourceElements * element;
    if source.Len() != wantSource {
      r := Err(Buffer(source.Len(), wantSource));
      return;
    }
    var destinationBytes := plan.destElements * element;
    var staged := sink.Staging(destinationBytes, tensor.deviceOffset);
    if staged.Err? {
      r := Err(staged.error);
      return;
    }
    var (lo, hi) := staged.value;
    assert Fillable(tensor, |source.Bytes()|, sink.buffer.Length);
    PlanIsValid(tensor.layout, tensor.shape, plan);
    Distribute(plan.destElements - plan.sourceElements, plan.sourceElements, element);
    var runs, padding, chunks := 0, 0, 1;
    if |source.chunks| == 1 {
      OneChunk(source);
      var applied := Apply(plan, source.chunks[0], sink.buffer, lo, hi, element);
      runs, padding := Measure(plan, element);
    } else {
      runs, padding, chunks := FillRuns(plan, source, sink.buffer, lo, element);
    }
    sink.Commit();
    r := Ok(FillStats(wantSource, destinationBytes, padding, runs, chunks));
  }

  lemma PlanTotals(record: Record, shape: seq<nat>, p: Plan)
    requires PlannedByRuns(record, shape) && PlanByRuns(record, shape, p)
    ensures FormulasOk(record, shape)
    ensures p.sourceElements == Product(shape) && p.destElements == Product(PlanExtents(record, shape))
  {
  }

  lemma PlanIsValid(record: Record, shape: seq<nat>, p: Plan)
    requires Plannable(record, shape) && Plans(record, shape, p)
    ensures LayoutMorphism.Valid(p)
  {
  }

  lemma OneChunk(s: ChunkedSource)
    requires |s.chunks| == 1
    ensures s.Bytes() == s.chunks[0]
  {
    assert s.chunks == [s.chunks[0]];
    ConcatOne(s.chunks[0]);
  }
}
