/** Writing slices of byte buffers in place, and joining sequences. */
module Buffers {
  import opened Wrappers

  /** `s` with `bytes` written over it from `at` on. */
  function Patched(s: seq<byte>, at: nat, bytes: seq<byte>): (r: seq<byte>)
    requires at + |bytes| <= |s|
    ensures |r| == |s|
  {
    s[..at] + bytes + s[at + |bytes|..]
  }

  /** `dst[at..at + |bytes|].copy_from_slice(bytes)` */
  method CopyInto(dst: array<byte>, at: nat, bytes: seq<byte>)
    requires at + |bytes| <= dst.Length
    modifies dst
    ensures dst[..] == Patched(old(dst[..]), at, bytes)
  {
    for i := 0 to |bytes|
      invariant dst[..at] == old(dst[..at]) && dst[at + i..] == old(dst[at + i..])
      invariant dst[at..at + i] == bytes[..i]
    {
      dst[at + i] := bytes[i];
    }
  }

  /** Writing the next piece in place extends the written prefix. */
  lemma Extend(before: seq<byte>, now: seq<byte>, after: seq<byte>, whole: seq<byte>, lo: nat, at: nat, span: nat)
    requires at + span <= |whole| && lo + |whole| <= |before|
    requires now == Patched(before, lo, whole[..at])
    requires after == Patched(now, lo + at, whole[at..at + span])
    ensures after == Patched(before, lo, whole[..at + span])
  {
  }

  lemma PatchNothing(s: seq<byte>, at: nat)
    requires at <= |s|
    ensures Patched(s, at, []) == s
  {
  }

  lemma SliceOfSlice(s: seq<byte>, a: nat, b: nat, i: nat, j: nat)
    requires a <= b <= |s| && i <= j <= b - a
    ensures s[a..b][i..j] == s[a + i..a + j]
  {
    var t := s[a..b];
    assert forall k | 0 <= k < j - i :: t[i..j][k] == t[i + k] == s[a + i + k];
    assert t[i..j] == s[a + i..a + j];
  }

  lemma PrefixGrows(before: seq<byte>, after: seq<byte>, want: seq<byte>, at: nat, bytes: seq<byte>)
    requires at + |bytes| <= |before| == |want|
    requires before[..at] == want[..at] && bytes == want[at..at + |bytes|] && after == Patched(before, at, bytes)
    ensures after[..at + |bytes|] == want[..at + |bytes|]
  {
    assert want[..at + |bytes|] == want[..at] + want[at..at + |bytes|];
  }

  function Concat<T>(parts: seq<seq<T>>): seq<T> {
    if parts == [] then [] else Concat(parts[..|parts| - 1]) + parts[|parts| - 1]
  }

  lemma ConcatOne<T>(part: seq<T>)
    ensures Concat([part]) == part
  {
    assert [part][..0] == [] && [] + part == part;
  }

  lemma {:induction false} ConcatAppend<T>(a: seq<seq<T>>, b: seq<seq<T>>)
    ensures Concat(a + b) == Concat(a) + Concat(b)
  {
    if b == [] {
      assert a + b == a;
    } else {
      var init, last := b[..|b| - 1], b[|b| - 1];
      assert (a + b)[..|a + b| - 1] == a + init;
      ConcatAppend(a, init);
      assert Concat(a) + Concat(init) + last == Concat(a) + (Concat(init) + last);
    }
  }
}
