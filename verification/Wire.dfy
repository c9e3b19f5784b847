/** Little-endian integers and the cursor both binary formats read through. */
module Wire {
  import opened Wrappers

  const U32 := 0x1_0000_0000

  function Pow256(width: nat): (p: nat)
    ensures p >= 1
  {
    if width == 0 then 1 else 256 * Pow256(width - 1)
  }

  function Le(n: nat, width: nat): (b: Bytes)
    ensures |b| == width
  {
    if width == 0 then [] else [n % 256] + Le(n / 256, width - 1)
  }

  function FromLe(b: Bytes): (n: nat)
    ensures n < Pow256(|b|)
  {
    if b == [] then 0 else b[0] + 256 * FromLe(b[1..])
  }

  lemma {:induction false} FromLeLe(n: nat, width: nat)
    requires n < Pow256(width)
    ensures FromLe(Le(n, width)) == n
  {
    if width > 0 {
      FromLeLe(n / 256, width - 1);
      assert Le(n, width)[1..] == Le(n / 256, width - 1);
    }
  }

  lemma {:induction false} LeFromLe(b: Bytes)
    ensures Le(FromLe(b), |b|) == b
  {
    if b != [] {
      var high := FromLe(b[1..]);
      LeFromLe(b[1..]);
      LowByte(b[0] as nat, high);
      assert FromLe(b) == b[0] as nat + 256 * high;
      assert Le(FromLe(b), |b|) == [b[0]] + Le(high, |b| - 1);
      assert b == [b[0]] + b[1..];
    }
  }

  lemma LowByte(low: nat, high: nat)
    requires low < 256
    ensures (low + 256 * high) % 256 == low && (low + 256 * high) / 256 == high
  {
  }

  lemma Widths()
    ensures Pow256(4) == U32 && Pow256(8) == U64
  {
    assert Pow256(2) == 65536;
    assert Pow256(4) == 256 * (256 * Pow256(2));
    assert Pow256(6) == 256 * (256 * Pow256(4));
  }

  /** `take`: the next `count` bytes, and what follows them. */
  function Take(rest: Bytes, count: nat): Option<(Bytes, Bytes)> {
    if count <= |rest| then Some((rest[..count], rest[count..])) else None
  }

  function TakeLe(rest: Bytes, width: nat): Option<(nat, Bytes)> {
    var (b, tail) :- Take(rest, width);
    Some((FromLe(b), tail))
  }

  lemma TakeIs(rest: Bytes, head: Bytes, tail: Bytes)
    requires rest == head + tail
    ensures Take(rest, |head|) == Some((head, tail))
  {
  }

  lemma TakeSound(rest: Bytes, count: nat)
    requires Take(rest, count).Some?
    ensures |Take(rest, count).value.0| == count && rest == Take(rest, count).value.0 + Take(rest, count).value.1
  {
  }

  lemma TakeLeIs(rest: Bytes, n: nat, width: nat, tail: Bytes)
    requires rest == Le(n, width) + tail && n < Pow256(width)
    ensures TakeLe(rest, width) == Some((n, tail))
  {
    TakeIs(rest, Le(n, width), tail);
    FromLeLe(n, width);
  }

  lemma TakeLeSound(rest: Bytes, width: nat)
    requires TakeLe(rest, width).Some?
    ensures TakeLe(rest, width).value.0 < Pow256(width)
    ensures rest == Le(TakeLe(rest, width).value.0, width) + TakeLe(rest, width).value.1
  {
    TakeSound(rest, width);
    LeFromLe(rest[..width]);
  }

  /** A byte string read from the front. */
  class Reader {
    const bytes: Bytes
    var position: nat

    ghost predicate Valid()
      reads this
    {
      position <= |bytes|
    }

    function Rest(): Bytes
      requires position <= |bytes|
      reads this
    {
      bytes[position..]
    }

    constructor (input: Bytes)
      ensures Valid() && Rest() == input
    {
      bytes, position := input, 0;
    }

    method TakeBytes(count: nat) returns (r: Option<Bytes>)
      requires Valid()
      modifies this
      ensures Valid()
      ensures Take(old(Rest()), count) == if r.Some? then Some((r.value, Rest())) else None
      ensures r.Some? ==> |r.value| == count
    {
      if count > |bytes| - position {
        return None;
      }
      assert bytes[position..position + count] == Rest()[..count] && bytes[position + count..] == Rest()[count..];
      r := Some(bytes[position..position + count]);
      position := position + count;
    }

    method TakeInt(width: nat) returns (r: Option<nat>)
      requires Valid()
      modifies this
      ensures Valid()
      ensures TakeLe(old(Rest()), width) == if r.Some? then Some((r.value, Rest())) else None
      ensures r.Some? ==> r.value < Pow256(width)
    {
      var b := TakeBytes(width);
      return if b.Some? then Some(FromLe(b.value)) else None;
    }

    function Remaining(): nat
      requires position <= |bytes|
      reads this
    {
      |bytes| - position
    }
  }
}
