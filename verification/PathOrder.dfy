/** The byte order on paths, least elements, and sorted listings. */
module PathOrder {
  import opened Paths
  import opened Tfm1

  /** The order in use is the ascending byte order. */
  lemma {:induction false} BeforeIs(a: Text, b: Text)
    ensures Before(a, b) <==> Ascends(a, b)
  {
    if a == [] || b == [] {
      assert b != [] ==> a[..0] == b[..0];
    } else if a[0] != b[0] {
      assert a[..0] == b[..0];
      assert forall k | 0 < k <= |a| && k < |b| :: a[..k][0] != b[..k][0];
    } else {
      BeforeIs(a[1..], b[1..]);
      if k :| 0 <= k <= |a[1..]| && k < |b[1..]| && a[1..][..k] == b[1..][..k] && (k == |a[1..]| || a[1..][k] < b[1..][k]) {
        assert a[..k + 1] == [a[0]] + a[1..][..k] && b[..k + 1] == [b[0]] + b[1..][..k];
      }
      if k :| 0 <= k <= |a| && k < |b| && a[..k] == b[..k] && (k == |a| || a[k] < b[k]) {
        assert a[1..][..k - 1] == a[..k][1..] && b[1..][..k - 1] == b[..k][1..];
      }
    }
  }

  lemma {:induction false} Irreflexive(a: Text)
    ensures !Before(a, a)
  {
    if a != [] {
      Irreflexive(a[1..]);
    }
  }

  lemma {:induction false} Transitive(a: Text, b: Text, c: Text)
    requires Before(a, b) && Before(b, c)
    ensures Before(a, c)
  {
    if a != [] && a[0] == b[0] == c[0] {
      Transitive(a[1..], b[1..], c[1..]);
    }
  }

  lemma {:induction false} Trichotomy(a: Text, b: Text)
    ensures Before(a, b) || a == b || Before(b, a)
  {
    if a != [] && b != [] && a[0] == b[0] {
      Trichotomy(a[1..], b[1..]);
      assert a == [a[0]] + a[1..] && b == [b[0]] + b[1..];
    }
  }

  lemma Asymmetric(a: Text, b: Text)
    requires Before(a, b)
    ensures a != b && !Before(b, a)
  {
    Irreflexive(a);
    if Before(b, a) {
      Transitive(a, b, a);
    }
  }

  ghost predicate IsLeast(m: Text, s: set<Text>) { m in s && forall p | p in s :: p == m || Before(m, p) }

  /** The first path of a non-empty set. */
  method LeastOf(s: set<Text>) returns (m: Text)
    requires s != {}
    ensures IsLeast(m, s)
  {
    m :| m in s;
    var rest := s - {m};
    while rest != {}
      invariant rest <= s && m in s && forall p | p in s && p !in rest :: p == m || Before(m, p)
      decreases |rest|
    {
      var p :| p in rest;
      Trichotomy(m, p);
      if Before(p, m) {
        forall q | q in s && q !in rest && q != m ensures Before(p, q) {
          Transitive(p, m, q);
        }
        m := p;
      }
      rest := rest - {p};
    }
  }

  lemma LeastUnique(a: Text, b: Text, s: set<Text>)
    requires IsLeast(a, s) && IsLeast(b, s)
    ensures a == b
  {
    if a != b {
      Asymmetric(a, b);
    }
  }

  lemma {:induction false} LeastExists(s: set<Text>)
    requires s != {}
    ensures exists m :: IsLeast(m, s)
    decreases |s|
  {
    var p :| p in s;
    if s == {p} {
      assert IsLeast(p, s);
    } else {
      var rest := s - {p};
      assert s == rest + {p};
      LeastExists(rest);
      var m :| IsLeast(m, rest);
      Trichotomy(m, p);
      if Before(p, m) {
        forall q | q in s ensures q == p || Before(p, q) {
          if q != p && q != m { Transitive(p, m, q); }
        }
        assert IsLeast(p, s);
      } else {
        assert IsLeast(m, s);
      }
    }
  }

  ghost function Least(s: set<Text>): (m: Text)
    requires s != {}
    ensures IsLeast(m, s)
  {
    LeastExists(s);
    var m :| IsLeast(m, s);
    m
  }

  // --- sorted listings ------------------------------------------------------------------------------

  ghost predicate Sorted<E>(items: seq<Item<E>>) {
    forall i, j | 0 <= i < j < |items| :: Before(items[i].path, items[j].path)
  }

  ghost function PathsOf<E>(items: seq<Item<E>>): set<Text> { set i | 0 <= i < |items| :: items[i].path }

  /** A sorted listing of a map's entries is the only one. */
  lemma {:induction false} ListingUnique<E>(a: seq<Item<E>>, b: seq<Item<E>>, value: map<Text, E>)
    requires Sorted(a) && Sorted(b) && PathsOf(a) == PathsOf(b) == value.Keys
    requires forall i | 0 <= i < |a| :: a[i].entry == value[a[i].path]
    requires forall i | 0 <= i < |b| :: b[i].entry == value[b[i].path]
    ensures a == b
    decreases |a|
  {
    assert b != [] ==> b[0].path in PathsOf(b);
    if a == [] {
      assert PathsOf(a) == {};
    } else {
      assert a[0].path in PathsOf(b) && b != [];
      HeadIsLeast(a);
      HeadIsLeast(b);
      LeastUnique(a[0].path, b[0].path, value.Keys);
      TailPaths(a);
      TailPaths(b);
      var rest := value - {a[0].path};
      ListingUnique(a[1..], b[1..], rest);
      assert a == [a[0]] + a[1..] && b == [b[0]] + b[1..];
    }
  }

  lemma HeadIsLeast<E>(a: seq<Item<E>>)
    requires a != [] && Sorted(a)
    ensures IsLeast(a[0].path, PathsOf(a))
  {
  }

  lemma TailPaths<E>(a: seq<Item<E>>)
    requires a != [] && Sorted(a)
    ensures Sorted(a[1..]) && PathsOf(a[1..]) == PathsOf(a) - {a[0].path}
  {
    forall i | 0 < i < |a| ensures a[i].path != a[0].path {
      Asymmetric(a[0].path, a[i].path);
    }
    forall p | p in PathsOf(a) - {a[0].path} ensures p in PathsOf(a[1..]) {
      var i :| 0 <= i < |a| && a[i].path == p;
      assert a[1..][i - 1].path == p;
    }
    forall i | 0 <= i < |a[1..]| ensures a[1..][i] == a[i + 1] {}
  }
}
