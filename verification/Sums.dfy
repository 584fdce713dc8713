/** Sums of an integer function over a finite set. */
module Sums {

  ghost function SumOver<K(!new)>(s: set<K>, f: K -> int): int
  {
    if s == {} then 0 else var k :| k in s; f(k) + SumOver(s - {k}, f)
  }

  /** Any element can be taken out first. */
  lemma {:induction false} SumRemove<K(!new)>(s: set<K>, f: K -> int, k: K)
    requires k in s
    ensures SumOver(s, f) == f(k) + SumOver(s - {k}, f)
  {
    var first :| first in s && SumOver(s, f) == f(first) + SumOver(s - {first}, f);
    if first != k {
      SumRemove(s - {first}, f, k);
      SumRemove(s - {k}, f, first);
      assert s - {first} - {k} == s - {k} - {first};
    }
  }

  lemma {:induction false} SumSame<K(!new)>(s: set<K>, f: K -> int, g: K -> int)
    requires forall k | k in s :: f(k) == g(k)
    ensures SumOver(s, f) == SumOver(s, g)
  {
    if s != {} {
      var k :| k in s;
      SumRemove(s, f, k);
      SumRemove(s, g, k);
      SumSame(s - {k}, f, g);
    }
  }

  lemma SumAdd<K(!new)>(s: set<K>, f: K -> int, k: K)
    requires k !in s
    ensures SumOver(s + {k}, f) == f(k) + SumOver(s, f)
  {
    SumRemove(s + {k}, f, k);
    assert s + {k} - {k} == s;
  }

  /** Functions that agree except at one key differ by the difference there. */
  lemma SumChange<K(!new)>(s: set<K>, f: K -> int, g: K -> int, k: K)
    requires k in s && forall x | x in s && x != k :: f(x) == g(x)
    ensures SumOver(s, g) - SumOver(s, f) == g(k) - f(k)
  {
    SumRemove(s, f, k);
    SumRemove(s, g, k);
    SumSame(s - {k}, f, g);
  }

  /** A sum of non-negative terms is at least each of them. */
  lemma {:induction false} SumAtLeast<K(!new)>(s: set<K>, f: K -> int)
    requires forall k | k in s :: f(k) >= 0
    ensures SumOver(s, f) >= 0
    ensures forall k | k in s :: SumOver(s, f) >= f(k)
  {
    if s != {} {
      forall k | k in s ensures SumOver(s, f) >= f(k) {
        SumRemove(s, f, k);
        SumAtLeast(s - {k}, f);
      }
      var k :| k in s;
      assert SumOver(s, f) >= f(k);
    }
  }
}
