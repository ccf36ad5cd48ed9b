/** Deriving an endpoint's name from its model: the first free index. */
module CatalogNames {
  import opened Sequences
  import opened Strings

  function Indexed(base: string, n: nat): string {
    base + "-" + Decimal(n)
  }

  lemma IndexedInjective(base: string, m: nat, n: nat)
    requires Indexed(base, m) == Indexed(base, n)
    ensures m == n
  {
    assert Indexed(base, m)[|base| + 1..] == Decimal(m) && Indexed(base, n)[|base| + 1..] == Decimal(n);
    DecimalInjective(m, n);
  }

  /** The first index from `n` on that is free; a name once passed cannot be met again. */
  function FreeFrom(existing: set<string>, base: string, n: nat): nat
    decreases |existing|
  {
    if Indexed(base, n) !in existing then n else FreeFrom(existing - {Indexed(base, n)}, base, n + 1)
  }

  /** The index found is free, all before it are taken, and there are no more of those than names. */
  lemma {:induction false} FreeIsFirst(existing: set<string>, base: string, n: nat)
    ensures var i := FreeFrom(existing, base, n);
      && n <= i <= n + |existing| && Indexed(base, i) !in existing
      && forall k :: n <= k < i ==> Indexed(base, k) in existing
    decreases |existing|
  {
    hide Indexed;
    if Indexed(base, n) in existing {
      FreeIsFirst(existing - {Indexed(base, n)}, base, n + 1);
      var i := FreeFrom(existing, base, n);
      if Indexed(base, i) == Indexed(base, n) {
        IndexedInjective(base, i, n);
      }
    }
  }

  /** The derived name is the base, a dash and the least number from 1 on that gives a free name. */
  lemma DerivedNameExactly(existing: set<string>, base: string)
    ensures var i := FreeFrom(existing, base, 1);
      && i >= 1 && Indexed(base, i) == base + "-" + Decimal(i) && base + "-" + Decimal(i) !in existing
      && forall k :: 1 <= k < i ==> base + "-" + Decimal(k) in existing
  {
    FreeIsFirst(existing, base, 1);
    forall k | 1 <= k < FreeFrom(existing, base, 1) ensures base + "-" + Decimal(k) in existing {
      assert Indexed(base, k) in existing;
    }
  }

  method NextIndexedName(existing: set<string>, base: string) returns (name: string)
    ensures name == Indexed(base, FreeFrom(existing, base, 1))
  {
    hide Indexed;
    var n := 1;
    ghost var passed: set<string> := {};
    assert existing - passed == existing;
    while Indexed(base, n) in existing
      invariant forall s :: s in passed ==> exists k :: 1 <= k < n && Indexed(base, k) == s
      invariant FreeFrom(existing - passed, base, n) == FreeFrom(existing, base, 1)
      decreases |existing - passed|
    {
      ghost var here := Indexed(base, n);
      if here in passed {
        var k :| 1 <= k < n && Indexed(base, k) == here;
        IndexedInjective(base, k, n);
      }
      assert existing - (passed + {here}) == existing - passed - {here};
      assert Indexed(base, n) == here;
      passed := passed + {here};
      n := n + 1;
      assert existing - passed < existing - passed + {here};
    }
    name := Indexed(base, n);
  }
}
