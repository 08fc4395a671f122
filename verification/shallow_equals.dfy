/**
 * The shallow comparator behind the `pure` enhancer.
 *
 * Two bags are equal when they are the same bag, or when they hold the same
 * number of keys and every key of the FIRST bag reads `===`-equal in the
 * second. Keys of the second bag are never visited, and a key missing from the
 * second bag reads as `undefined` there.
 */
module ShallowEquality {
  import opened Values

  function ShallowEquals(a: Props, b: Props): (r: bool)
    ensures a == b ==> r
    ensures |a| != |b| ==> !r
    ensures r ==> forall k :: k in a ==> a[k] == Get(b, k)
  {
    if a == b then true
    else if |a| != |b| then false
    else forall k | k in a :: a[k] == Get(b, k)
  }

  /** With equal key counts the verdict is decided key by key over `a` alone. */
  lemma ShallowEqualsKeywise(a: Props, b: Props)
    requires |a| == |b|
    ensures ShallowEquals(a, b) <==> forall k :: k in a ==> a[k] == Get(b, k)
  {
  }

  /** One key holding different values in both bags makes them unequal. */
  lemma ShallowEqualsDetectsChangedValue(a: Props, b: Props, k: string)
    requires k in a && k in b && a[k] != b[k]
    ensures !ShallowEquals(a, b)
  {
  }

  /** A key that only `b` holds is never looked at: changing its value changes nothing. */
  lemma ShallowEqualsIgnoresKeysOnlyInSecond(a: Props, b: Props, k: string, v: Value)
    requires k in b && k !in a
    ensures ShallowEquals(a, b[k := v]) == ShallowEquals(a, b)
  {
    var b' := b[k := v];
    assert b'.Keys == b.Keys;
    assert a != b && a != b' by { assert k in b && k in b' && k !in a; }
    forall j | j in a ensures Get(b', j) == Get(b, j) {
      assert j != k;
    }
  }

  /** Subset of keys plus equal key counts means equal key sets. */
  lemma SameSizeSubsetKeys(a: Props, b: Props)
    requires a.Keys <= b.Keys && |a| == |b|
    ensures a.Keys == b.Keys
  {
    assert |a.Keys| == |a| && |b.Keys| == |b|;
    assert |b.Keys - a.Keys| == |b.Keys| - |a.Keys| == 0;
  }

  /**
   * When the first bag holds no `undefined`, shallow equality is exactly
   * equality of the two bags: same keys and the same value under each.
   */
  lemma ShallowEqualsIsEqualityWithoutUndefined(a: Props, b: Props)
    requires forall k :: k in a ==> a[k] != Undefined
    ensures ShallowEquals(a, b) <==> a == b
  {
    if ShallowEquals(a, b) {
      assert a.Keys <= b.Keys by {
        forall k | k in a ensures k in b {
          assert a[k] == Get(b, k) && a[k] != Undefined;
        }
      }
      SameSizeSubsetKeys(a, b);
      forall k | k in a ensures a[k] == b[k] {
        assert a[k] == Get(b, k);
      }
      assert a == b;
    }
  }

  /**
   * An `undefined` entry in the first bag matches a key the second bag lacks,
   * so bags with different key sets can compare equal, and the comparison is
   * not symmetric.
   */
  lemma UndefinedEntryMatchesMissingKey()
    ensures ShallowEquals(map["x" := Undefined], map["y" := Host(1)])
    ensures !ShallowEquals(map["y" := Host(1)], map["x" := Undefined])
  {
    var a: Props := map["x" := Undefined];
    var b: Props := map["y" := Host(1)];
    assert a.Keys == {"x"} && b.Keys == {"y"};
    assert |a| == 1 && |b| == 1;
    assert a != b by { assert "x" in a && "x" !in b; }
    assert forall k :: k in a ==> a[k] == Get(b, k);
    assert b["y"] != Get(a, "y");
  }
}
