/** Count maps: how often each key occurs in a list. */
module CountMaps {
  function Bump(m: map<string, int>, k: string): map<string, int> {
    m[k := (if k in m then m[k] else 0) + 1]
  }

  function Tally(keys: seq<string>): map<string, int> {
    map k | k in keys :: multiset(keys)[k]
  }

  /** The running map of a counting loop is the tally of the keys seen so far. */
  lemma BumpIsTally(keys: seq<string>, k: string)
    ensures Bump(Tally(keys), k) == Tally(keys + [k])
  {
    assert multiset(keys + [k]) == multiset(keys) + multiset{k};
    assert k !in keys ==> multiset(keys)[k] == 0;
  }

  lemma TallyIsPositive(keys: seq<string>)
    ensures forall k <- Tally(keys) :: Tally(keys)[k] > 0
  {
  }

  ghost function Sum(m: map<string, int>): int
    decreases |m|
  {
    if m == map[] then 0
    else
      var k :| k in m;
      m[k] + Sum(m - {k})
  }

  lemma {:induction false} SumSplits(m: map<string, int>, k: string)
    requires k in m
    ensures Sum(m) == m[k] + Sum(m - {k})
    decreases |m|
  {
    var j :| j in m && Sum(m) == m[j] + Sum(m - {j});
    if j != k {
      SumSplits(m - {j}, k);
      SumSplits(m - {k}, j);
      assert m - {j} - {k} == m - {k} - {j};
    }
  }

  lemma SumBump(m: map<string, int>, k: string)
    ensures Sum(Bump(m, k)) == Sum(m) + 1
  {
    SumSplits(Bump(m, k), k);
    if k in m {
      SumSplits(m, k);
      assert Bump(m, k) - {k} == m - {k};
    } else {
      assert Bump(m, k) - {k} == m;
    }
  }

  /** The counts of a tally sum to the number of keys. */
  lemma {:induction false} TallySum(keys: seq<string>)
    ensures Sum(Tally(keys)) == |keys|
  {
    if keys == [] {
      assert Tally(keys) == map[];
    } else {
      var front := keys[..|keys| - 1];
      assert keys == front + [keys[|keys| - 1]];
      TallySum(front);
      BumpIsTally(front, keys[|keys| - 1]);
      SumBump(Tally(front), keys[|keys| - 1]);
    }
  }

  // ---------------------------------------------------------------------------
  // Comparing count maps as the series checker does

  function Lookup(m: map<string, int>, k: string): int { if k in m then m[k] else 0 }

  /** `seriesCountMapsEqual`: a missing key reads as zero. */
  predicate CountMapsEqual(got: map<string, int>, want: map<string, int>) {
    |got| == |want| && forall k <- want :: Lookup(got, k) == want[k]
  }

  lemma SubsetOfSameSize<T>(small: set<T>, large: set<T>)
    requires small <= large && |small| == |large|
    ensures small == large
  {
    if x :| x in large && x !in small {
      var rest := large - {x};
      assert small <= rest;
      SubsetSize(small, rest);
    }
  }

  lemma {:induction false} SubsetSize<T>(small: set<T>, large: set<T>)
    requires small <= large
    ensures |small| <= |large|
  {
    if small != {} {
      var x :| x in small;
      SubsetSize(small - {x}, large - {x});
    }
  }

  lemma NonzeroCountMapsEqual(got: map<string, int>, want: map<string, int>)
    requires (forall k <- want :: want[k] != 0) && CountMapsEqual(got, want)
    ensures got == want
  {
    assert |got| == |got.Keys| && |want| == |want.Keys|;
    forall k <- want ensures k in got && got[k] == want[k] {
      assert Lookup(got, k) == want[k];
    }
    assert want.Keys <= got.Keys;
    SubsetOfSameSize(want.Keys, got.Keys);
  }

  lemma {:induction false} FreshKey(keys: set<string>) returns (unused: string)
    ensures forall k <- keys :: |k| < |unused|
  {
    if k :| k in keys {
      var shorter := FreshKey(keys - {k});
      unused := if |k| < |shorter| then shorter else k + "x";
    } else {
      unused := "";
    }
  }

  /** A map that lacks a key of `want` and has another one instead. */
  lemma ReplaceKey<V>(want: map<string, V>, k: string) returns (got: map<string, V>)
    requires k in want
    ensures |got| == |want| && k !in got && forall j <- want :: j != k ==> j in got && got[j] == want[j]
  {
    var unused := FreshKey(want.Keys);
    var rest := want - {k};
    got := rest[unused := want[k]];
    assert got.Keys == want.Keys - {k} + {unused};
    assert |got.Keys| == |want.Keys|;
    assert |got| == |got.Keys| && |want| == |want.Keys|;
  }

  /** The comparison is equality of maps exactly when no expected count is zero. */
  lemma CountMapsEqualIff(want: map<string, int>)
    ensures (forall got :: CountMapsEqual(got, want) ==> got == want) <==> forall k <- want :: want[k] != 0
  {
    if forall k <- want :: want[k] != 0 {
      forall got | CountMapsEqual(got, want) ensures got == want {
        NonzeroCountMapsEqual(got, want);
      }
    } else {
      var k :| k in want && want[k] == 0;
      var got := ReplaceKey(want, k);
      assert CountMapsEqual(got, want) && got != want;
    }
  }

  /** In particular when the expected counts are positive. */
  lemma PositiveCountMapsEqual(got: map<string, int>, want: map<string, int>)
    requires forall k <- want :: want[k] > 0
    ensures CountMapsEqual(got, want) <==> got == want
  {
    CountMapsEqualIff(want);
    assert CountMapsEqual(want, want);
  }

  /** With a zero count it is not. */
  lemma ZeroCountMapsEqual()
    ensures CountMapsEqual(map["b" := 1], map["a" := 0]) && map["b" := 1] != map["a" := 0]
  {
    assert "a"[0] != "b"[0];
    assert "b" in map["b" := 1];
  }
}
