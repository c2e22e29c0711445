/** Order-preserving removal of duplicates, as task references are merged and normalized. */
module Dedup {

  function SetOf<T>(s: seq<T>): set<T> {
    set x | x in s
  }

  ghost predicate Distinct<T(!new)>(s: seq<T>) {
    forall i, j :: 0 <= i < j < |s| ==> s[i] != s[j]
  }

  // Each value at the place of its first occurrence.
  function Deduped<T(==)>(s: seq<T>): (r: seq<T>)
  {
    if s == [] then []
    else
      var init, last := s[..|s| - 1], s[|s| - 1];
      if last in init then Deduped(init) else Deduped(init) + [last]
  }

  lemma {:induction false} DedupedMeaning<T(!new)>(s: seq<T>)
    ensures SetOf(Deduped(s)) == SetOf(s) && Distinct(Deduped(s))
    ensures Deduped(s) != [] ==> Deduped(s)[0] == s[0]
    ensures s == [] <==> Deduped(s) == []
  {
    if s != [] {
      var init, last := s[..|s| - 1], s[|s| - 1];
      DedupedMeaning(init);
      assert s == init + [last];
      assert SetOf(s) == SetOf(init) + {last};
      assert last in init <==> last in SetOf(Deduped(init));
      assert SetOf(Deduped(init) + [last]) == SetOf(Deduped(init)) + {last};
    }
  }

  // Values keep the order of their first occurrences.
  lemma {:induction false} DedupedOrder<T(!new)>(s: seq<T>, i: nat, j: nat)
    requires i < j < |Deduped(s)|
    ensures exists k, m :: 0 <= k < m < |s| && s[k] == Deduped(s)[i] && s[m] == Deduped(s)[j] && s[m] !in s[..m]
  {
    var init, last := s[..|s| - 1], s[|s| - 1];
    if j < |Deduped(init)| {
      DedupedOrder(init, i, j);
      var k, m :| 0 <= k < m < |init| && init[k] == Deduped(init)[i] && init[m] == Deduped(init)[j] && init[m] !in init[..m];
      assert s[..m] == init[..m];
      assert s[k] == Deduped(s)[i] && s[m] == Deduped(s)[j];
    } else {
      DedupedMeaning(init);
      assert Deduped(s)[i] == Deduped(init)[i] && Deduped(init)[i] in SetOf(Deduped(init));
      assert Deduped(s)[i] in init;
      var k :| 0 <= k < |init| && init[k] == Deduped(s)[i];
      assert s[|s| - 1] == Deduped(s)[j] && s[k] == Deduped(s)[i];
    }
  }

  lemma {:induction false} SetOfSmaller<T>(s: seq<T>)
    ensures |SetOf(s)| <= |s|
  {
    if s != [] {
      SetOfSmaller(s[1..]);
      assert SetOf(s) == {s[0]} + SetOf(s[1..]) by {
        assert s == [s[0]] + s[1..];
      }
    }
  }

  lemma {:induction false} SubsetSmaller<T>(a: set<T>, b: set<T>)
    requires a <= b
    ensures |a| <= |b|
  {
    if a != {} {
      var x :| x in a;
      SubsetSmaller(a - {x}, b - {x});
    }
  }

  // A sequence without one value, the rest in order.
  function Without<T(==)>(s: seq<T>, x: T): seq<T> {
    if s == [] then [] else (if s[0] != x then [s[0]] else []) + Without(s[1..], x)
  }

  lemma {:induction false} WithoutHas<T>(s: seq<T>, x: T, y: T)
    ensures y in Without(s, x) <==> y in s && y != x
  {
    if s != [] {
      WithoutHas(s[1..], x, y);
      assert s == [s[0]] + s[1..];
    }
  }

  // The loop that both task reference merging and dependency edits use.
  method Dedupe<T(==)>(values: seq<T>) returns (deduped: seq<T>)
    ensures deduped == Deduped(values)
  {
    deduped := [];
    var seen: set<T> := {};
    for i := 0 to |values|
      invariant deduped == Deduped(values[..i])
      invariant seen == SetOf(values[..i])
    {
      assert values[..i + 1][..i] == values[..i];
      if values[i] in seen {
        continue;
      }
      seen := seen + {values[i]};
      deduped := deduped + [values[i]];
    }
    assert values[..|values|] == values;
  }
}
