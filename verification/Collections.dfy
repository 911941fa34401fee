/** Small things that several modules use: an option type, lists without repetition, and two ways of taking
    an entry out of a list. */
module Collections {

  datatype Option<+T> = None | Some(value: T)

  ghost predicate Distinct<T>(list: seq<T>) { forall i, j :: 0 <= i < j < |list| ==> list[i] != list[j] }

  /** The list without an entry, in the same order. */
  function Without<T(==)>(list: seq<T>, x: T): seq<T> {
    if list == [] then []
    else if list[0] == x then Without(list[1..], x)
    else [list[0]] + Without(list[1..], x)
  }

  lemma WithoutIn<T>(list: seq<T>, x: T)
    ensures forall y :: y in Without(list, x) <==> y in list && y != x
  {
  }

  lemma WithoutAbsent<T>(list: seq<T>, x: T)
    requires x !in list
    ensures Without(list, x) == list
  {
  }

  lemma WithoutDistinct<T>(list: seq<T>, x: T)
    requires Distinct(list)
    ensures Distinct(Without(list, x))
  {
    if list != [] {
      assert Distinct(list[1..]);
      WithoutDistinct(list[1..], x);
      WithoutIn(list[1..], x);
      assert list[0] !in list[1..];
    }
  }

  lemma DistinctConcat<T>(a: seq<T>, b: seq<T>)
    requires Distinct(a) && Distinct(b) && forall x :: x in a ==> x !in b
    ensures Distinct(a + b)
  {
    var all := a + b;
    forall i, j | 0 <= i < j < |all|
      ensures all[i] != all[j]
    {
      if i < |a| && j >= |a| { assert all[i] in a && all[j] in b; }
    }
  }

  function IndexOf<T(==)>(list: seq<T>, x: T): (i: nat)
    requires x in list
    ensures i < |list| && list[i] == x
  {
    if list[0] == x then 0 else 1 + IndexOf(list[1..], x)
  }

  /** Takes out the entry at an index; the last one comes into its place. */
  function SwapRemove<T>(list: seq<T>, i: nat): seq<T>
    requires i < |list|
  {
    if i == |list| - 1 then list[..i] else list[..i] + [list[|list| - 1]] + list[i + 1..|list| - 1]
  }

  /** Exactly one entry goes, none comes twice, and those before it stay in place. */
  lemma SwapRemoved<T>(list: seq<T>, i: nat)
    requires i < |list| && Distinct(list)
    ensures Distinct(SwapRemove(list, i)) && SwapRemove(list, i)[..i] == list[..i]
    ensures forall x :: x in SwapRemove(list, i) <==> x in list && x != list[i]
  {
    var r, last := SwapRemove(list, i), list[|list| - 1];
    if i < |list| - 1 {
      var tail := list[i + 1..|list| - 1];
      assert list == list[..i] + [list[i]] + tail + [last];
      assert list[i] !in list[..i] && list[i] !in tail && list[i] != last;
      assert forall x :: x in r <==> x in list[..i] || x == last || x in tail;
      forall j, k | 0 <= j < k < |r|
        ensures r[j] != r[k]
      {
        assert r[j] == (if j == i then last else list[j]) && r[k] == (if k == i then last else list[k]);
      }
    } else {
      assert list == list[..i] + [list[i]];
      assert list[i] !in list[..i];
    }
  }
}
