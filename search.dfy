/**
 * The search every resolver and handler in the repository repeats: a range
 * loop over a slice that stops at the first element whose id equals the
 * requested one.
 */
module Search {
  import opened Wrappers

  /** Position of the first element whose key is `k`; None when there is none. */
  function IndexOf<T, K(==)>(s: seq<T>, key: T -> K, k: K): (r: Option<nat>)
    ensures r.Some? ==> r.value < |s| && key(s[r.value]) == k
    ensures r.Some? ==> forall j :: 0 <= j < r.value ==> key(s[j]) != k
    ensures r.None? <==> forall j :: 0 <= j < |s| ==> key(s[j]) != k
  {
    if s == [] then None
    else if key(s[0]) == k then Some(0)
    else match IndexOf(s[1..], key, k)
      case Some(i) => Some(i + 1)
      case None => None
  }

  /** An appended element whose key no earlier element has is found at the end. */
  lemma IndexOfAppendFresh<T, K>(s: seq<T>, x: T, key: T -> K, k: K)
    requires forall j :: 0 <= j < |s| ==> key(s[j]) != k
    requires key(x) == k
    ensures IndexOf(s + [x], key, k) == Some(|s|)
  {
    var r := s + [x];
    forall j | 0 <= j < |s|
      ensures key(r[j]) != k
    {
      assert r[j] == s[j];
    }
    assert r[|s|] == x;
  }

  /** Appending never changes the answer for a key an earlier element already has. */
  lemma IndexOfAppendOlder<T, K>(s: seq<T>, x: T, key: T -> K, k: K)
    requires IndexOf(s, key, k).Some?
    ensures IndexOf(s + [x], key, k) == IndexOf(s, key, k)
  {
    var i := IndexOf(s, key, k).value;
    var r := s + [x];
    assert r[i] == s[i];
    forall j | 0 <= j < i
      ensures key(r[j]) != k
    {
      assert r[j] == s[j];
    }
  }
}
