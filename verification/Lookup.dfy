/** Dictionaries built from a sequence: the last element under a key wins. */
module Lookup {
  import opened Domain

  /** The last element with a key, as a dictionary built from the sequence would hold it. */
  function LastBy<T, K(==)>(key: T -> K, s: seq<T>, id: K): Option<T> {
    if s == [] then None
    else if key(s[|s| - 1]) == id then Some(s[|s| - 1])
    else LastBy(key, s[..|s| - 1], id)
  }

  lemma {:induction false} LastByIsLast<T, K>(key: T -> K, s: seq<T>, id: K)
    ensures LastBy(key, s, id).None? <==> forall k :: 0 <= k < |s| ==> key(s[k]) != id
    ensures LastBy(key, s, id).Some? ==>
              exists k :: 0 <= k < |s| && s[k] == LastBy(key, s, id).value && key(s[k]) == id
                          && forall l :: k < l < |s| ==> key(s[l]) != id
  {
    if s != [] && key(s[|s| - 1]) != id {
      LastByIsLast(key, s[..|s| - 1], id);
    }
  }

  lemma {:induction false} FoundByKey<T, K>(key: T -> K, s: seq<T>, i: nat)
    requires i < |s| && forall j :: i < j < |s| ==> key(s[j]) != key(s[i])
    ensures LastBy(key, s, key(s[i])) == Some(s[i])
  {
    if i < |s| - 1 {
      FoundByKey(key, s[..|s| - 1], i);
    }
  }

  method IndexBy<T, K(==)>(key: T -> K, s: seq<T>) returns (index: map<K, T>)
    ensures forall id :: id in index <==> LastBy(key, s, id).Some?
    ensures forall id :: id in index ==> LastBy(key, s, id) == Some(index[id])
  {
    index := map[];
    for i := 0 to |s|
      invariant forall id :: id in index <==> LastBy(key, s[..i], id).Some?
      invariant forall id :: id in index ==> LastBy(key, s[..i], id) == Some(index[id])
    {
      index := index[key(s[i]) := s[i]];
      assert s[..i + 1][..i] == s[..i];
    }
    assert s[..|s|] == s;
  }
}
