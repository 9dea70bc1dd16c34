/** Linear search over a sequence, the model of Python's `tuple.index`. */
module Sequences {
  import opened Wrappers

  /** No element occurs twice. */
  ghost predicate NoDup<T>(s: seq<T>)
  {
    forall i, j :: 0 <= i < j < |s| ==> s[i] != s[j]
  }

  /**
   * `s.index(x)`: the position of the first occurrence of `x`, or `None`
   * where Python raises `ValueError`.
   */
  function IndexOf<T(==)>(s: seq<T>, x: T): (r: Option<nat>)
    ensures r.None? <==> x !in s
    ensures r.Some? ==> r.value < |s| && s[r.value] == x && x !in s[..r.value]
  {
    if s == [] then None
    else if s[0] == x then Some(0)
    else
      match IndexOf(s[1..], x)
      case None => None
      case Some(i) =>
        assert s[1..][..i] == s[1..i + 1];
        Some(i + 1)
  }

  /** In a sequence without repetitions, `index` inverts indexing. */
  lemma IndexOfInverts<T>(s: seq<T>, k: nat)
    requires NoDup(s) && k < |s|
    ensures IndexOf(s, s[k]) == Some(k)
  {
  }

  /** The first occurrence of `x` is the only position `index` can report. */
  lemma IndexOfFirst<T>(s: seq<T>, x: T, i: nat)
    requires i < |s| && s[i] == x && x !in s[..i]
    ensures IndexOf(s, x) == Some(i)
  {
    var j := IndexOf(s, x).value;
    assert forall k :: 0 <= k < j ==> s[..j][k] == s[k];
    assert forall k :: 0 <= k < i ==> s[..i][k] == s[k];
  }

  /** Searching a concatenation finds an element of the first part where it is there. */
  lemma IndexOfConcat<T>(s: seq<T>, t: seq<T>, x: T)
    ensures x in s ==> IndexOf(s + t, x) == IndexOf(s, x)
    ensures x !in s && x in t ==> IndexOf(s + t, x) == Some(|s| + IndexOf(t, x).value)
  {
    if x in s {
      var i := IndexOf(s, x).value;
      assert (s + t)[..i] == s[..i];
      IndexOfFirst(s + t, x, i);
    } else if x in t {
      var i := IndexOf(t, x).value;
      assert (s + t)[..|s| + i] == s + t[..i];
      IndexOfFirst(s + t, x, |s| + i);
    }
  }
}
