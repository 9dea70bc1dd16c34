/**
 * The collections of a frame model and the `None`-skipping iteration
 * helpers `values`, `items` and `keys` (frame/main.py:18-34).
 *
 * A model collection is either a Python dict, whose entries keep their
 * insertion order, or a Python list, whose keys are the positions. Either
 * may hold `None` in place of a record: such a hole is skipped.
 */
module Iteration {
  import opened Wrappers

  /** Record identities; a list's keys are its positions. */
  type Key = int

  datatype Coll<V> = Dict(entries: seq<(Key, Option<V>)>) | List(elems: seq<Option<V>>)

  /** A dict never holds the same key twice. */
  ghost predicate Valid<V>(c: Coll<V>)
  {
    c.Dict? ==> forall i, j :: 0 <= i < j < |c.entries| ==> c.entries[i].0 != c.entries[j].0
  }

  /** What the helpers iterate over: `seq.items()` for a dict, `enumerate(seq)` for a list. */
  function Entries<V>(c: Coll<V>): (es: seq<(Key, Option<V>)>)
    ensures c.Dict? ==> es == c.entries
    ensures c.List? ==> |es| == |c.elems| && forall i :: 0 <= i < |es| ==> es[i] == (i, c.elems[i])
  {
    match c
    case Dict(e) => e
    case List(l) => seq(|l|, i requires 0 <= i < |l| => (i, l[i]))
  }

  /** The positions of the entries that are not `None`, in increasing order. */
  function PresentPositions<V>(es: seq<(Key, Option<V>)>): (ps: seq<nat>)
    ensures forall j :: 0 <= j < |ps| ==> ps[j] < |es| && es[ps[j]].1.Some?
    ensures forall j1, j2 :: 0 <= j1 < j2 < |ps| ==> ps[j1] < ps[j2]
    ensures forall i :: 0 <= i < |es| && es[i].1.Some? ==> i in ps
  {
    if es == [] then []
    else
      var ps := PresentPositions(es[..|es| - 1]);
      if es[|es| - 1].1.Some? then ps + [|es| - 1] else ps
  }

  /** The entries that are not `None`, unwrapped, in their original order. */
  function Present<V>(es: seq<(Key, Option<V>)>): (r: seq<(Key, V)>)
    ensures |r| == |PresentPositions(es)|
    ensures forall j :: 0 <= j < |r| ==>
      var p := PresentPositions(es)[j]; r[j] == (es[p].0, es[p].1.value)
  {
    if es == [] then []
    else
      var r := Present(es[..|es| - 1]);
      if es[|es| - 1].1.Some? then r + [(es[|es| - 1].0, es[|es| - 1].1.value)] else r
  }

  /** `items(seq)`: the key/value pairs whose value is not `None`, in iteration order. */
  function Items<V(!new)>(c: Coll<V>): (r: seq<(Key, V)>)
    ensures forall k, v :: (k, v) in r <==> (k, Some(v)) in Entries(c)
  {
    var es := Entries(c);
    var r := Present(es);
    assert forall k, v :: (k, Some(v)) in es ==> (k, v) in r by {
      forall k, v | (k, Some(v)) in es ensures (k, v) in r {
        var i :| 0 <= i < |es| && es[i] == (k, Some(v));
        var ps := PresentPositions(es);
        var j :| 0 <= j < |ps| && ps[j] == i;
        assert r[j] == (k, v);
      }
    }
    r
  }

  /** `values(seq)`: the values that are not `None`, in iteration order. */
  function Values<V(!new)>(c: Coll<V>): (r: seq<V>)
    ensures |r| == |Items(c)|
    ensures forall j :: 0 <= j < |r| ==> r[j] == Items(c)[j].1
  {
    var it := Items(c);
    seq(|it|, j requires 0 <= j < |it| => it[j].1)
  }

  /** `keys(seq)`: the keys of the entries that are not `None`, in iteration order. */
  function Keys<V(!new)>(c: Coll<V>): (r: seq<Key>)
    ensures |r| == |Items(c)|
    ensures forall j :: 0 <= j < |r| ==> r[j] == Items(c)[j].0
  {
    var it := Items(c);
    seq(|it|, j requires 0 <= j < |it| => it[j].0)
  }

  /**
   * The helpers yield exactly the entries that are not `None`, unwrapped,
   * in their original order: `Items(c)[j]` is the entry at position
   * `ps[j]`, the positions increase, and every non-`None` entry has one.
   */
  lemma ItemsAreOrderedPresentEntries<V(!new)>(c: Coll<V>)
    ensures var es, ps := Entries(c), PresentPositions(Entries(c));
      && |Items(c)| == |ps|
      && (forall j :: 0 <= j < |ps| ==>
            ps[j] < |es| && es[ps[j]].1.Some? && Items(c)[j] == (es[ps[j]].0, es[ps[j]].1.value))
      && (forall j1, j2 :: 0 <= j1 < j2 < |ps| ==> ps[j1] < ps[j2])
      && (forall i :: 0 <= i < |es| ==> (es[i].1.Some? <==> i in ps))
  {
  }

  /** A model collection's keys never repeat, so the DOF enumeration sees each node once. */
  lemma {:induction false} KeysDistinct<V(!new)>(c: Coll<V>)
    requires Valid(c)
    ensures forall j1, j2 :: 0 <= j1 < j2 < |Keys(c)| ==> Keys(c)[j1] != Keys(c)[j2]
  {
    var es, ps := Entries(c), PresentPositions(Entries(c));
    forall j1, j2 | 0 <= j1 < j2 < |Keys(c)| ensures Keys(c)[j1] != Keys(c)[j2] {
      assert Keys(c)[j1] == es[ps[j1]].0 && Keys(c)[j2] == es[ps[j2]].0;
      assert ps[j1] < ps[j2];
    }
  }

  /** The first entry stored under key `k`: `None` where a dict lookup raises `KeyError`. */
  function FindEntry<V>(es: seq<(Key, Option<V>)>, k: Key): (r: Option<Option<V>>)
    ensures r.None? <==> forall i :: 0 <= i < |es| ==> es[i].0 != k
    ensures r.Some? ==> exists i :: 0 <= i < |es| && es[i] == (k, r.value)
  {
    if es == [] then None
    else if es[0].0 == k then Some(es[0].1)
    else
      var r := FindEntry(es[1..], k);
      assert forall i :: 1 <= i < |es| ==> es[i] == es[1..][i - 1];
      r
  }

  /** The key Python actually looks up: a negative list index counts from the end. */
  function Normalize<V>(c: Coll<V>, k: Key): Key
  {
    if c.List? && k < 0 then k + |c.elems| else k
  }

  /**
   * `seq[k]` on its own: `None` where it raises (`KeyError` for a dict,
   * `IndexError` for a list), `Some(None)` for a `None` hole, which it
   * returns without raising.
   */
  function Lookup<V(!new)>(c: Coll<V>, k: Key): (r: Option<Option<V>>)
    requires Valid(c)
    ensures r.None? <==> forall i :: 0 <= i < |Entries(c)| ==> Entries(c)[i].0 != Normalize(c, k)
    ensures r.Some? ==> (Normalize(c, k), r.value) in Entries(c)
    ensures Get(c, k) == if r.Some? then r.value else None
  {
    match c
    case Dict(es) =>
      assert Entries(c) == es && Normalize(c, k) == k;
      FindEntry(es, k)
    case List(l) =>
      var i := Normalize(c, k);
      if 0 <= i < |l| then
        assert Entries(c)[i] == (i, l[i]);
        Some(l[i])
      else
        assert forall j :: 0 <= j < |Entries(c)| ==> Entries(c)[j].0 == j;
        None
  }

  /**
   * `seq[k]` followed by a use of the record: `None` where Python raises
   * (`KeyError`, `IndexError`, or `TypeError` on a `None` hole).
   */
  function Get<V(!new)>(c: Coll<V>, k: Key): (r: Option<V>)
    requires Valid(c)
    ensures forall v {:trigger (Normalize(c, k), v) in Items(c)} :: r == Some(v) <==> (Normalize(c, k), v) in Items(c)
  {
    match c
    case Dict(es) =>
      var e := FindEntry(es, k);
      if e.Some? && e.value.Some? then e.value else None
    case List(l) =>
      var i := Normalize(c, k);
      if 0 <= i < |l| then
        assert Entries(c)[i] == (i, l[i]);
        l[i]
      else
        None
  }
}
