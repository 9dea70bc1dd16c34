/**
 * Load-vector accumulation of `calculate` (frame/main.py:87-95) and of
 * `frame_calculate` (frame/main.py:124-129): every load component on an
 * active DOF is added, in place, into a zero vector at that DOF's index.
 */
module Loads {
  import opened Wrappers
  import opened Sequences
  import opened Dofs
  import opened Scatter

  /** A record of `nodeLoads`. */
  datatype NodeLoad = NodeLoad(node: NodeId, x: real, y: real, z: real, rx: real, ry: real, rz: real)

  /** `ld[coo]` */
  function Component(ld: NodeLoad, a: Axis): real
  {
    match a
    case X => ld.x
    case Y => ld.y
    case Z => ld.z
    case RX => ld.rx
    case RY => ld.ry
    case RZ => ld.rz
  }

  /** What the first `j` components of `ld` add at index `r`. */
  function ComponentsAt(ld: NodeLoad, idx: IndexMap, r: int, j: nat): real
    requires j <= 6
  {
    if j == 0 then 0.0
    else ComponentsAt(ld, idx, r, j - 1) + (if idx(Dof(ld.node, Axes[j - 1])) == r then Component(ld, Axes[j - 1]) else 0.0)
  }

  /** Entry `r` of the load vector after all of `loads` have been added. */
  function LoadAt(loads: seq<NodeLoad>, idx: IndexMap, r: int): real
  {
    if loads == [] then 0.0
    else LoadAt(loads[..|loads| - 1], idx, r) + ComponentsAt(loads[|loads| - 1], idx, r, 6)
  }

  /** The reference: the sum of the components that the loads put on DOF `d`. */
  function TotalLoad(loads: seq<NodeLoad>, d: Dof): real
  {
    if loads == [] then 0.0
    else
      var ld := loads[|loads| - 1];
      TotalLoad(loads[..|loads| - 1], d) + (if ld.node == d.node then Component(ld, d.axis) else 0.0)
  }

  /** Distinct active DOFs get distinct indices. */
  ghost predicate Injective(idx: IndexMap)
  {
    forall d1, d2 :: idx(d1) >= 0 && idx(d1) == idx(d2) ==> d1 == d2
  }

  /** `coo_indexes.index` is injective on the enumerated DOFs. */
  lemma CooIndexInjective(coo: seq<Dof>)
    ensures Injective(CooIndex(coo))
  {
    forall d1, d2 | CooIndex(coo)(d1) >= 0 && CooIndex(coo)(d1) == CooIndex(coo)(d2) ensures d1 == d2 {
      CooIndexSpec(coo, d1);
      CooIndexSpec(coo, d2);
    }
  }

  /** Of one load, only the component on `d` itself reaches the index of an active `d`. */
  lemma {:induction false} ComponentsAtActive(ld: NodeLoad, idx: IndexMap, d: Dof, j: nat)
    requires j <= 6 && idx(d) >= 0 && Injective(idx)
    ensures ComponentsAt(ld, idx, idx(d), j) == if ld.node == d.node && AxisIndex(d.axis) < j then Component(ld, d.axis) else 0.0
  {
    if j > 0 {
      ComponentsAtActive(ld, idx, d, j - 1);
      var e := Dof(ld.node, Axes[j - 1]);
      assert idx(e) == idx(d) <==> e == d;
      assert e == d <==> ld.node == d.node && AxisIndex(d.axis) == j - 1;
    }
  }

  /**
   * The entry at an active DOF's index is the total load on that DOF:
   * loads on the same DOF add up, and no other component gets there.
   */
  lemma {:induction false} LoadAtActive(loads: seq<NodeLoad>, idx: IndexMap, d: Dof)
    requires idx(d) >= 0 && Injective(idx)
    ensures LoadAt(loads, idx, idx(d)) == TotalLoad(loads, d)
  {
    if loads != [] {
      LoadAtActive(loads[..|loads| - 1], idx, d);
      ComponentsAtActive(loads[|loads| - 1], idx, d, 6);
    }
  }

  /**
   * With distinct enumerated DOFs, `b[r]` is the total load on `coo_indexes[r]`;
   * components on fixed DOFs or on unknown nodes reach no entry.
   */
  lemma LoadVectorEntries(loads: seq<NodeLoad>, coo: seq<Dof>, r: nat)
    requires NoDup(coo) && r < |coo|
    ensures LoadAt(loads, CooIndex(coo), r) == TotalLoad(loads, coo[r])
  {
    IndexOfInverts(coo, r);
    CooIndexInjective(coo);
    LoadAtActive(loads, CooIndex(coo), coo[r]);
  }

  /** A load whose node has no active DOF leaves every entry unchanged. */
  lemma DroppedLoad(loads: seq<NodeLoad>, ld: NodeLoad, idx: IndexMap, r: int)
    requires r >= 0
    requires forall a :: idx(Dof(ld.node, a)) < 0
    ensures LoadAt(loads + [ld], idx, r) == LoadAt(loads, idx, r)
  {
    assert (loads + [ld])[..|loads|] == loads;
    ComponentsAtNone(ld, idx, r, 6);
  }

  lemma {:induction false} ComponentsAtNone(ld: NodeLoad, idx: IndexMap, r: int, j: nat)
    requires j <= 6 && r >= 0
    requires forall a :: idx(Dof(ld.node, a)) < 0
    ensures ComponentsAt(ld, idx, r, j) == 0.0
  {
    if j > 0 {
      ComponentsAtNone(ld, idx, r, j - 1);
      assert idx(Dof(ld.node, Axes[j - 1])) < 0;
    }
  }

  /** Totals split over consecutive groups of loads. */
  lemma {:induction false} TotalLoadAppend(l1: seq<NodeLoad>, l2: seq<NodeLoad>, d: Dof)
    ensures TotalLoad(l1 + l2, d) == TotalLoad(l1, d) + TotalLoad(l2, d)
  {
    if l2 != [] {
      var l2' := l2[..|l2| - 1];
      TotalLoadAppend(l1, l2', d);
      assert (l1 + l2)[..|l1 + l2| - 1] == l1 + l2';
    } else {
      assert l1 + l2 == l1;
    }
  }

  /**
   * One iteration of the load loop of frame/main.py:88-95: each truthy
   * component whose DOF is enumerated is added at that DOF's index.
   */
  method AddLoad(b: array<real>, ld: NodeLoad, coo: seq<Dof>)
    requires b.Length == |coo|
    modifies b
    ensures forall r :: 0 <= r < b.Length ==> b[r] == old(b[r]) + ComponentsAt(ld, CooIndex(coo), r, 6)
  {
    ghost var idx := CooIndex(coo);
    for c := 0 to 6
      invariant forall r :: 0 <= r < b.Length ==> b[r] == old(b[r]) + ComponentsAt(ld, idx, r, c)
    {
      var coord := Axes[c];
      if Component(ld, coord) != 0.0 {
        var found := IndexOf(coo, Dof(ld.node, coord));
        if found.None? {
          continue;
        }
        var row := found.value;
        b[row] := b[row] + Component(ld, coord);
      }
    }
  }

  /**
   * `b` of `calculate`: a zero vector of length `len(coo_indexes)` into which
   * every load of `values(model['nodeLoads'])` is added.
   */
  method AssembleLoads(loads: seq<NodeLoad>, coo: seq<Dof>) returns (b: array<real>)
    ensures fresh(b) && b.Length == |coo|
    ensures forall r :: 0 <= r < |coo| ==> b[r] == LoadAt(loads, CooIndex(coo), r)
  {
    b := new real[|coo|](r => 0.0);
    for l := 0 to |loads|
      invariant forall r :: 0 <= r < |coo| ==> b[r] == LoadAt(loads[..l], CooIndex(coo), r)
    {
      assert loads[..l + 1][..l] == loads[..l];
      AddLoad(b, loads[l], coo);
    }
    assert loads[..|loads|] == loads;
  }

  /**
   * `P` of `frame_calculate` (frame/main.py:124-129): every component whose
   * index is non-negative is added, zero or not.
   */
  method AssembleDenseLoads(n: nat, loads: seq<NodeLoad>, idx: IndexMap) returns (P: array<real>)
    requires forall d :: idx(d) < n
    ensures fresh(P) && P.Length == n
    ensures forall r :: 0 <= r < n ==> P[r] == LoadAt(loads, idx, r)
  {
    P := new real[n](r => 0.0);
    for l := 0 to |loads|
      invariant forall r :: 0 <= r < n ==> P[r] == LoadAt(loads[..l], idx, r)
    {
      assert loads[..l + 1][..l] == loads[..l];
      var nodeLoad := loads[l];
      for c := 0 to 6
        invariant forall r :: 0 <= r < n ==> P[r] == LoadAt(loads[..l], idx, r) + ComponentsAt(nodeLoad, idx, r, c)
      {
        var i := idx(Dof(nodeLoad.node, Axes[c]));
        if i >= 0 {
          P[i] := P[i] + Component(nodeLoad, Axes[c]);
        }
      }
    }
    assert loads[..|loads|] == loads;
  }

  /**
   * The load of frame/tests/test_main.py:43 on a model whose only active
   * DOF is (1, z) gives the load vector [1].
   */
  lemma TestSingleLoad()
    ensures LoadAt([NodeLoad(1, 0.0, 1.0, 1.0, 0.0, 0.0, -1.0)], CooIndex([Dof(1, Z)]), 0) == 1.0
  {
    var coo := [Dof(1, Z)];
    assert coo[0] == Dof(1, Z);
    LoadVectorEntries([NodeLoad(1, 0.0, 1.0, 1.0, 0.0, 0.0, -1.0)], coo, 0);
    assert [NodeLoad(1, 0.0, 1.0, 1.0, 0.0, 0.0, -1.0)][..0] == [];
  }
}
