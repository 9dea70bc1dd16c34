/**
 * Degree-of-freedom enumeration of `calculate` (frame/main.py:37-50): the
 * set of restrained (node, axis) pairs, and the tuple of active DOFs that
 * fixes the row and column order of the stiffness matrix, the load vector
 * and the solution.
 */
module Dofs {
  import opened Wrappers
  import opened Sequences
  import Iteration

  type NodeId = Iteration.Key

  datatype Axis = X | Y | Z | RX | RY | RZ

  /** `coos`: the axis order within one node. */
  const Axes: seq<Axis> := [X, Y, Z, RX, RY, RZ]

  function AxisIndex(a: Axis): (i: nat)
    ensures i < 6 && Axes[i] == a
  {
    match a
    case X => 0
    case Y => 1
    case Z => 2
    case RX => 3
    case RY => 4
    case RZ => 5
  }

  /** A degree of freedom: the pair `(node_id, coo)`. */
  datatype Dof = Dof(node: NodeId, axis: Axis)

  /** A node record; only its key takes part in the enumeration. */
  datatype Node = Node(x: real, y: real, z: real)

  /** A boundary value: Python's `True`/`False`, or a number. */
  datatype BoundValue = Flag(b: bool) | Number(r: real)

  datatype Boundary = Boundary(
    node: NodeId,
    x: BoundValue, y: BoundValue, z: BoundValue,
    rx: BoundValue, ry: BoundValue, rz: BoundValue)

  /** `bound[coo]` */
  function Restraint(b: Boundary, a: Axis): BoundValue
  {
    match a
    case X => b.x
    case Y => b.y
    case Z => b.z
    case RX => b.rx
    case RY => b.ry
    case RZ => b.rz
  }

  /**
   * `bound[coo] and isinstance(bound[coo], bool)`: only the boolean `True`
   * restrains; a truthy number such as 100 or 1 does not.
   */
  predicate Fixes(v: BoundValue)
  {
    v.Flag? && v.b
  }

  /** The pairs one boundary restrains. */
  function BoundaryFixes(b: Boundary): set<Dof>
  {
    set a | a in Axes && Fixes(Restraint(b, a)) :: Dof(b.node, a)
  }

  /** `fixed_coos`, built from `values(model['boundaries'])`. */
  function FixedDofs(bounds: seq<Boundary>): (r: set<Dof>)
    ensures forall d {:trigger d in r} :: d in r <==> exists b :: b in bounds && b.node == d.node && Fixes(Restraint(b, d.axis))
  {
    if bounds == [] then {}
    else
      var last := bounds[|bounds| - 1];
      var r := FixedDofs(bounds[..|bounds| - 1]) + BoundaryFixes(last);
      assert forall b :: b in bounds ==> b in bounds[..|bounds| - 1] || b == last;
      assert forall d: Dof :: Fixes(Restraint(last, d.axis)) && d.node == last.node ==> d in BoundaryFixes(last) by {
        forall d: Dof | Fixes(Restraint(last, d.axis)) && d.node == last.node ensures d in BoundaryFixes(last) {
          assert Axes[AxisIndex(d.axis)] == d.axis;
        }
      }
      r
  }

  /** The unrestrained pairs of node `n` among its first `i` axes, in axis order. */
  function FreeAxes(n: NodeId, fixed: set<Dof>, i: nat): (r: seq<Dof>)
    requires i <= 6
    ensures forall d {:trigger d in r} :: d in r <==> d.node == n && d !in fixed && AxisIndex(d.axis) < i
  {
    if i == 0 then []
    else
      var d := Dof(n, Axes[i - 1]);
      FreeAxes(n, fixed, i - 1) + (if d in fixed then [] else [d])
  }

  /** The free axes of a node come in axis order. */
  lemma {:induction false} FreeAxesOrdered(n: NodeId, fixed: set<Dof>, i: nat)
    requires i <= 6
    ensures forall p, q :: 0 <= p < q < |FreeAxes(n, fixed, i)| ==>
      AxisIndex(FreeAxes(n, fixed, i)[p].axis) < AxisIndex(FreeAxes(n, fixed, i)[q].axis)
  {
    if i > 0 {
      FreeAxesOrdered(n, fixed, i - 1);
      var r, prev := FreeAxes(n, fixed, i), FreeAxes(n, fixed, i - 1);
      var d := Dof(n, Axes[i - 1]);
      assert r == prev + (if d in fixed then [] else [d]);
      forall p, q | 0 <= p < q < |r| ensures AxisIndex(r[p].axis) < AxisIndex(r[q].axis) {
        if q < |prev| {
          assert r[p] == prev[p] && r[q] == prev[q];
          assert AxisIndex(prev[p].axis) < AxisIndex(prev[q].axis);
        } else {
          assert r == prev + [d] && r[q] == d;
          assert r[p] == prev[p] && prev[p] in prev;
          assert AxisIndex(prev[p].axis) < i - 1;
          assert AxisIndex(d.axis) == i - 1;
        }
      }
    }
  }

  /** `coo_indexes`: node order crossed with axis order, restrained pairs left out. */
  function ActiveDofs(keys: seq<NodeId>, fixed: set<Dof>): (r: seq<Dof>)
    ensures forall d {:trigger d in r} :: d in r <==> d.node in keys && d !in fixed
  {
    if keys == [] then []
    else
      var r := ActiveDofs(keys[..|keys| - 1], fixed) + FreeAxes(keys[|keys| - 1], fixed, 6);
      assert forall m :: m in keys ==> m in keys[..|keys| - 1] || m == keys[|keys| - 1];
      r
  }

  /** `coo_indexes` of a model. */
  function EnumerateDofs(nodes: Iteration.Coll<Node>, bounds: Iteration.Coll<Boundary>): seq<Dof>
  {
    ActiveDofs(Iteration.Keys(nodes), FixedDofs(Iteration.Values(bounds)))
  }

  /**
   * Where the enumeration places a DOF: six slots per node, in key order,
   * then axis order; -1 for a DOF on no listed node.
   */
  function Rank(keys: seq<NodeId>, d: Dof): int
  {
    match IndexOf(keys, d.node)
    case Some(i) => 6 * i + AxisIndex(d.axis)
    case None => -1
  }

  /** The ranks strictly increase along `r`. */
  ghost predicate RankOrdered(keys: seq<NodeId>, r: seq<Dof>)
  {
    forall p, q :: 0 <= p < q < |r| ==> Rank(keys, r[p]) < Rank(keys, r[q])
  }

  /**
   * With distinct node keys the active DOFs come strictly in node order
   * and, within a node, in the order x, y, z, rx, ry, rz.
   */
  lemma {:induction false} ActiveDofsOrdered(keys: seq<NodeId>, fixed: set<Dof>)
    requires NoDup(keys)
    ensures RankOrdered(keys, ActiveDofs(keys, fixed))
  {
    if keys != [] {
      var ks, n := keys[..|keys| - 1], keys[|keys| - 1];
      assert NoDup(ks);
      ActiveDofsOrdered(ks, fixed);
      var a, f := ActiveDofs(ks, fixed), FreeAxes(n, fixed, 6);
      assert keys == ks + [n];
      assert n !in ks;
      var r: seq<Dof> := a + f;
      assert ActiveDofs(keys, fixed) == r;
      forall p, q | 0 <= p < q < |r|
        ensures Rank(keys, r[p]) < Rank(keys, r[q])
      {
        OrderedStep(keys, ks, n, fixed, r, p, q);
      }
      assert RankOrdered(keys, r);
    }
  }

  /** The inductive step of `ActiveDofsOrdered`: appending one new node keeps the ranks increasing. */
  lemma OrderedStep(keys: seq<NodeId>, ks: seq<NodeId>, n: NodeId, fixed: set<Dof>, r: seq<Dof>, p: nat, q: nat)
    requires keys == ks + [n] && n !in ks
    requires RankOrdered(ks, ActiveDofs(ks, fixed))
    requires r == ActiveDofs(ks, fixed) + FreeAxes(n, fixed, 6)
    requires p < q < |r|
    ensures Rank(keys, r[p]) < Rank(keys, r[q])
  {
    var a, f := ActiveDofs(ks, fixed), FreeAxes(n, fixed, 6);
    FreeAxesOrdered(n, fixed, 6);
    var dp, dq := r[p], r[q];
    if p < |a| {
      assert dp == a[p] && dp in a && dp.node in ks;
      IndexOfConcat(ks, [n], dp.node);
    } else {
      assert dp == f[p - |a|] && dp in f && dp.node == n;
      IndexOfConcat(ks, [n], n);
    }
    if q < |a| {
      assert dq == a[q] && dq in a && dq.node in ks;
      IndexOfConcat(ks, [n], dq.node);
    } else {
      assert dq == f[q - |a|] && dq in f && dq.node == n;
      IndexOfConcat(ks, [n], n);
    }
    if q < |a| {
      assert Rank(ks + [n], dp) == Rank(ks, dp) && Rank(ks + [n], dq) == Rank(ks, dq);
    } else if p < |a| {
      assert Rank(ks + [n], dp) == Rank(ks, dp) < 6 * |ks|;
    } else {
      assert dp == f[p - |a|] && dq == f[q - |a|];
    }
  }

  /** With distinct node keys no DOF is enumerated twice. */
  lemma ActiveDofsDistinct(keys: seq<NodeId>, fixed: set<Dof>)
    requires NoDup(keys)
    ensures NoDup(ActiveDofs(keys, fixed))
  {
    ActiveDofsOrdered(keys, fixed);
  }

  /** `coo_indexes.index(coo_indexes[k]) == k`: the index lookup inverts the enumeration. */
  lemma ActiveDofsIndexInverts(keys: seq<NodeId>, fixed: set<Dof>, k: nat)
    requires NoDup(keys) && k < |ActiveDofs(keys, fixed)|
    ensures IndexOf(ActiveDofs(keys, fixed), ActiveDofs(keys, fixed)[k]) == Some(k)
  {
    ActiveDofsDistinct(keys, fixed);
    IndexOfInverts(ActiveDofs(keys, fixed), k);
  }

  /** The DOFs of node `n` on its first `i` axes. */
  function AxesUpTo(n: NodeId, i: nat): (r: set<Dof>)
    requires i <= 6
    ensures forall d {:trigger d in r} :: d in r <==> d.node == n && AxisIndex(d.axis) < i
  {
    if i == 0 then {}
    else
      var r := AxesUpTo(n, i - 1) + {Dof(n, Axes[i - 1])};
      assert forall a :: AxisIndex(a) == i - 1 ==> a == Axes[i - 1];
      r
  }

  /** All six DOFs of the given nodes. */
  function DofsOn(keys: seq<NodeId>): (r: set<Dof>)
    ensures forall d {:trigger d in r} :: d in r <==> d.node in keys
  {
    if keys == [] then {}
    else
      var r := DofsOn(keys[..|keys| - 1]) + AxesUpTo(keys[|keys| - 1], 6);
      assert forall m :: m in keys ==> m in keys[..|keys| - 1] || m == keys[|keys| - 1];
      r
  }

  lemma {:induction false} FreeAxesCount(n: NodeId, fixed: set<Dof>, i: nat)
    requires i <= 6
    ensures |FreeAxes(n, fixed, i)| + |fixed * AxesUpTo(n, i)| == i
  {
    if i > 0 {
      FreeAxesCount(n, fixed, i - 1);
      var d := Dof(n, Axes[i - 1]);
      assert |FreeAxes(n, fixed, i)| == |FreeAxes(n, fixed, i - 1)| + (if d in fixed then 0 else 1);
      assert AxesUpTo(n, i) == AxesUpTo(n, i - 1) + {d};
      assert d !in AxesUpTo(n, i - 1) by {
        assert AxisIndex(d.axis) == i - 1;
      }
      RestrictAddOne(fixed, AxesUpTo(n, i - 1), d);
    }
  }

  /** Adding one new element to a set adds one restrained element exactly when it is restrained. */
  lemma RestrictAddOne(fixed: set<Dof>, s: set<Dof>, d: Dof)
    requires d !in s
    ensures |fixed * (s + {d})| == |fixed * s| + (if d in fixed then 1 else 0)
  {
    if d in fixed {
      assert fixed * (s + {d}) == fixed * s + {d};
    } else {
      assert fixed * (s + {d}) == fixed * s;
    }
  }

  /** Restricting two disjoint sets to `fixed` keeps them disjoint. */
  lemma RestrictDisjointUnion(fixed: set<Dof>, a: set<Dof>, b: set<Dof>)
    requires a !! b
    ensures |fixed * (a + b)| == |fixed * a| + |fixed * b|
  {
    assert fixed * (a + b) == fixed * a + fixed * b;
    assert (fixed * a) !! (fixed * b);
  }

  /**
   * With distinct node keys, the number of active DOFs is six per node
   * less the number of restrained pairs that lie on existing nodes
   * (pairs restrained twice, or on unknown nodes, count once or not at all).
   */
  lemma {:induction false} ActiveDofsCount(keys: seq<NodeId>, fixed: set<Dof>)
    requires NoDup(keys)
    ensures |ActiveDofs(keys, fixed)| == 6 * |keys| - |fixed * DofsOn(keys)|
  {
    if keys != [] {
      var ks, n := keys[..|keys| - 1], keys[|keys| - 1];
      assert NoDup(ks);
      ActiveDofsCount(ks, fixed);
      FreeAxesCount(n, fixed, 6);
      var own := AxesUpTo(n, 6);
      assert |ActiveDofs(keys, fixed)| == |ActiveDofs(ks, fixed)| + |FreeAxes(n, fixed, 6)|;
      assert DofsOn(keys) == DofsOn(ks) + own;
      assert DofsOn(ks) !! own by {
        assert n !in ks;
      }
      RestrictDisjointUnion(fixed, DofsOn(ks), own);
    }
  }

  /** The restraints of the first boundary of frame/tests/test_main.py:10. */
  const TestBoundary1 := Boundary(1, Number(100.0), Number(0.0), Flag(false), Number(-15.0), Flag(true), Flag(false))
  /** The restraints of the second boundary of frame/tests/test_main.py:10. */
  const TestBoundary0 := Boundary(0, Number(0.0), Number(0.0), Flag(true), Flag(false), Flag(false), Number(1.0))

  /**
   * Of the test boundaries, the numbers 100, -15, 1 and 0 and `False` leave
   * their DOFs free: only (1, ry) and (0, z) are restrained.
   */
  lemma TestRestraints()
    ensures FixedDofs([TestBoundary1, TestBoundary0]) == {Dof(1, RY), Dof(0, Z)}
  {
    forall d: Dof ensures d in FixedDofs([TestBoundary1, TestBoundary0]) <==> d in {Dof(1, RY), Dof(0, Z)} {
      assert (exists b :: b in [TestBoundary1, TestBoundary0] && b.node == d.node && Fixes(Restraint(b, d.axis)))
        <==> (d.node == 1 && Fixes(Restraint(TestBoundary1, d.axis))) || (d.node == 0 && Fixes(Restraint(TestBoundary0, d.axis)));
    }
  }

  lemma ActiveDofsOfTwo(n0: NodeId, n1: NodeId, fixed: set<Dof>)
    ensures ActiveDofs([n0, n1], fixed) == FreeAxes(n0, fixed, 6) + FreeAxes(n1, fixed, 6)
  {
    assert [n0, n1][..1] == [n0] && [n0][..0] == [];
    assert ActiveDofs([n0], fixed) == FreeAxes(n0, fixed, 6);
  }

  lemma ActiveDofsOfThree(n0: NodeId, n1: NodeId, n2: NodeId, fixed: set<Dof>)
    ensures ActiveDofs([n0, n1, n2], fixed) == FreeAxes(n0, fixed, 6) + FreeAxes(n1, fixed, 6) + FreeAxes(n2, fixed, 6)
  {
    assert [n0, n1, n2][..2] == [n0, n1];
    ActiveDofsOfTwo(n0, n1, fixed);
  }

  lemma TestFreeAxes0()
    ensures FreeAxes(0, {Dof(1, RY), Dof(0, Z)}, 6) == [Dof(0, X), Dof(0, Y), Dof(0, RX), Dof(0, RY), Dof(0, RZ)]
  {
    var fixed := {Dof(1, RY), Dof(0, Z)};
    assert FreeAxes(0, fixed, 1) == [Dof(0, X)];
    assert FreeAxes(0, fixed, 2) == [Dof(0, X), Dof(0, Y)];
    assert FreeAxes(0, fixed, 3) == [Dof(0, X), Dof(0, Y)];
    assert FreeAxes(0, fixed, 4) == [Dof(0, X), Dof(0, Y), Dof(0, RX)];
    assert FreeAxes(0, fixed, 5) == [Dof(0, X), Dof(0, Y), Dof(0, RX), Dof(0, RY)];
  }

  lemma TestFreeAxes1()
    ensures FreeAxes(1, {Dof(1, RY), Dof(0, Z)}, 6) == [Dof(1, X), Dof(1, Y), Dof(1, Z), Dof(1, RX), Dof(1, RZ)]
  {
    var fixed := {Dof(1, RY), Dof(0, Z)};
    assert FreeAxes(1, fixed, 1) == [Dof(1, X)];
    assert FreeAxes(1, fixed, 2) == [Dof(1, X), Dof(1, Y)];
    assert FreeAxes(1, fixed, 3) == [Dof(1, X), Dof(1, Y), Dof(1, Z)];
    assert FreeAxes(1, fixed, 4) == [Dof(1, X), Dof(1, Y), Dof(1, Z), Dof(1, RX)];
    assert FreeAxes(1, fixed, 5) == [Dof(1, X), Dof(1, Y), Dof(1, Z), Dof(1, RX)];
  }

  lemma TestFreeAxes3()
    ensures FreeAxes(3, {Dof(1, RY), Dof(0, Z)}, 6) == [Dof(3, X), Dof(3, Y), Dof(3, Z), Dof(3, RX), Dof(3, RY), Dof(3, RZ)]
  {
    var fixed := {Dof(1, RY), Dof(0, Z)};
    assert FreeAxes(3, fixed, 1) == [Dof(3, X)];
    assert FreeAxes(3, fixed, 2) == [Dof(3, X), Dof(3, Y)];
    assert FreeAxes(3, fixed, 3) == [Dof(3, X), Dof(3, Y), Dof(3, Z)];
    assert FreeAxes(3, fixed, 4) == [Dof(3, X), Dof(3, Y), Dof(3, Z), Dof(3, RX)];
    assert FreeAxes(3, fixed, 5) == [Dof(3, X), Dof(3, Y), Dof(3, Z), Dof(3, RX), Dof(3, RY)];
  }

  /**
   * With those restraints, nodes keyed 0, 1 and 3 enumerate to the tuple
   * expected at frame/tests/test_main.py:12.
   */
  lemma TestEnumeration()
    ensures ActiveDofs([0, 1, 3], {Dof(1, RY), Dof(0, Z)}) ==
      [Dof(0, X), Dof(0, Y), Dof(0, RX), Dof(0, RY), Dof(0, RZ),
       Dof(1, X), Dof(1, Y), Dof(1, Z), Dof(1, RX), Dof(1, RZ),
       Dof(3, X), Dof(3, Y), Dof(3, Z), Dof(3, RX), Dof(3, RY), Dof(3, RZ)]
  {
    var fixed := {Dof(1, RY), Dof(0, Z)};
    TestFreeAxes0();
    TestFreeAxes1();
    TestFreeAxes3();
    ActiveDofsOfThree(0, 1, 3, fixed);
    TestEnumerationConcat();
  }

  lemma TestEnumerationConcat()
    ensures [Dof(0, X), Dof(0, Y), Dof(0, RX), Dof(0, RY), Dof(0, RZ)]
      + [Dof(1, X), Dof(1, Y), Dof(1, Z), Dof(1, RX), Dof(1, RZ)]
      + [Dof(3, X), Dof(3, Y), Dof(3, Z), Dof(3, RX), Dof(3, RY), Dof(3, RZ)] ==
      [Dof(0, X), Dof(0, Y), Dof(0, RX), Dof(0, RY), Dof(0, RZ),
       Dof(1, X), Dof(1, Y), Dof(1, Z), Dof(1, RX), Dof(1, RZ),
       Dof(3, X), Dof(3, Y), Dof(3, Z), Dof(3, RX), Dof(3, RY), Dof(3, RZ)]
  {
  }

  /** Node 0 fully restrained, node 1 restrained except on z, whose value is the number 0. */
  const TestFullyFixed0 := Boundary(0, Flag(true), Flag(true), Flag(true), Flag(true), Flag(true), Flag(true))
  const TestFreeZ1 := Boundary(1, Flag(true), Flag(true), Number(0.0), Flag(true), Flag(true), Flag(true))

  lemma TestRestraintsAllButOne()
    ensures forall d: Dof :: d in FixedDofs([TestFullyFixed0, TestFreeZ1]) <==> d.node == 0 || (d.node == 1 && d.axis != Z)
  {
    forall d: Dof ensures d in FixedDofs([TestFullyFixed0, TestFreeZ1]) <==> d.node == 0 || (d.node == 1 && d.axis != Z) {
      assert (exists b :: b in [TestFullyFixed0, TestFreeZ1] && b.node == d.node && Fixes(Restraint(b, d.axis)))
        <==> (d.node == 0 && Fixes(Restraint(TestFullyFixed0, d.axis))) || (d.node == 1 && Fixes(Restraint(TestFreeZ1, d.axis)));
    }
  }

  /** A node all of whose six DOFs are restrained contributes nothing. */
  lemma {:induction false} FreeAxesAllFixed(n: NodeId, fixed: set<Dof>, i: nat)
    requires i <= 6
    requires forall a :: Dof(n, a) in fixed
    ensures FreeAxes(n, fixed, i) == []
  {
    if i > 0 {
      FreeAxesAllFixed(n, fixed, i - 1);
      assert Dof(n, Axes[i - 1]) in fixed;
    }
  }

  lemma TestOnlyZFree(fixed: set<Dof>)
    requires forall a :: Dof(0, a) in fixed
    requires Dof(1, X) in fixed && Dof(1, Y) in fixed && Dof(1, Z) !in fixed
    requires Dof(1, RX) in fixed && Dof(1, RY) in fixed && Dof(1, RZ) in fixed
    ensures ActiveDofs([0, 1], fixed) == [Dof(1, Z)]
  {
    ActiveDofsOfTwo(0, 1, fixed);
    FreeAxesAllFixed(0, fixed, 6);
    assert FreeAxes(1, fixed, 1) == [];
    assert FreeAxes(1, fixed, 2) == [];
    assert FreeAxes(1, fixed, 3) == [Dof(1, Z)];
    assert FreeAxes(1, fixed, 4) == [Dof(1, Z)];
    assert FreeAxes(1, fixed, 5) == [Dof(1, Z)];
  }

  /**
   * The restraints of frame/tests/test_main.py:38-41 leave exactly one
   * active DOF, (1, z).
   */
  lemma TestSingleActiveDof()
    ensures ActiveDofs([0, 1], FixedDofs([TestFullyFixed0, TestFreeZ1])) == [Dof(1, Z)]
  {
    TestRestraintsAllButOne();
    TestOnlyZFree(FixedDofs([TestFullyFixed0, TestFreeZ1]));
  }

  /**
   * The restraints of frame/tests/test_main.py:10 and the node keys 0, 1, 3
   * give the tuple of test_main.py:12. The keys are the nodes' `recid`s, by
   * which that test's `effectiveCoodinates` identifies them; `calculate`
   * would key the same list by position (0, 1, 2).
   */
  lemma TestEnumerationOfModel()
    ensures ActiveDofs([0, 1, 3], FixedDofs([TestBoundary1, TestBoundary0])) ==
      [Dof(0, X), Dof(0, Y), Dof(0, RX), Dof(0, RY), Dof(0, RZ),
       Dof(1, X), Dof(1, Y), Dof(1, Z), Dof(1, RX), Dof(1, RZ),
       Dof(3, X), Dof(3, Y), Dof(3, Z), Dof(3, RX), Dof(3, RY), Dof(3, RZ)]
  {
    TestRestraints();
    TestEnumeration();
  }
}
