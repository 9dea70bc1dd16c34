/**
 * The result mapping of `calculate` (frame/main.py:97-105): the solved
 * vector, one value per enumerated DOF, turned back into a dictionary
 * `node -> axis -> displacement`.
 */
module Results {
  import opened Wrappers
  import opened Sequences
  import opened Dofs

  type Displacements = map<NodeId, map<Axis, real>>

  /**
   * `R` of frame/main.py:97-102: it holds exactly the enumerated DOFs, each
   * with the value at its index in `dis`; a node appears exactly when one
   * of its DOFs is enumerated.
   */
  method MapDisplacements(coo: seq<Dof>, dis: seq<real>) returns (R: Displacements)
    requires |dis| == |coo|
    ensures forall n :: n in R <==> exists a :: Dof(n, a) in coo
    ensures forall n, a :: n in R ==> (a in R[n] <==> Dof(n, a) in coo)
    ensures forall n, a :: n in R && a in R[n] ==> R[n][a] == dis[IndexOf(coo, Dof(n, a)).value]
  {
    R := map[];
    for k := 0 to |coo|
      invariant MapsPrefix(R, coo, dis, k)
    {
      var d := coo[k];
      var nodeId, c := d.node, d.axis;
      var found := IndexOf(coo, Dof(nodeId, c));
      ghost var R0 := R;
      if nodeId in R {
        R := R[nodeId := R[nodeId][c := dis[found.value]]];
      } else {
        R := R[nodeId := map[c := dis[found.value]]];
      }
      MapsPrefixStep(R0, R, coo, dis, k);
    }
    assert coo[..|coo|] == coo;
    assert NodesPrefix(R, coo) && AxesPrefix(R, coo) && ValuesFrom(R, coo, dis);
  }

  /** `R` holds exactly the first `k` enumerated DOFs, each with its value in `dis`. */
  ghost predicate MapsPrefix(R: Displacements, coo: seq<Dof>, dis: seq<real>, k: nat)
    requires |dis| == |coo| && k <= |coo|
  {
    NodesPrefix(R, coo[..k]) && AxesPrefix(R, coo[..k]) && ValuesFrom(R, coo, dis)
  }

  /** The nodes of `R` are those of the DOFs in `ds`. */
  ghost predicate NodesPrefix(R: Displacements, ds: seq<Dof>)
  {
    forall n :: n in R <==> exists a :: Dof(n, a) in ds
  }

  /** The axes of each node of `R` are those of its DOFs in `ds`. */
  ghost predicate AxesPrefix(R: Displacements, ds: seq<Dof>)
  {
    forall n, a :: n in R ==> (a in R[n] <==> Dof(n, a) in ds)
  }

  /** Every stored value is the one `dis` holds at the DOF's index in `coo`. */
  ghost predicate ValuesFrom(R: Displacements, coo: seq<Dof>, dis: seq<real>)
    requires |dis| == |coo|
  {
    forall n, a :: n in R && a in R[n] ==> Dof(n, a) in coo && R[n][a] == dis[IndexOf(coo, Dof(n, a)).value]
  }

  /** Storing the `k`-th DOF's value extends the mapping to the first `k + 1` DOFs. */
  lemma MapsPrefixStep(R: Displacements, R': Displacements, coo: seq<Dof>, dis: seq<real>, k: nat)
    requires |dis| == |coo| && k < |coo| && MapsPrefix(R, coo, dis, k)
    requires R' == if coo[k].node in R then R[coo[k].node := R[coo[k].node][coo[k].axis := dis[IndexOf(coo, coo[k]).value]]]
                   else R[coo[k].node := map[coo[k].axis := dis[IndexOf(coo, coo[k]).value]]]
    ensures MapsPrefix(R', coo, dis, k + 1)
  {
    var d := coo[k];
    var v := dis[IndexOf(coo, d).value];
    assert coo[..k + 1] == coo[..k] + [d];
    NodesStep(R, R', coo[..k], d, v);
    AxesStep(R, R', coo[..k], d, v);
    ValuesStep(R, R', coo, dis, d);
  }

  lemma NodesStep(R: Displacements, R': Displacements, ds: seq<Dof>, d: Dof, v: real)
    requires NodesPrefix(R, ds)
    requires R' == if d.node in R then R[d.node := R[d.node][d.axis := v]] else R[d.node := map[d.axis := v]]
    ensures NodesPrefix(R', ds + [d])
  {
    forall n ensures n in R' <==> exists a :: Dof(n, a) in ds + [d] {
      if n == d.node {
        assert Dof(n, d.axis) in ds + [d];
      } else {
        assert forall a :: Dof(n, a) in ds + [d] <==> Dof(n, a) in ds;
      }
    }
  }

  lemma AxesStep(R: Displacements, R': Displacements, ds: seq<Dof>, d: Dof, v: real)
    requires NodesPrefix(R, ds) && AxesPrefix(R, ds)
    requires R' == if d.node in R then R[d.node := R[d.node][d.axis := v]] else R[d.node := map[d.axis := v]]
    ensures AxesPrefix(R', ds + [d])
  {
    forall n, a | n in R' ensures a in R'[n] <==> Dof(n, a) in ds + [d] {
      assert Dof(n, a) in ds + [d] <==> Dof(n, a) in ds || Dof(n, a) == d;
    }
  }

  lemma ValuesStep(R: Displacements, R': Displacements, coo: seq<Dof>, dis: seq<real>, d: Dof)
    requires |dis| == |coo| && d in coo && ValuesFrom(R, coo, dis)
    requires R' == if d.node in R then R[d.node := R[d.node][d.axis := dis[IndexOf(coo, d).value]]]
                   else R[d.node := map[d.axis := dis[IndexOf(coo, d).value]]]
    ensures ValuesFrom(R', coo, dis)
  {
    assert Dof(d.node, d.axis) == d;
  }

  /**
   * With the enumeration of `calculate`, a node is in the result exactly
   * when it is a model node with at least one unrestrained axis.
   */
  lemma ResultNodes(keys: seq<NodeId>, fixed: set<Dof>, n: NodeId)
    ensures (exists a :: Dof(n, a) in ActiveDofs(keys, fixed)) <==> n in keys && exists a :: Dof(n, a) !in fixed
  {
    if n in keys && exists a :: Dof(n, a) !in fixed {
      var a :| Dof(n, a) !in fixed;
      assert Dof(n, a) in ActiveDofs(keys, fixed);
    }
  }
}
