/**
 * `calculate` (frame/main.py:37-105) put together: enumerate the active
 * DOFs, scatter the member stiffness blocks into triplets, accumulate the
 * load vector, solve, and map the solution back to nodes and axes.
 *
 * `line.stiffness_global` and `spsolve` are not part of this model; they
 * are parameters, each with the one property the rest relies on.
 */
module Calculate {
  import opened Wrappers
  import opened Sequences
  import opened Iteration
  import opened Dofs
  import opened Scatter
  import opened Loads
  import opened Results

  /** A record of `lines`: its end nodes and the keys of its section and material. */
  datatype LineRecord = LineRecord(n1: NodeId, n2: NodeId, section: int, material: int)

  datatype FrameModel = FrameModel(
    nodes: Coll<Node>,
    lines: Coll<LineRecord>,
    boundaries: Coll<Boundary>,
    nodeLoads: Coll<NodeLoad>)

  /**
   * How a line end fails: `model['nodes'][key]` raises `KeyError`
   * (`IndexError` for a list) when there is no such node, and
   * `nobjs[1][c] - nobjs[0][c]` raises `TypeError` when the lookup
   * returned a `None` hole.
   */
  datatype CalcError = MissingNode(node: NodeId) | NoneNode(node: NodeId)

  /** `line.stiffness_global(*v, **s)` for a line and its end-to-end vector `v`. */
  type Stiffness = (LineRecord, real, real, real) -> seq<Block>

  /** `spsolve(a, b)` */
  type Solver = (CooMatrix, seq<real>) -> seq<real>

  /** `v` of frame/main.py:64: the second end minus the first, per coordinate. */
  function MemberVector(a: Node, b: Node): (v: (real, real, real))
    ensures a.x + v.0 == b.x && a.y + v.1 == b.y && a.z + v.2 == b.z
  {
    (b.x - a.x, b.y - a.y, b.z - a.z)
  }

  /** `model['nodes'][ln[end]]` succeeds for both ends of `ln`. */
  predicate EndsResolve(nodes: Coll<Node>, ln: LineRecord)
    requires Valid(nodes)
  {
    Get(nodes, ln.n1).Some? && Get(nodes, ln.n2).Some?
  }

  /**
   * The error of frame/main.py:63-64 for line `ln`, `None` when both ends
   * are node records. The generator of `nobjs` looks up `n1`, then `n2`;
   * only when both lookups succeed does `v` subscript `nobjs[1]` before
   * `nobjs[0]`, so a hole at `n2` is reported before one at `n1`.
   */
  function EndError(nodes: Coll<Node>, ln: LineRecord): (r: Option<CalcError>)
    requires Valid(nodes)
    ensures r.None? <==> EndsResolve(nodes, ln)
    ensures r.Some? ==> r.value.node == ln.n1 || r.value.node == ln.n2
    ensures r.Some? && r.value.MissingNode? ==> Lookup(nodes, r.value.node).None?
    ensures Lookup(nodes, ln.n1).None? ==> r == Some(MissingNode(ln.n1))
    ensures r.Some? && r.value.NoneNode? ==>
      Lookup(nodes, ln.n1).Some? && Lookup(nodes, ln.n2).Some? && Lookup(nodes, r.value.node) == Some(None)
    ensures r.Some? && r.value.NoneNode? && Lookup(nodes, ln.n2) == Some(None) ==> r.value.node == ln.n2
  {
    var e1, e2 := Lookup(nodes, ln.n1), Lookup(nodes, ln.n2);
    if e1.None? then Some(MissingNode(ln.n1))
    else if e2.None? then Some(MissingNode(ln.n2))
    else if e2.value.None? then Some(NoneNode(ln.n2))
    else if e1.value.None? then Some(NoneNode(ln.n1))
    else None
  }

  /** A hole at `n1` does not hide an absent `n2`: the lookup of `n2` raises first. */
  lemma HoleThenMissing()
    ensures EndError(Dict([(0, None)]), LineRecord(0, 5, 0, 0)) == Some(MissingNode(5))
  {
    var nodes: Coll<Node> := Dict([(0, None)]);
    assert Lookup(nodes, 0) == Some(None);
  }

  /** Two holes: `nobjs[1]` is subscripted first, so the hole at `n2` is reported. */
  lemma TwoHoles()
    ensures EndError(Dict([(0, None), (5, None)]), LineRecord(0, 5, 0, 0)) == Some(NoneNode(5))
  {
    var nodes: Coll<Node> := Dict([(0, None), (5, None)]);
    assert Lookup(nodes, 0) == Some(None);
    assert Lookup(nodes, 5) == Some(None);
  }

  /**
   * The error of the first line, in iteration order, whose ends do not
   * resolve; `None` when every end resolves to a node record.
   */
  function FirstEndError(nodes: Coll<Node>, lines: seq<LineRecord>): (r: Option<CalcError>)
    requires Valid(nodes)
    ensures r.None? <==> forall m :: 0 <= m < |lines| ==> EndsResolve(nodes, lines[m])
    ensures r.Some? ==> exists m ::
      && 0 <= m < |lines| && r == EndError(nodes, lines[m])
      && forall p :: 0 <= p < m ==> EndsResolve(nodes, lines[p])
  {
    if lines == [] then None
    else if EndError(nodes, lines[0]).Some? then EndError(nodes, lines[0])
    else
      var r := FirstEndError(nodes, lines[1..]);
      assert forall m :: 1 <= m < |lines| ==> lines[m] == lines[1..][m - 1];
      if r.Some? then
        var m :| 0 <= m < |lines[1..]| && r == EndError(nodes, lines[1..][m]) &&
          forall p :: 0 <= p < m ==> EndsResolve(nodes, lines[1..][p]);
        assert forall p :: 0 <= p < m + 1 ==> EndsResolve(nodes, lines[p]);
        r
      else
        r
  }

  /** Unfolding the search at position `m`. */
  lemma FirstEndErrorAt(nodes: Coll<Node>, lines: seq<LineRecord>, m: nat)
    requires Valid(nodes) && m < |lines|
    ensures FirstEndError(nodes, lines[m..]) ==
      if EndError(nodes, lines[m]).Some? then EndError(nodes, lines[m]) else FirstEndError(nodes, lines[m + 1..])
  {
    assert lines[m..][1..] == lines[m + 1..];
  }

  /** The scatter's view of the lines. */
  function Members(lines: seq<LineRecord>): (ms: seq<Member>)
    ensures |ms| == |lines| && forall m :: 0 <= m < |lines| ==> ms[m] == Member(lines[m].n1, lines[m].n2)
  {
    seq(|lines|, m requires 0 <= m < |lines| => Member(lines[m].n1, lines[m].n2))
  }

  /** The stiffness blocks of line `ln`, whose ends resolve. */
  function LineBlocks(nodes: Coll<Node>, ln: LineRecord, stiffness: Stiffness): seq<Block>
    requires Valid(nodes) && EndsResolve(nodes, ln)
  {
    var v := MemberVector(Get(nodes, ln.n1).value, Get(nodes, ln.n2).value);
    stiffness(ln, v.0, v.1, v.2)
  }

  function AllBlocks(nodes: Coll<Node>, lines: seq<LineRecord>, stiffness: Stiffness): (bs: seq<seq<Block>>)
    requires Valid(nodes) && FirstEndError(nodes, lines).None?
    ensures |bs| == |lines| && forall m :: 0 <= m < |lines| ==> bs[m] == LineBlocks(nodes, lines[m], stiffness)
  {
    seq(|lines|, m requires 0 <= m < |lines| => LineBlocks(nodes, lines[m], stiffness))
  }

  /** One more line whose ends resolve keeps every end of the prefix resolved. */
  lemma ResolvedSnoc(nodes: Coll<Node>, lines: seq<LineRecord>, m: nat)
    requires Valid(nodes) && m < |lines| && FirstEndError(nodes, lines[..m]).None? && EndsResolve(nodes, lines[m])
    ensures FirstEndError(nodes, lines[..m + 1]).None?
  {
    var ls, prev := lines[..m + 1], lines[..m];
    forall p | 0 <= p < m + 1 ensures EndsResolve(nodes, ls[p]) {
      if p < m {
        assert ls[p] == prev[p];
      }
    }
  }

  /** One more line whose ends resolve extends the blocks by its own. */
  lemma AllBlocksSnoc(nodes: Coll<Node>, lines: seq<LineRecord>, m: nat, stiffness: Stiffness)
    requires Valid(nodes) && m < |lines| && FirstEndError(nodes, lines[..m]).None? && EndsResolve(nodes, lines[m])
    ensures FirstEndError(nodes, lines[..m + 1]).None?
    ensures AllBlocks(nodes, lines[..m + 1], stiffness) == AllBlocks(nodes, lines[..m], stiffness) + [LineBlocks(nodes, lines[m], stiffness)]
  {
    ResolvedSnoc(nodes, lines, m);
    var ls, prev := lines[..m + 1], lines[..m];
    var a, b := AllBlocks(nodes, ls, stiffness), AllBlocks(nodes, prev, stiffness) + [LineBlocks(nodes, lines[m], stiffness)];
    forall p | 0 <= p < m + 1 ensures a[p] == b[p] {
      if p < m {
        assert ls[p] == prev[p];
      }
    }
  }

  /** With a conforming `stiffness_global`, every line contributes four 6x6 blocks. */
  lemma AllBlocksShape(nodes: Coll<Node>, lines: seq<LineRecord>, stiffness: Stiffness)
    requires Valid(nodes) && FirstEndError(nodes, lines).None? && StiffnessContract(stiffness)
    ensures BlocksOf(Members(lines), AllBlocks(nodes, lines, stiffness))
  {
    var bs := AllBlocks(nodes, lines, stiffness);
    forall m | 0 <= m < |bs| ensures StiffnessBlocks(bs[m]) {
      var ln := lines[m];
      var v := MemberVector(Get(nodes, ln.n1).value, Get(nodes, ln.n2).value);
      assert bs[m] == stiffness(ln, v.0, v.1, v.2);
    }
  }

  /** The load vector `b`. */
  function LoadVector(loads: seq<NodeLoad>, coo: seq<Dof>): (b: seq<real>)
    ensures |b| == |coo| && forall r :: 0 <= r < |coo| ==> b[r] == LoadAt(loads, CooIndex(coo), r)
  {
    seq(|coo|, r requires 0 <= r < |coo| => LoadAt(loads, CooIndex(coo), r))
  }

  /** `stiffness_global` returns four 6x6 blocks. */
  ghost predicate StiffnessContract(stiffness: Stiffness)
  {
    forall ln, vx, vy, vz :: StiffnessBlocks(stiffness(ln, vx, vy, vz))
  }

  /** `spsolve` returns one value per unknown. */
  ghost predicate SolverContract(spsolve: Solver)
  {
    forall A, b :: |spsolve(A, b)| == |b|
  }

  /** `coo_indexes` of a model. */
  function Enumerated(model: FrameModel): seq<Dof>
  {
    EnumerateDofs(model.nodes, model.boundaries)
  }

  /**
   * `dis` of frame/main.py:96 for a model whose line ends all resolve: the
   * solution of the as-written triplet matrix against the load vector.
   */
  ghost function Solution(model: FrameModel, stiffness: Stiffness, spsolve: Solver): (dis: seq<real>)
    requires Valid(model.nodes) && FirstEndError(model.nodes, Values(model.lines)).None?
    requires StiffnessContract(stiffness) && SolverContract(spsolve)
    ensures |dis| == |Enumerated(model)|
  {
    var coo := Enumerated(model);
    var lines := Values(model.lines);
    var blocks := AllBlocks(model.nodes, lines, stiffness);
    AllBlocksShape(model.nodes, lines, stiffness);
    var ts := CooTriplets(Members(lines), blocks, EndPairs, CooIndex(coo), |lines|);
    spsolve(AsMatrix(ts, |coo|), LoadVector(Values(model.nodeLoads), coo))
  }

  /**
   * The member loop of frame/main.py:62-71 up to `stiffness_global`: the
   * blocks of every line in order, or the error of the first line whose
   * ends do not resolve.
   */
  method LineStiffnesses(nodes: Coll<Node>, lines: seq<LineRecord>, stiffness: Stiffness)
    returns (res: Result<seq<seq<Block>>, CalcError>)
    requires Valid(nodes)
    ensures res.Err? <==> FirstEndError(nodes, lines).Some?
    ensures res.Err? ==> res.error == FirstEndError(nodes, lines).value
    ensures res.Ok? ==> res.value == AllBlocks(nodes, lines, stiffness)
  {
    var blocks: seq<seq<Block>> := [];
    for m := 0 to |lines|
      invariant FirstEndError(nodes, lines) == FirstEndError(nodes, lines[m..])
      invariant FirstEndError(nodes, lines[..m]).None?
      invariant blocks == AllBlocks(nodes, lines[..m], stiffness)
    {
      FirstEndErrorAt(nodes, lines, m);
      var failed := EndError(nodes, lines[m]);
      if failed.Some? {
        return Err(failed.value);
      }
      AllBlocksSnoc(nodes, lines, m, stiffness);
      blocks := blocks + [LineBlocks(nodes, lines[m], stiffness)];
    }
    assert lines[|lines|..] == [] && lines[..|lines|] == lines;
    return Ok(blocks);
  }

  /**
   * `calculate(model)['displacements']`. It fails with the error of the
   * first line whose ends do not resolve; otherwise the result holds
   * exactly the active DOFs, each with its entry of the solution.
   */
  method Calculate(model: FrameModel, stiffness: Stiffness, spsolve: Solver) returns (res: Result<Displacements, CalcError>)
    requires Valid(model.nodes)
    requires StiffnessContract(stiffness) && SolverContract(spsolve)
    ensures res.Err? <==> FirstEndError(model.nodes, Values(model.lines)).Some?
    ensures res.Err? ==> res.error == FirstEndError(model.nodes, Values(model.lines)).value
    ensures res.Ok? ==> forall n :: n in res.value <==> exists a :: Dof(n, a) in Enumerated(model)
    ensures res.Ok? ==> forall n, a :: n in res.value ==> (a in res.value[n] <==> Dof(n, a) in Enumerated(model))
    ensures res.Ok? ==> forall n, a :: n in res.value && a in res.value[n] ==>
      res.value[n][a] == Solution(model, stiffness, spsolve)[IndexOf(Enumerated(model), Dof(n, a)).value]
  {
    var coo := EnumerateDofs(model.nodes, model.boundaries);
    var lines := Values(model.lines);
    var found := LineStiffnesses(model.nodes, lines, stiffness);
    if found.Err? {
      return Err(found.error);
    }
    var blocks := found.value;
    AllBlocksShape(model.nodes, lines, stiffness);
    var members := Members(lines);
    var data, rows, cols := ScatterCoo(members, blocks, coo);
    UnzippedUnique(data, rows, cols, CooTriplets(members, blocks, EndPairs, CooIndex(coo), |members|), |coo|);
    var A := CooMatrix(data, rows, cols, |coo|);
    var loads := AssembleLoads(Values(model.nodeLoads), coo);
    assert loads[..] == LoadVector(Values(model.nodeLoads), coo);
    var dis := spsolve(A, loads[..]);
    assert dis == Solution(model, stiffness, spsolve);
    var R := MapDisplacements(coo, dis);
    return Ok(R);
  }

  /**
   * The frame of frame/tests/test_main.py:29-45: one vertical member whose
   * only free DOF is (1, z). The test's line carries `EA` instead of section
   * and material keys; those are 0 here and play no part below.
   */
  const TestModel := FrameModel(
    List([Some(Node(0.0, 0.0, 0.0)), Some(Node(0.0, 0.0, 1.0))]),
    List([Some(LineRecord(0, 1, 0, 0))]),
    List([Some(TestFullyFixed0), Some(TestFreeZ1)]),
    List([Some(NodeLoad(1, 0.0, 1.0, 1.0, 0.0, 0.0, -1.0))]))

  /** A list of two records iterates as keys 0, 1 and those two records. */
  lemma PairList<V(!new)>(a: V, b: V)
    ensures Keys(List([Some(a), Some(b)])) == [0, 1]
    ensures Values(List([Some(a), Some(b)])) == [a, b]
    ensures Get(List([Some(a), Some(b)]), 0) == Some(a) && Get(List([Some(a), Some(b)]), 1) == Some(b)
  {
    PairItems(a, b);
    var it := Items(List([Some(a), Some(b)]));
    assert (0, a) in it && (1, b) in it;
  }

  lemma PairItems<V(!new)>(a: V, b: V)
    ensures Items(List([Some(a), Some(b)])) == [(0, a), (1, b)]
  {
    var es := Entries(List([Some(a), Some(b)]));
    assert es == [(0, Some(a)), (1, Some(b))];
    assert es[..1] == [(0, Some(a))] && es[..1][..0] == [];
    assert Present(es[..1]) == [(0, a)];
  }

  /** A list of one record iterates as key 0 and that record. */
  lemma SingleList<V(!new)>(a: V)
    ensures Values(List([Some(a)])) == [a]
  {
    var es := Entries(List([Some(a)]));
    assert es == [(0, Some(a))] && es[..0] == [];
    assert Present(es) == [(0, a)];
  }

  /** One triplet is a matrix with one stored entry. */
  lemma SingleTripletMatrix(t: Triplet, n: nat)
    ensures AsMatrix([t], n) == CooMatrix([t.data], [t.row], [t.col], n)
  {
    UnzippedUnique([t.data], [t.row], [t.col], [t], n);
  }

  /** With one enumerated DOF the load vector has one entry. */
  lemma SingleDofLoadVector(loads: seq<NodeLoad>, d: Dof)
    ensures LoadVector(loads, [d]) == [LoadAt(loads, CooIndex([d]), 0)]
  {
  }

  /** Only (1, z) is enumerated, and both ends of the member resolve. */
  lemma TestModelEnumeration()
    ensures Enumerated(TestModel) == [Dof(1, Z)]
    ensures FirstEndError(TestModel.nodes, Values(TestModel.lines)).None?
  {
    PairList(Node(0.0, 0.0, 0.0), Node(0.0, 0.0, 1.0));
    PairList(TestFullyFixed0, TestFreeZ1);
    SingleList(LineRecord(0, 1, 0, 0));
    TestSingleActiveDof();
  }

  /** With only (1, z) active, the member 0-1 puts the (z, z) entry of its (n2, n2) block at (0, 0). */
  lemma TestMemberTriplets(bl: seq<Block>)
    requires StiffnessBlocks(bl)
    ensures MemberTriplets(Member(0, 1), bl, CooIndex([Dof(1, Z)])) == [Triplet(bl[3][2][2], 0, 0)]
  {
    var idx := CooIndex([Dof(1, Z)]);
    TestActive();
    BlockTripletsInactive(bl[0], 0, 0, idx);
    BlockTripletsInactive(bl[1], 0, 1, idx);
    BlockTripletsInactive(bl[2], 1, 0, idx);
    SingleDofBlock(bl[3], Dof(1, Z));
    assert PairedTriplets(Member(0, 1), bl, EndPairs, idx, 1) == [];
    assert PairedTriplets(Member(0, 1), bl, EndPairs, idx, 2) == [];
    assert PairedTriplets(Member(0, 1), bl, EndPairs, idx, 3) == [];
  }

  /** Node 0 of the test frame has no active axis and node 1 exactly one. */
  lemma TestActive()
    ensures ActiveUpTo(0, CooIndex([Dof(1, Z)]), 6) == 0
    ensures ActiveUpTo(1, CooIndex([Dof(1, Z)]), 6) == 1
    ensures CooIndex([Dof(1, Z)])(Dof(1, Z)) == 0
    ensures forall a :: a != Z ==> CooIndex([Dof(1, Z)])(Dof(1, a)) == -1
  {
    ActiveUpToSingle(Dof(1, Z), 0, 6);
    ActiveUpToSingle(Dof(1, Z), 1, 6);
    forall a ensures CooIndex([Dof(1, Z)])(Dof(1, a)) == if a == Z then 0 else -1 {
      SingleDofIndex(Dof(1, Z), Dof(1, a));
    }
  }

  /**
   * Any model whose only line runs from (0, 0, 0) to (0, 0, 1), whose only
   * active DOF is (1, z) and whose only load is that of the test frame
   * leads to the 1x1 system: the member's (z, z) stiffness at its upper
   * end against the z component 1 of the load.
   */
  lemma OneMemberSystem(model: FrameModel, stiffness: Stiffness, spsolve: Solver)
    requires Valid(model.nodes) && StiffnessContract(stiffness) && SolverContract(spsolve)
    requires Values(model.lines) == [LineRecord(0, 1, 0, 0)]
    requires Get(model.nodes, 0) == Some(Node(0.0, 0.0, 0.0)) && Get(model.nodes, 1) == Some(Node(0.0, 0.0, 1.0))
    requires Enumerated(model) == [Dof(1, Z)]
    requires Values(model.nodeLoads) == [NodeLoad(1, 0.0, 1.0, 1.0, 0.0, 0.0, -1.0)]
    ensures FirstEndError(model.nodes, Values(model.lines)).None?
    ensures Solution(model, stiffness, spsolve) ==
      spsolve(CooMatrix([stiffness(LineRecord(0, 1, 0, 0), 0.0, 0.0, 1.0)[3][2][2]], [0], [0], 1), [1.0])
  {
    var lines := Values(model.lines);
    OneMemberBlocks(model.nodes, lines, stiffness);
    var bl := stiffness(LineRecord(0, 1, 0, 0), 0.0, 0.0, 1.0);
    assert StiffnessBlocks(bl);
    OneMemberTriplets(bl);
    SingleTripletMatrix(Triplet(bl[3][2][2], 0, 0), 1);
    TestSingleLoad();
    SingleDofLoadVector([NodeLoad(1, 0.0, 1.0, 1.0, 0.0, 0.0, -1.0)], Dof(1, Z));
  }

  /** The line 0-1 between (0, 0, 0) and (0, 0, 1) gets the blocks of the vector (0, 0, 1). */
  lemma OneMemberBlocks(nodes: Coll<Node>, lines: seq<LineRecord>, stiffness: Stiffness)
    requires Valid(nodes) && lines == [LineRecord(0, 1, 0, 0)]
    requires Get(nodes, 0) == Some(Node(0.0, 0.0, 0.0)) && Get(nodes, 1) == Some(Node(0.0, 0.0, 1.0))
    ensures FirstEndError(nodes, lines).None?
    ensures AllBlocks(nodes, lines, stiffness) == [stiffness(LineRecord(0, 1, 0, 0), 0.0, 0.0, 1.0)]
    ensures Members(lines) == [Member(0, 1)]
  {
    assert EndsResolve(nodes, lines[0]);
  }

  /** The single member 0-1 with only (1, z) active scatters one triplet. */
  lemma OneMemberTriplets(bl: seq<Block>)
    requires StiffnessBlocks(bl)
    ensures CooTriplets([Member(0, 1)], [bl], EndPairs, CooIndex([Dof(1, Z)]), 1) == [Triplet(bl[3][2][2], 0, 0)]
  {
    OnlyFirstMemberScattered([Member(0, 1)], [bl], CooIndex([Dof(1, Z)]), 1);
    TestMemberTriplets(bl);
  }

  /**
   * What `frame_calculate` assembles for the frame of
   * frame/tests/test_main.py:29-46, given that its index map numbers the
   * one effective DOF (1, z) as 0 and no other: `AssembleDense` gives the
   * 1x1 matrix of the member's (z, z) stiffness at its upper end, and
   * `AssembleDenseLoads` the vector [1].
   */
  lemma TestDenseSystem(bl: seq<Block>)
    requires StiffnessBlocks(bl)
    ensures SumAt(DenseTriplets([Member(0, 1)], [bl], CooIndex([Dof(1, Z)]), 1), 0, 0) == bl[3][2][2]
    ensures LoadAt([NodeLoad(1, 0.0, 1.0, 1.0, 0.0, 0.0, -1.0)], CooIndex([Dof(1, Z)]), 0) == 1.0
  {
    FirstMemberAgrees([Member(0, 1)], [bl], CooIndex([Dof(1, Z)]));
    OneMemberTriplets(bl);
    assert [Triplet(bl[3][2][2], 0, 0)][..0] == [];
    TestSingleLoad();
  }
}
