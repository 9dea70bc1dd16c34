/**
 * Triplet scatter of the member stiffness blocks (frame/main.py:56-86) and
 * its dense counterpart in `frame_calculate` (frame/main.py:110-123).
 *
 * Every member contributes four 6x6 blocks, one per end pair
 * (n1,n1), (n1,n2), (n2,n1), (n2,n2). Entry (i, j) of the block for ends
 * (ea, eb) lands at row `index(ea, axis i)` and column `index(eb, axis j)`,
 * and only when both DOFs are active. The blocks come from
 * `line.stiffness_global`, which is not part of this model: they are inputs.
 */
module Scatter {
  import opened Wrappers
  import opened Sequences
  import opened Dofs

  /** A member of `lines`, reduced to what the scatter reads: its end nodes. */
  datatype Member = Member(n1: NodeId, n2: NodeId)

  datatype End = N1 | N2

  /** `ln[end]` */
  function EndNode(m: Member, e: End): NodeId
  {
    match e
    case N1 => m.n1
    case N2 => m.n2
  }

  /** The four items of the generator `perm`, in the order it yields them. */
  const EndPairs: seq<(End, End)> := [(N1, N1), (N1, N2), (N2, N1), (N2, N2)]

  /**
   * `perm` yields each pair of ends once, the q-th being
   * `(ends[q // 2], ends[q % 2])`: the order in which `frame_calculate`
   * takes `n[i // 2], n[i % 2]` for block `i`.
   */
  lemma PermPairs()
    ensures |EndPairs| == 4
    ensures forall q :: 0 <= q < 4 ==> EndPairs[q] == ([N1, N2][q / 2], [N1, N2][q % 2])
    ensures forall a: End, b: End :: (a, b) in EndPairs
  {
    forall a: End, b: End ensures (a, b) in EndPairs {
      var q := (if a == N1 then 0 else 2) + (if b == N1 then 0 else 1);
      assert EndPairs[q] == (a, b);
    }
  }

  /** One 6x6 stiffness block, rows and columns in axis order. */
  type Block = seq<seq<real>>

  predicate IsBlock(k: Block)
  {
    |k| == 6 && forall i :: 0 <= i < 6 ==> |k[i]| == 6
  }

  /** What `line.stiffness_global` returns for one member: four 6x6 blocks. */
  predicate StiffnessBlocks(bl: seq<Block>)
  {
    |bl| == 4 && forall q :: 0 <= q < 4 ==> IsBlock(bl[q])
  }

  /** `blocks[m]` are the stiffness blocks of `members[m]`. */
  predicate BlocksOf(members: seq<Member>, blocks: seq<seq<Block>>)
  {
    |blocks| == |members| && forall m :: 0 <= m < |blocks| ==> StiffnessBlocks(blocks[m])
  }

  /** One `(data, row, col)` entry of the three parallel lists. */
  datatype Triplet = Triplet(data: real, row: int, col: int)

  /** A DOF-to-index map; a negative index marks an inactive DOF. */
  type IndexMap = Dof -> int

  /** `coo_indexes.index`, with -1 where it raises `ValueError`. */
  function CooIndex(coo: seq<Dof>): IndexMap
  {
    d => match IndexOf(coo, d) case Some(i) => i case None => -1
  }

  /** The index map of `calculate` is active exactly on the enumerated DOFs and stays below their number. */
  lemma CooIndexSpec(coo: seq<Dof>, d: Dof)
    ensures CooIndex(coo)(d) < |coo|
    ensures CooIndex(coo)(d) >= 0 <==> d in coo
    ensures CooIndex(coo)(d) >= 0 ==> coo[CooIndex(coo)(d)] == d
  {
  }

  /** The triplets of columns `0 .. j-1` of row `i` of block `k`, whose row index is `row`. */
  function RowTriplets(k: Block, i: nat, row: int, nb: NodeId, idx: IndexMap, j: nat): seq<Triplet>
    requires IsBlock(k) && i < 6 && j <= 6
  {
    if j == 0 then []
    else
      var col := idx(Dof(nb, Axes[j - 1]));
      RowTriplets(k, i, row, nb, idx, j - 1) + (if col >= 0 then [Triplet(k[i][j - 1], row, col)] else [])
  }

  /** The triplets of rows `0 .. i-1` of block `k` placed at nodes `na` (rows) and `nb` (columns). */
  function BlockTriplets(k: Block, na: NodeId, nb: NodeId, idx: IndexMap, i: nat): seq<Triplet>
    requires IsBlock(k) && i <= 6
  {
    if i == 0 then []
    else
      var row := idx(Dof(na, Axes[i - 1]));
      BlockTriplets(k, na, nb, idx, i - 1) + (if row >= 0 then RowTriplets(k, i - 1, row, nb, idx, 6) else [])
  }

  /** The triplets of the first `q` blocks of member `m`, block `p` placed at the end pair `pairs[p]`. */
  function PairedTriplets(m: Member, bl: seq<Block>, pairs: seq<(End, End)>, idx: IndexMap, q: nat): seq<Triplet>
    requires q <= |bl| && q <= |pairs|
    requires forall p :: 0 <= p < q ==> IsBlock(bl[p])
  {
    if q == 0 then []
    else
      PairedTriplets(m, bl, pairs, idx, q - 1)
        + BlockTriplets(bl[q - 1], EndNode(m, pairs[q - 1].0), EndNode(m, pairs[q - 1].1), idx, 6)
  }

  /** One more zipped block appends its own triplets. */
  lemma PairedTripletsSnoc(ts: seq<Triplet>, m: Member, bl: seq<Block>, pairs: seq<(End, End)>, idx: IndexMap, q: nat)
    requires q < |bl| && q < |pairs|
    requires forall p :: 0 <= p <= q ==> IsBlock(bl[p])
    ensures ts + PairedTriplets(m, bl, pairs, idx, q + 1) ==
      ts + PairedTriplets(m, bl, pairs, idx, q) + BlockTriplets(bl[q], EndNode(m, pairs[q].0), EndNode(m, pairs[q].1), idx, 6)
  {
  }

  /** The triplets one member contributes when its blocks meet all four end pairs. */
  function MemberTriplets(m: Member, bl: seq<Block>, idx: IndexMap): seq<Triplet>
    requires StiffnessBlocks(bl)
  {
    PairedTriplets(m, bl, EndPairs, idx, 4)
  }

  /** How many items `zip(blocks, perm)` takes from `perm`: it stops at the shorter. */
  function Zipped(bl: seq<Block>, perm: seq<(End, End)>): nat
  {
    if |bl| <= |perm| then |bl| else |perm|
  }

  /** What is left of the one-shot generator `perm` after the first `m` members. */
  function PermAfter(blocks: seq<seq<Block>>, perm: seq<(End, End)>, m: nat): seq<(End, End)>
    requires m <= |blocks|
  {
    if m == 0 then perm
    else
      var p := PermAfter(blocks, perm, m - 1);
      p[Zipped(blocks[m - 1], p)..]
  }

  /**
   * The triplets `calculate` appends for the first `m` members, as written:
   * every member draws its end pairs from what is left of `perm`.
   */
  function CooTriplets(members: seq<Member>, blocks: seq<seq<Block>>, perm: seq<(End, End)>, idx: IndexMap, m: nat): seq<Triplet>
    requires BlocksOf(members, blocks) && m <= |members|
  {
    if m == 0 then []
    else
      var p := PermAfter(blocks, perm, m - 1);
      CooTriplets(members, blocks, perm, idx, m - 1)
        + PairedTriplets(members[m - 1], blocks[m - 1], p, idx, Zipped(blocks[m - 1], p))
  }

  /** The triplets of the first `m` members when every member meets all four end pairs. */
  function DenseTriplets(members: seq<Member>, blocks: seq<seq<Block>>, idx: IndexMap, m: nat): seq<Triplet>
    requires BlocksOf(members, blocks) && m <= |members|
  {
    if m == 0 then []
    else DenseTriplets(members, blocks, idx, m - 1) + MemberTriplets(members[m - 1], blocks[m - 1], idx)
  }

  /** The entry at `(a, b)` of the matrix the triplets describe: duplicates add up, as in `coo_matrix`. */
  function SumAt(ts: seq<Triplet>, a: int, b: int): real
  {
    if ts == [] then 0.0
    else
      var t := ts[|ts| - 1];
      SumAt(ts[..|ts| - 1], a, b) + (if t.row == a && t.col == b then t.data else 0.0)
  }

  /** The three parallel lists `data`, `rows`, `cols` that hold the triplets `ts`. */
  ghost predicate Unzipped(data: seq<real>, rows: seq<int>, cols: seq<int>, ts: seq<Triplet>)
  {
    |data| == |ts| && |rows| == |ts| && |cols| == |ts|
    && forall t :: 0 <= t < |ts| ==> ts[t] == Triplet(data[t], rows[t], cols[t])
  }

  /** The argument `(data, (rows, cols))` and `shape` handed to `coo_matrix`. */
  datatype CooMatrix = CooMatrix(data: seq<real>, rows: seq<int>, cols: seq<int>, size: nat)

  /** The matrix whose three lists hold the triplets `ts`. */
  function AsMatrix(ts: seq<Triplet>, n: nat): (A: CooMatrix)
    ensures A.size == n && Unzipped(A.data, A.rows, A.cols, ts)
  {
    CooMatrix(seq(|ts|, t requires 0 <= t < |ts| => ts[t].data),
              seq(|ts|, t requires 0 <= t < |ts| => ts[t].row),
              seq(|ts|, t requires 0 <= t < |ts| => ts[t].col), n)
  }

  /** The three lists determine the triplets and the triplets determine the lists. */
  lemma UnzippedUnique(data: seq<real>, rows: seq<int>, cols: seq<int>, ts: seq<Triplet>, n: nat)
    requires Unzipped(data, rows, cols, ts)
    ensures CooMatrix(data, rows, cols, n) == AsMatrix(ts, n)
  {
    var A := AsMatrix(ts, n);
    assert forall t :: 0 <= t < |ts| ==> data[t] == A.data[t] && rows[t] == A.rows[t] && cols[t] == A.cols[t];
  }

  /** How many of the first `j` axes of node `n` are active under `idx`. */
  function ActiveUpTo(n: NodeId, idx: IndexMap, j: nat): nat
    requires j <= 6
  {
    if j == 0 then 0
    else ActiveUpTo(n, idx, j - 1) + (if idx(Dof(n, Axes[j - 1])) >= 0 then 1 else 0)
  }

  /**
   * Row `i` of a block yields one triplet per active column DOF, carrying
   * the block entry and that column's index, and nothing else.
   */
  lemma RowTripletsSpec(k: Block, i: nat, row: int, nb: NodeId, idx: IndexMap, j: nat)
    requires IsBlock(k) && i < 6 && j <= 6
    ensures |RowTriplets(k, i, row, nb, idx, j)| == ActiveUpTo(nb, idx, j)
    ensures forall t :: t in RowTriplets(k, i, row, nb, idx, j) <==>
      exists c :: 0 <= c < j && idx(Dof(nb, Axes[c])) >= 0 && t == Triplet(k[i][c], row, idx(Dof(nb, Axes[c])))
  {
    RowTripletsCount(k, i, row, nb, idx, j);
    RowTripletsMembers(k, i, row, nb, idx, j);
  }

  /** Row `i` of a block yields one triplet per active column DOF. */
  lemma {:induction false} RowTripletsCount(k: Block, i: nat, row: int, nb: NodeId, idx: IndexMap, j: nat)
    requires IsBlock(k) && i < 6 && j <= 6
    ensures |RowTriplets(k, i, row, nb, idx, j)| == ActiveUpTo(nb, idx, j)
  {
    if j > 0 {
      RowTripletsCount(k, i, row, nb, idx, j - 1);
    }
  }

  /** The triplets of row `i` are its entries at active columns, at the row's and the column's index. */
  lemma {:induction false} RowTripletsMembers(k: Block, i: nat, row: int, nb: NodeId, idx: IndexMap, j: nat)
    requires IsBlock(k) && i < 6 && j <= 6
    ensures forall t :: t in RowTriplets(k, i, row, nb, idx, j) <==>
      exists c :: 0 <= c < j && idx(Dof(nb, Axes[c])) >= 0 && t == Triplet(k[i][c], row, idx(Dof(nb, Axes[c])))
  {
    if j > 0 {
      RowTripletsMembers(k, i, row, nb, idx, j - 1);
      var prev := RowTriplets(k, i, row, nb, idx, j - 1);
      var col := idx(Dof(nb, Axes[j - 1]));
      var r := RowTriplets(k, i, row, nb, idx, j);
      assert r == prev + (if col >= 0 then [Triplet(k[i][j - 1], row, col)] else []);
      forall t ensures t in r <==>
        exists c :: 0 <= c < j && idx(Dof(nb, Axes[c])) >= 0 && t == Triplet(k[i][c], row, idx(Dof(nb, Axes[c])))
      {
        if t in r && t !in prev {
          assert col >= 0 && t == Triplet(k[i][j - 1], row, col);
        }
      }
    }
  }

  /**
   * A block yields exactly one triplet per entry whose row DOF and column
   * DOF are both active: the entry at that row's and that column's index.
   */
  lemma BlockTripletsSpec(k: Block, na: NodeId, nb: NodeId, idx: IndexMap, i: nat)
    requires IsBlock(k) && i <= 6
    ensures |BlockTriplets(k, na, nb, idx, i)| == ActiveUpTo(na, idx, i) * ActiveUpTo(nb, idx, 6)
    ensures forall t :: t in BlockTriplets(k, na, nb, idx, i) <==>
      exists r, c :: 0 <= r < i && 0 <= c < 6 && idx(Dof(na, Axes[r])) >= 0 && idx(Dof(nb, Axes[c])) >= 0
        && t == Triplet(k[r][c], idx(Dof(na, Axes[r])), idx(Dof(nb, Axes[c])))
  {
    BlockTripletsCount(k, na, nb, idx, i);
    BlockTripletsMembers(k, na, nb, idx, i);
  }

  /** A block yields one triplet per pair of an active row DOF and an active column DOF. */
  lemma {:induction false} BlockTripletsCount(k: Block, na: NodeId, nb: NodeId, idx: IndexMap, i: nat)
    requires IsBlock(k) && i <= 6
    ensures |BlockTriplets(k, na, nb, idx, i)| == ActiveUpTo(na, idx, i) * ActiveUpTo(nb, idx, 6)
  {
    if i > 0 {
      BlockTripletsCount(k, na, nb, idx, i - 1);
      var row := idx(Dof(na, Axes[i - 1]));
      var x, y := ActiveUpTo(na, idx, i - 1), ActiveUpTo(nb, idx, 6);
      var n := |BlockTriplets(k, na, nb, idx, i)|;
      if row >= 0 {
        assert n == x * y + y && ActiveUpTo(na, idx, i) == x + 1 by {
          RowTripletsCount(k, i - 1, row, nb, idx, 6);
        }
        MulSucc(x, y);
      } else {
        assert n == x * y && ActiveUpTo(na, idx, i) == x;
      }
    }
  }

  lemma MulSucc(x: int, y: int)
    ensures (x + 1) * y == x * y + y
  {
  }

  /** The triplets of a block are the entries at an active row and an active column, at their indices. */
  lemma {:induction false} BlockTripletsMembers(k: Block, na: NodeId, nb: NodeId, idx: IndexMap, i: nat)
    requires IsBlock(k) && i <= 6
    ensures forall t :: t in BlockTriplets(k, na, nb, idx, i) <==>
      exists r, c :: 0 <= r < i && 0 <= c < 6 && idx(Dof(na, Axes[r])) >= 0 && idx(Dof(nb, Axes[c])) >= 0
        && t == Triplet(k[r][c], idx(Dof(na, Axes[r])), idx(Dof(nb, Axes[c])))
  {
    if i > 0 {
      BlockTripletsMembers(k, na, nb, idx, i - 1);
      var prev := BlockTriplets(k, na, nb, idx, i - 1);
      var row := idx(Dof(na, Axes[i - 1]));
      var b := BlockTriplets(k, na, nb, idx, i);
      if row >= 0 {
        RowTripletsMembers(k, i - 1, row, nb, idx, 6);
        var rt := RowTriplets(k, i - 1, row, nb, idx, 6);
        assert b == prev + rt;
        forall r, c | 0 <= r < i && 0 <= c < 6 && idx(Dof(na, Axes[r])) >= 0 && idx(Dof(nb, Axes[c])) >= 0
          ensures Triplet(k[r][c], idx(Dof(na, Axes[r])), idx(Dof(nb, Axes[c]))) in b
        {
          if r < i - 1 {
            assert Triplet(k[r][c], idx(Dof(na, Axes[r])), idx(Dof(nb, Axes[c]))) in prev;
          } else {
            assert Triplet(k[r][c], idx(Dof(na, Axes[r])), idx(Dof(nb, Axes[c]))) in rt;
          }
        }
      } else {
        assert b == prev;
      }
    }
  }

  /** The triplets of `ts` address rows and columns in `[0, n)`. */
  ghost predicate InRange(ts: seq<Triplet>, n: int)
  {
    forall t :: t in ts ==> 0 <= t.row < n && 0 <= t.col < n
  }

  /** An index map below `n` keeps every triplet of a member inside the `n` x `n` matrix. */
  lemma {:induction false} PairedTripletsInRange(m: Member, bl: seq<Block>, pairs: seq<(End, End)>, idx: IndexMap, q: nat, n: int)
    requires q <= |bl| && q <= |pairs|
    requires forall p :: 0 <= p < q ==> IsBlock(bl[p])
    requires forall d :: idx(d) < n
    ensures InRange(PairedTriplets(m, bl, pairs, idx, q), n)
  {
    if q > 0 {
      PairedTripletsInRange(m, bl, pairs, idx, q - 1, n);
      BlockTripletsSpec(bl[q - 1], EndNode(m, pairs[q - 1].0), EndNode(m, pairs[q - 1].1), idx, 6);
    }
  }

  /** Every row and column `calculate` appends lies in `[0, len(coo_indexes))`. */
  lemma {:induction false} CooTripletsInRange(members: seq<Member>, blocks: seq<seq<Block>>, perm: seq<(End, End)>, coo: seq<Dof>, m: nat)
    requires BlocksOf(members, blocks) && m <= |members|
    ensures InRange(CooTriplets(members, blocks, perm, CooIndex(coo), m), |coo|)
  {
    if m > 0 {
      CooTripletsInRange(members, blocks, perm, coo, m - 1);
      forall d ensures CooIndex(coo)(d) < |coo| {
        CooIndexSpec(coo, d);
      }
      var p := PermAfter(blocks, perm, m - 1);
      PairedTripletsInRange(members[m - 1], blocks[m - 1], p, CooIndex(coo), Zipped(blocks[m - 1], p), |coo|);
    }
  }

  /** Every entry `frame_calculate` adds lies inside the `n` x `n` matrix when the index map stays below `n`. */
  lemma {:induction false} DenseTripletsInRange(members: seq<Member>, blocks: seq<seq<Block>>, idx: IndexMap, m: nat, n: int)
    requires BlocksOf(members, blocks) && m <= |members|
    requires forall d :: idx(d) < n
    ensures InRange(DenseTriplets(members, blocks, idx, m), n)
  {
    if m > 0 {
      DenseTripletsInRange(members, blocks, idx, m - 1, n);
      PairedTripletsInRange(members[m - 1], blocks[m - 1], EndPairs, idx, 4, n);
    }
  }

  /** The first member's four blocks use up all four items of `perm`. */
  lemma {:induction false} PermExhausted(blocks: seq<seq<Block>>, m: nat)
    requires 1 <= m <= |blocks|
    requires forall p :: 0 <= p < |blocks| ==> |blocks[p]| == 4
    ensures PermAfter(blocks, EndPairs, m) == []
  {
    if m > 1 {
      PermExhausted(blocks, m - 1);
    }
  }

  /**
   * Because `perm` is created once, before the member loop, only the first
   * member of `lines` yields triplets: every later member zips its blocks
   * against an exhausted generator.
   */
  lemma {:induction false} OnlyFirstMemberScattered(members: seq<Member>, blocks: seq<seq<Block>>, idx: IndexMap, m: nat)
    requires BlocksOf(members, blocks) && 1 <= m <= |members|
    ensures CooTriplets(members, blocks, EndPairs, idx, m) == MemberTriplets(members[0], blocks[0], idx)
  {
    if m > 1 {
      OnlyFirstMemberScattered(members, blocks, idx, m - 1);
      PermExhausted(blocks, m - 1);
      var p := PermAfter(blocks, EndPairs, m - 1);
      assert Zipped(blocks[m - 1], p) == 0;
    } else {
      assert PermAfter(blocks, EndPairs, 0) == EndPairs;
    }
  }

  /** On a frame with one member the as-written triplets and the dense ones coincide. */
  lemma FirstMemberAgrees(members: seq<Member>, blocks: seq<seq<Block>>, idx: IndexMap)
    requires BlocksOf(members, blocks) && 1 <= |members|
    ensures CooTriplets(members, blocks, EndPairs, idx, 1) == DenseTriplets(members, blocks, idx, 1)
  {
    OnlyFirstMemberScattered(members, blocks, idx, 1);
  }

  /** With every member meeting all four end pairs, each member's triplets all reach the assembly. */
  lemma {:induction false} DenseTripletsContainMember(members: seq<Member>, blocks: seq<seq<Block>>, idx: IndexMap, m: nat, p: nat)
    requires BlocksOf(members, blocks) && p < m <= |members|
    ensures forall t :: t in MemberTriplets(members[p], blocks[p], idx) ==> t in DenseTriplets(members, blocks, idx, m)
  {
    if p < m - 1 {
      DenseTripletsContainMember(members, blocks, idx, m - 1, p);
    }
  }

  /** A node none of whose six DOFs is active contributes no row and no column. */
  lemma BlockTripletsInactive(k: Block, na: NodeId, nb: NodeId, idx: IndexMap)
    requires IsBlock(k)
    requires ActiveUpTo(na, idx, 6) == 0 || ActiveUpTo(nb, idx, 6) == 0
    ensures BlockTriplets(k, na, nb, idx, 6) == []
  {
    BlockTripletsSpec(k, na, nb, idx, 6);
  }

  /** The two-member frame 0-1, 1-2 in which only the DOF (2, x) is active. */
  const TwoMembers: seq<Member> := [Member(0, 1), Member(1, 2)]
  const FreeTipX: seq<Dof> := [Dof(2, X)]

  /** With the single DOF `d` enumerated, only `d` has an index, and it is 0. */
  lemma SingleDofIndex(d: Dof, e: Dof)
    ensures CooIndex([d])(e) == if e == d then 0 else -1
  {
    CooIndexSpec([d], e);
  }

  /** With the single DOF `d` enumerated, only its node has an active axis, and only one. */
  lemma {:induction false} ActiveUpToSingle(d: Dof, n: NodeId, j: nat)
    requires j <= 6
    ensures ActiveUpTo(n, CooIndex([d]), j) == if n == d.node && AxisIndex(d.axis) < j then 1 else 0
  {
    if j > 0 {
      ActiveUpToSingle(d, n, j - 1);
      SingleDofIndex(d, Dof(n, Axes[j - 1]));
      assert Dof(n, Axes[j - 1]) == d <==> n == d.node && AxisIndex(d.axis) == j - 1;
    }
  }

  lemma FreeTipXActive()
    ensures ActiveUpTo(0, CooIndex(FreeTipX), 6) == 0
    ensures ActiveUpTo(1, CooIndex(FreeTipX), 6) == 0
    ensures ActiveUpTo(2, CooIndex(FreeTipX), 6) == 1
    ensures CooIndex(FreeTipX)(Dof(2, X)) == 0
  {
    ActiveUpToSingle(Dof(2, X), 0, 6);
    ActiveUpToSingle(Dof(2, X), 1, 6);
    ActiveUpToSingle(Dof(2, X), 2, 6);
    SingleDofIndex(Dof(2, X), Dof(2, X));
  }

  lemma FirstMemberNoTriplets(bl: seq<Block>)
    requires StiffnessBlocks(bl)
    ensures MemberTriplets(Member(0, 1), bl, CooIndex(FreeTipX)) == []
  {
    var idx := CooIndex(FreeTipX);
    FreeTipXActive();
    BlockTripletsInactive(bl[0], 0, 0, idx);
    BlockTripletsInactive(bl[1], 0, 1, idx);
    BlockTripletsInactive(bl[2], 1, 0, idx);
    BlockTripletsInactive(bl[3], 1, 1, idx);
    assert PairedTriplets(Member(0, 1), bl, EndPairs, idx, 1) == [];
    assert PairedTriplets(Member(0, 1), bl, EndPairs, idx, 2) == [];
    assert PairedTriplets(Member(0, 1), bl, EndPairs, idx, 3) == [];
  }

  /**
   * With the single DOF `d` enumerated, the block of `d`'s node against
   * itself yields one triplet: its entry on `d`'s axis, at (0, 0).
   */
  lemma SingleDofBlock(k: Block, d: Dof)
    requires IsBlock(k)
    ensures BlockTriplets(k, d.node, d.node, CooIndex([d]), 6) == [Triplet(k[AxisIndex(d.axis)][AxisIndex(d.axis)], 0, 0)]
  {
    var idx := CooIndex([d]);
    var ts := BlockTriplets(k, d.node, d.node, idx, 6);
    ActiveUpToSingle(d, d.node, 6);
    BlockTripletsCount(k, d.node, d.node, idx, 6);
    BlockTripletsMembers(k, d.node, d.node, idx, 6);
    assert ts[0] in ts;
    var r, c :| 0 <= r < 6 && 0 <= c < 6 && idx(Dof(d.node, Axes[r])) >= 0 && idx(Dof(d.node, Axes[c])) >= 0
      && ts[0] == Triplet(k[r][c], idx(Dof(d.node, Axes[r])), idx(Dof(d.node, Axes[c])));
    SingleDofIndex(d, Dof(d.node, Axes[r]));
    SingleDofIndex(d, Dof(d.node, Axes[c]));
  }

  lemma SecondMemberTriplets(bl: seq<Block>)
    requires StiffnessBlocks(bl)
    ensures MemberTriplets(Member(1, 2), bl, CooIndex(FreeTipX)) == [Triplet(bl[3][0][0], 0, 0)]
  {
    var idx := CooIndex(FreeTipX);
    FreeTipXActive();
    BlockTripletsInactive(bl[0], 1, 1, idx);
    BlockTripletsInactive(bl[1], 1, 2, idx);
    BlockTripletsInactive(bl[2], 2, 1, idx);
    SingleDofBlock(bl[3], Dof(2, X));
    assert PairedTriplets(Member(1, 2), bl, EndPairs, idx, 1) == [];
    assert PairedTriplets(Member(1, 2), bl, EndPairs, idx, 2) == [];
    assert PairedTriplets(Member(1, 2), bl, EndPairs, idx, 3) == [];
  }

  /**
   * Whatever the member stiffness, `calculate` as written scatters nothing
   * for the two-member frame 0-1, 1-2 with only (2, x) free: the first
   * member touches no active DOF and the second finds `perm` exhausted.
   * The assembly of `frame_calculate` keeps the second member's (n2, n2)
   * entry at (0, 0).
   */
  lemma SecondMemberLost(blocks: seq<seq<Block>>)
    requires BlocksOf(TwoMembers, blocks)
    ensures CooTriplets(TwoMembers, blocks, EndPairs, CooIndex(FreeTipX), 2) == []
    ensures DenseTriplets(TwoMembers, blocks, CooIndex(FreeTipX), 2) == [Triplet(blocks[1][3][0][0], 0, 0)]
  {
    var idx := CooIndex(FreeTipX);
    OnlyFirstMemberScattered(TwoMembers, blocks, idx, 2);
    FirstMemberNoTriplets(blocks[0]);
    SecondMemberTriplets(blocks[1]);
    assert DenseTriplets(TwoMembers, blocks, idx, 1) == [];
  }

  /** Appending one triplet adds its value at its own position and nowhere else. */
  lemma SumAtSnoc(ts: seq<Triplet>, t: Triplet, a: int, b: int)
    ensures SumAt(ts + [t], a, b) == SumAt(ts, a, b) + (if t.row == a && t.col == b then t.data else 0.0)
  {
    assert (ts + [t])[..|ts|] == ts;
  }

  /** Appending one triplet to the three lists appends it to the triplets they hold. */
  lemma UnzippedSnoc(data: seq<real>, rows: seq<int>, cols: seq<int>, ts: seq<Triplet>, t: Triplet)
    requires Unzipped(data, rows, cols, ts)
    ensures Unzipped(data + [t.data], rows + [t.row], cols + [t.col], ts + [t])
  {
    var ts' := ts + [t];
    forall p | 0 <= p < |ts'| ensures ts'[p] == Triplet((data + [t.data])[p], (rows + [t.row])[p], (cols + [t.col])[p]) {
      if p < |ts| {
        assert ts'[p] == ts[p];
      }
    }
  }

  /**
   * The `j` loop of frame/main.py:78-85 for one row whose DOF is active at
   * index `row`: it appends the row's triplets to the lists.
   */
  method ScatterRow(data: seq<real>, rows: seq<int>, cols: seq<int>, ghost ts: seq<Triplet>,
                    k: Block, i: nat, row: int, nb: NodeId, coo: seq<Dof>)
    returns (data': seq<real>, rows': seq<int>, cols': seq<int>)
    requires Unzipped(data, rows, cols, ts) && IsBlock(k) && i < 6
    ensures Unzipped(data', rows', cols', ts + RowTriplets(k, i, row, nb, CooIndex(coo), 6))
  {
    ghost var idx := CooIndex(coo);
    data', rows', cols' := data, rows, cols;
    ghost var cur := ts;
    assert ts + RowTriplets(k, i, row, nb, idx, 0) == ts;
    for j := 0 to 6
      invariant cur == ts + RowTriplets(k, i, row, nb, idx, j)
      invariant Unzipped(data', rows', cols', cur)
    {
      var c := IndexOf(coo, Dof(nb, Axes[j]));
      if c.None? {
        continue;
      }
      var col := c.value;
      var t := Triplet(k[i][j], row, col);
      UnzippedSnoc(data', rows', cols', cur, t);
      data', rows', cols' := data' + [k[i][j]], rows' + [row], cols' + [col];
      cur := cur + [t];
    }
  }

  /**
   * The `i` loop of frame/main.py:73-85 for one block placed at nodes `na`
   * (rows) and `nb` (columns): a row whose DOF is inactive is skipped.
   */
  method ScatterBlock(data: seq<real>, rows: seq<int>, cols: seq<int>, ghost ts: seq<Triplet>,
                      k: Block, na: NodeId, nb: NodeId, coo: seq<Dof>)
    returns (data': seq<real>, rows': seq<int>, cols': seq<int>)
    requires Unzipped(data, rows, cols, ts) && IsBlock(k)
    ensures Unzipped(data', rows', cols', ts + BlockTriplets(k, na, nb, CooIndex(coo), 6))
  {
    ghost var idx := CooIndex(coo);
    data', rows', cols' := data, rows, cols;
    ghost var cur := ts;
    assert ts + BlockTriplets(k, na, nb, idx, 0) == ts;
    for i := 0 to 6
      invariant cur == ts + BlockTriplets(k, na, nb, idx, i)
      invariant Unzipped(data', rows', cols', cur)
    {
      var r := IndexOf(coo, Dof(na, Axes[i]));
      if r.None? {
        continue;
      }
      var row := r.value;
      data', rows', cols' := ScatterRow(data', rows', cols', cur, k, i, row, nb, coo);
      cur := cur + RowTriplets(k, i, row, nb, idx, 6);
    }
  }

  /**
   * The body of the member loop of frame/main.py:72-85: `zip` pairs the
   * member's blocks with what is left of `perm`, stops at the shorter of the
   * two, and the paired blocks are scattered. Returns what is left of `perm`.
   */
  method ScatterMember(data: seq<real>, rows: seq<int>, cols: seq<int>, ghost ts: seq<Triplet>,
                       ln: Member, matrixes: seq<Block>, perm: seq<(End, End)>, coo: seq<Dof>)
    returns (data': seq<real>, rows': seq<int>, cols': seq<int>, perm': seq<(End, End)>)
    requires Unzipped(data, rows, cols, ts)
    requires forall p :: 0 <= p < |matrixes| ==> IsBlock(matrixes[p])
    ensures perm' == perm[Zipped(matrixes, perm)..]
    ensures Unzipped(data', rows', cols', ts + PairedTriplets(ln, matrixes, perm, CooIndex(coo), Zipped(matrixes, perm)))
  {
    ghost var idx := CooIndex(coo);
    data', rows', cols', perm' := data, rows, cols, perm;
    ghost var cur := ts;
    assert ts + PairedTriplets(ln, matrixes, perm, idx, 0) == ts;
    var q := 0;
    while q < |matrixes| && perm' != []
      invariant 0 <= q <= Zipped(matrixes, perm)
      invariant perm' == perm[q..]
      invariant cur == ts + PairedTriplets(ln, matrixes, perm, idx, q)
      invariant Unzipped(data', rows', cols', cur)
    {
      var k, n := matrixes[q], perm'[0];
      assert n == perm[q];
      perm' := perm'[1..];
      data', rows', cols' := ScatterBlock(data', rows', cols', cur, k, EndNode(ln, n.0), EndNode(ln, n.1), coo);
      PairedTripletsSnoc(ts, ln, matrixes, perm, idx, q);
      cur := cur + BlockTriplets(k, EndNode(ln, n.0), EndNode(ln, n.1), idx, 6);
      q := q + 1;
    }
  }

  /**
   * The stiffness part of `calculate` (frame/main.py:56-85): the members'
   * blocks are zipped with the one-shot generator `perm` and every entry
   * whose row and column DOFs are both active is appended to `data`,
   * `rows` and `cols`. The lists hold exactly the as-written triplets.
   */
  method ScatterCoo(members: seq<Member>, blocks: seq<seq<Block>>, coo: seq<Dof>)
    returns (data: seq<real>, rows: seq<int>, cols: seq<int>)
    requires BlocksOf(members, blocks)
    ensures Unzipped(data, rows, cols, CooTriplets(members, blocks, EndPairs, CooIndex(coo), |members|))
  {
    ghost var idx := CooIndex(coo);
    data, rows, cols := [], [], [];
    var perm := EndPairs;
    ghost var ts: seq<Triplet> := [];
    for m := 0 to |members|
      invariant perm == PermAfter(blocks, EndPairs, m)
      invariant ts == CooTriplets(members, blocks, EndPairs, idx, m)
      invariant Unzipped(data, rows, cols, ts)
    {
      ghost var perm0 := perm;
      data, rows, cols, perm := ScatterMember(data, rows, cols, ts, members[m], blocks[m], perm, coo);
      ts := ts + PairedTriplets(members[m], blocks[m], perm0, idx, Zipped(blocks[m], perm0));
    }
  }

  /**
   * One block of frame/main.py:117-123, added in place into `K`: the entry
   * `(k1, k2)` goes to `(idx(na, axis k1), idx(nb, axis k2))` when both
   * indices are non-negative.
   */
  method AddBlock(K: array2<real>, ghost ts: seq<Triplet>, k: Block, na: NodeId, nb: NodeId, idx: IndexMap)
    requires IsBlock(k)
    requires forall d :: idx(d) < K.Length0 && idx(d) < K.Length1
    requires forall a, b :: 0 <= a < K.Length0 && 0 <= b < K.Length1 ==> K[a, b] == SumAt(ts, a, b)
    modifies K
    ensures forall a, b :: 0 <= a < K.Length0 && 0 <= b < K.Length1 ==> K[a, b] == SumAt(ts + BlockTriplets(k, na, nb, idx, 6), a, b)
  {
    ghost var cur := ts;
    assert ts + BlockTriplets(k, na, nb, idx, 0) == ts;
    for k1 := 0 to 6
      invariant cur == ts + BlockTriplets(k, na, nb, idx, k1)
      invariant forall a, b :: 0 <= a < K.Length0 && 0 <= b < K.Length1 ==> K[a, b] == SumAt(cur, a, b)
    {
      ghost var row := idx(Dof(na, Axes[k1]));
      AddRow(K, cur, k, k1, na, nb, idx);
      cur := cur + if row >= 0 then RowTriplets(k, k1, row, nb, idx, 6) else [];
    }
  }

  /** Row `k1` of one block, frame/main.py:118-123: the inner loop over `k2`. */
  method AddRow(K: array2<real>, ghost ts: seq<Triplet>, k: Block, k1: nat, na: NodeId, nb: NodeId, idx: IndexMap)
    requires IsBlock(k) && k1 < 6
    requires forall d :: idx(d) < K.Length0 && idx(d) < K.Length1
    requires forall a, b :: 0 <= a < K.Length0 && 0 <= b < K.Length1 ==> K[a, b] == SumAt(ts, a, b)
    modifies K
    ensures forall a, b :: 0 <= a < K.Length0 && 0 <= b < K.Length1 ==>
      K[a, b] == SumAt(ts + if idx(Dof(na, Axes[k1])) >= 0 then RowTriplets(k, k1, idx(Dof(na, Axes[k1])), nb, idx, 6) else [], a, b)
  {
    ghost var cur := ts;
    ghost var row := idx(Dof(na, Axes[k1]));
    assert ts + RowTriplets(k, k1, row, nb, idx, 0) == ts;
    for k2 := 0 to 6
      invariant cur == ts + (if row >= 0 then RowTriplets(k, k1, row, nb, idx, k2) else [])
      invariant forall a, b :: 0 <= a < K.Length0 && 0 <= b < K.Length1 ==> K[a, b] == SumAt(cur, a, b)
    {
      var a := idx(Dof(na, Axes[k1]));
      var b := idx(Dof(nb, Axes[k2]));
      if a >= 0 && b >= 0 {
        var t := Triplet(k[k1][k2], a, b);
        forall a', b' | 0 <= a' < K.Length0 && 0 <= b' < K.Length1
          ensures SumAt(cur + [t], a', b') == SumAt(cur, a', b') + (if a == a' && b == b' then t.data else 0.0)
        {
          SumAtSnoc(cur, t, a', b');
        }
        K[a, b] := K[a, b] + k[k1][k2];
        cur := cur + [t];
      }
    }
  }

  /**
   * The stiffness part of `frame_calculate` (frame/main.py:110-123): an
   * `n` x `n` zero matrix to which every block of every member is added in
   * place, the ends of block `i` taken as `n[i // 2], n[i % 2]`. The
   * result is the matrix the dense triplets describe.
   */
  method AssembleDense(n: nat, members: seq<Member>, blocks: seq<seq<Block>>, idx: IndexMap) returns (K: array2<real>)
    requires BlocksOf(members, blocks)
    requires forall d :: idx(d) < n
    ensures fresh(K) && K.Length0 == n && K.Length1 == n
    ensures forall a, b :: 0 <= a < n && 0 <= b < n ==> K[a, b] == SumAt(DenseTriplets(members, blocks, idx, |members|), a, b)
  {
    K := new real[n, n]((a, b) => 0.0);
    ghost var ts: seq<Triplet> := [];
    for m := 0 to |members|
      invariant ts == DenseTriplets(members, blocks, idx, m)
      invariant forall a, b :: 0 <= a < n && 0 <= b < n ==> K[a, b] == SumAt(ts, a, b)
    {
      AddMember(K, ts, members[m], blocks[m], idx);
      ts := ts + MemberTriplets(members[m], blocks[m], idx);
    }
  }

  /**
   * One member of frame/main.py:114-123: its four blocks are added in
   * place, block `i` at the ends `n[i // 2], n[i % 2]`.
   */
  method AddMember(K: array2<real>, ghost ts: seq<Triplet>, ln: Member, bl: seq<Block>, idx: IndexMap)
    requires StiffnessBlocks(bl)
    requires forall d :: idx(d) < K.Length0 && idx(d) < K.Length1
    requires forall a, b :: 0 <= a < K.Length0 && 0 <= b < K.Length1 ==> K[a, b] == SumAt(ts, a, b)
    modifies K
    ensures forall a, b :: 0 <= a < K.Length0 && 0 <= b < K.Length1 ==> K[a, b] == SumAt(ts + MemberTriplets(ln, bl, idx), a, b)
  {
    var ends := [ln.n1, ln.n2];
    ghost var cur := ts;
    assert ts + PairedTriplets(ln, bl, EndPairs, idx, 0) == ts;
    for i := 0 to 4
      invariant cur == ts + PairedTriplets(ln, bl, EndPairs, idx, i)
      invariant forall a, b :: 0 <= a < K.Length0 && 0 <= b < K.Length1 ==> K[a, b] == SumAt(cur, a, b)
    {
      assert ends[i / 2] == EndNode(ln, EndPairs[i].0) && ends[i % 2] == EndNode(ln, EndPairs[i].1);
      AddBlock(K, cur, bl[i], ends[i / 2], ends[i % 2], idx);
      cur := cur + BlockTriplets(bl[i], ends[i / 2], ends[i % 2], idx, 6);
    }
  }
}
