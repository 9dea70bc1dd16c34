# Frame DOF bookkeeping and section arguments, in Dafny

This project models the core of a small frame-analysis JSON-RPC service.

**`calculate` (frame/main.py).** It takes a model: nodes, lines (members), boundaries and node loads, each held in a dict or a list that may contain `None` holes. Then it:

- enumerates the active degrees of freedom (DOFs), which are (node, axis) pairs not restrained by a boundary whose value is exactly `True`;
- scatters the four 6x6 stiffness blocks of the first member only (see Findings) into `(data, row, col)` triplets for a sparse matrix;
- accumulates the nonzero node load components into a load vector;
- solves the system and maps the solution back to `node -> axis -> displacement`.

**`frame_calculate`.** It adds the four blocks of every member into a dense matrix, in place, and every load component on an effective DOF, zero or not, into a dense vector.

**frame/section.py.** This file:

- merges positional and keyword arguments into the parameter order of a section shape (`ordered_args`, `mandate`);
- dispatches on the shape letter (`properties`);
- computes the properties of an H section (`h_properties`).

Modules, one per concern:

- `Wrappers`: `Option` and `Result`.
- `Sequences`: `IndexOf`, which is `tuple.index` with `None` for `ValueError`.
- `Iteration`: the model collections and `values`/`items`/`keys`.
- `Dofs`: `fixed_coos` and `coo_indexes`.
- `Scatter`: the triplet specification; the list-appending scatter of `calculate`; the in-place dense assembly of `frame_calculate`.
- `Loads`: the load vector, both sparse and dense.
- `Results`: the displacement dictionary.
- `Calculate`: the whole of `calculate`.
- `Section`: frame/section.py.

Imperative parts stay imperative:

- The scatter loops are methods over `seq` lists. Their ghost triplet sequence states what has been appended so far.
- The dense assembly updates an `array2` in place, and the load vectors are `array`s.
- The result dictionary is built by a loop.

Each method is specified by a function: `CooTriplets`, `DenseTriplets`, `LoadAt` or `AllBlocks`. Its properties are proved as lemmas.

## Model

| member | source | states |
|---|---|---|
| Iteration.Items | frame/main.py:25-29 | a pair (k, v) is yielded exactly when the dict or list holds the non-`None` value v under key (or position) k |
| Iteration.Values | frame/main.py:18-22 | one value per yielded item, in the same order: the non-`None` values in iteration order |
| Iteration.Keys | frame/main.py:32-34 | one key per yielded item, in the same order |
| Iteration.ItemsAreOrderedPresentEntries | frame/main.py:18-34 | the items are exactly the non-`None` entries, unwrapped, at strictly increasing positions; every non-`None` entry is among them |
| Iteration.KeysDistinct | frame/main.py:32-34 | the keys of a model collection never repeat |
| Iteration.Lookup | frame/main.py:63 | `seq[k]` raises exactly when no entry has key k (negative list indices counted from the end); otherwise it returns the stored entry, a `None` hole included, and a record exactly where `Get` gives one |
| Iteration.Get | frame/main.py:63-64 | `seq[k]` gives a usable record v exactly when (k, v) is an item; otherwise the lookup raises, or returns a `None` hole whose use raises `TypeError` |
| Sequences.IndexOf | frame/main.py:75 | `None` exactly when the element is absent; otherwise the position of its first occurrence |
| Sequences.IndexOfInverts | frame/main.py:100 | in a sequence without duplicates, the index of the k-th element is k |
| Dofs.FixedDofs | frame/main.py:39-44 | (n, a) is restrained exactly when some boundary of node n holds the boolean `True` at axis a; numbers and `False` do not restrain |
| Dofs.FreeAxes | frame/main.py:48-49 | a node's unrestrained pairs are exactly its pairs not in `fixed_coos` |
| Dofs.FreeAxesOrdered | frame/main.py:38 | within a node the pairs come in axis order x, y, z, rx, ry, rz |
| Dofs.FreeAxesCount | frame/main.py:48-49 | a node's free pairs plus its restrained pairs make six |
| Dofs.FreeAxesAllFixed | frame/main.py:45-50 | a node with all six axes restrained contributes nothing |
| Dofs.ActiveDofs | frame/main.py:45-50 | a pair is enumerated exactly when its node is a model key and it is not restrained |
| Dofs.ActiveDofsOrdered | frame/main.py:45-50 | with distinct keys the pairs come strictly in node order, then axis order |
| Dofs.ActiveDofsDistinct | frame/main.py:45-50 | with distinct keys no pair is enumerated twice |
| Dofs.ActiveDofsIndexInverts | frame/main.py:45-50 | `coo_indexes.index(coo_indexes[k]) == k` |
| Dofs.ActiveDofsCount | frame/main.py:45-50 | the number of active DOFs is 6 per node minus the restrained pairs that lie on model nodes |
| Dofs.TestRestraints | frame/tests/test_main.py:10 | of the test boundaries only (1, ry) and (0, z) are restrained; 100, 0, -15, 1 and `False` are not |
| Dofs.TestEnumerationOfModel | frame/tests/test_main.py:9-12 | node keys 0, 1, 3, which are the test nodes' `recid`s rather than the list positions `calculate` would use, with those boundaries enumerate to the expected 16-pair tuple |
| Dofs.TestSingleActiveDof | frame/tests/test_main.py:38-41 | the second test's boundaries leave only (1, z) active; the number 0 does not restrain |
| Scatter.CooIndexSpec | frame/main.py:74-82 | the index of a DOF is non-negative exactly when it is enumerated, stays below `len(coo_indexes)`, and points back to that DOF |
| Scatter.CooIndex | frame/main.py:74-77 | `coo_indexes.index`, with -1 where it raises `ValueError`; `CooIndexSpec` states its meaning |
| Scatter.RowTripletsSpec | frame/main.py:78-85 | a block row yields one triplet per active column, carrying `k[i][j]`, the row index and that column's index, and nothing else |
| Scatter.BlockTripletsSpec | frame/main.py:73-85 | a block entry becomes a triplet exactly when both its row DOF and its column DOF are active; the count is (active rows) x (active columns) |
| Scatter.BlockTripletsInactive | frame/main.py:73-85 | a block at a node with no active DOF yields nothing |
| Scatter.SingleDofBlock | frame/main.py:73-85 | with one active DOF d, the block of d's node against itself yields only its diagonal entry on d's axis, at (0, 0) |
| Scatter.PermPairs | frame/main.py:59-60 | `perm` yields each of the four end pairs once, the q-th being `(ends[q // 2], ends[q % 2])`, which is the order `frame_calculate` uses for block `i` |
| Scatter.CooTriplets | frame/main.py:56-85 | the triplets `calculate` appends, each member drawing its end pairs from what is left of `perm`; `OnlyFirstMemberScattered` and `CooTripletsInRange` state its properties |
| Scatter.DenseTriplets | frame/main.py:110-123 | the triplets of every member at all four end pairs; `DenseTripletsContainMember` and `DenseTripletsInRange` state its properties |
| Scatter.CooTripletsInRange | frame/main.py:83-86 | every appended row and column lies in `[0, len(coo_indexes))` |
| Scatter.DenseTripletsInRange | frame/main.py:120-123 | every entry `frame_calculate` adds lies inside the matrix when the index map stays below its size |
| Scatter.PermExhausted | frame/main.py:60 | after the first member's four blocks nothing is left of `perm` |
| Scatter.OnlyFirstMemberScattered | frame/main.py:59-72 | with `perm` created once, the triplets of all members are those of the first member alone |
| Scatter.FirstMemberAgrees | frame/main.py:72 | on one member the as-written triplets equal those of every-member assembly |
| Scatter.SecondMemberLost | frame/main.py:60-72 | for the frame 0-1, 1-2 with only (2, x) free, `calculate` scatters nothing, while the dense assembly keeps the second member's entry |
| Scatter.DenseTripletsContainMember | frame/main.py:111-123 | in the dense assembly every member's triplets all reach the matrix |
| Scatter.UnzippedUnique | frame/main.py:86 | the three lists `data`, `rows`, `cols` and the triplet sequence determine each other |
| Scatter.SumAtSnoc | frame/main.py:86 | an appended triplet adds its value at its own (row, col) and nowhere else, as duplicates sum in `coo_matrix` |
| Scatter.ScatterRow | frame/main.py:78-85 | the `j` loop appends exactly the row's triplets to the three lists |
| Scatter.ScatterBlock | frame/main.py:73-85 | the `i` loop skips inactive rows and appends exactly the block's triplets |
| Scatter.ScatterMember | frame/main.py:72-85 | `zip` takes min(blocks, rest of `perm`) pairs, appends their triplets and leaves the rest of `perm` |
| Scatter.ScatterCoo | frame/main.py:56-85 | the lists hold exactly the as-written triplets of all members |
| Scatter.AddRow | frame/main.py:118-123 | after one `k2` loop every matrix entry is the sum of the triplets so far plus the row's |
| Scatter.AddBlock | frame/main.py:117-123 | after one block every matrix entry is the sum of the previous triplets plus the block's |
| Scatter.AddMember | frame/main.py:112-123 | the four blocks go to `n[i // 2], n[i % 2]`, which are the end pairs (n1,n1), (n1,n2), (n2,n1), (n2,n2) |
| Scatter.AssembleDense | frame/main.py:110-123 | `K[a][b]` is the sum of all dense triplets at (a, b) |
| Loads.CooIndexInjective | frame/main.py:92 | distinct DOFs never share an index |
| Loads.Component | frame/main.py:90-95 | `ld[coo]`, the component of a load on one axis |
| Loads.LoadAt | frame/main.py:87-95 | entry r of the load vector after all loads; `LoadAtActive` and `LoadVectorEntries` state that it is the total load on the DOF at r |
| Loads.LoadAtActive | frame/main.py:88-95 | the entry at an active DOF's index is the total load on that DOF; loads on the same DOF add up |
| Loads.LoadVectorEntries | frame/main.py:87-95 | `b[r]` is the total load on `coo_indexes[r]` |
| Loads.DroppedLoad | frame/main.py:91-94 | a load on a node with no active DOF (fixed or unknown) leaves every entry unchanged |
| Loads.TotalLoadAppend | frame/main.py:88-95 | totals over consecutive groups of loads add up |
| Loads.AddLoad | frame/main.py:89-95 | one load adds, at each index, the components whose DOF has that index |
| Loads.AssembleLoads | frame/main.py:87-95 | `b` has length `len(coo_indexes)` and entry r is the accumulated load at r |
| Loads.AssembleDenseLoads | frame/main.py:124-129 | `P` has the model's size and entry r is the accumulated load at r |
| Loads.TestSingleLoad | frame/tests/test_main.py:43 | the test load on a model with only (1, z) active gives the load vector [1] |
| Results.MapDisplacements | frame/main.py:97-102 | the dictionary holds exactly the enumerated DOFs, each with `dis` at its index; a node appears exactly when one of its DOFs is enumerated |
| Results.ResultNodes | frame/main.py:97-104 | a node is in the result exactly when it is a model node with an unrestrained axis |
| Calculate.EndError | frame/main.py:63-64 | no error exactly when both ends are node records; an absent `n1` is reported first, an absent end's error is a lookup error, and a `None` hole is reported only after both lookups succeed, the hole at `n2` before the one at `n1` |
| Calculate.HoleThenMissing | frame/main.py:63-64 | a hole at `n1` with an absent `n2` reports the `KeyError` for `n2` |
| Calculate.TwoHoles | frame/main.py:64 | holes at both ends report the one at `n2`, since `nobjs[1]` is subscripted first |
| Calculate.FirstEndError | frame/main.py:62-64 | no error exactly when the ends of every line resolve; otherwise the error is that of some line all of whose predecessors resolve |
| Calculate.MemberVector | frame/main.py:64 | `v`: adding it to the first end's coordinates gives the second end's |
| Calculate.AllBlocks | frame/main.py:62-71 | one block list per line, computed from the vector between its end nodes |
| Calculate.AllBlocksShape | frame/main.py:71 | with four 6x6 blocks per call, there are four blocks for every member |
| Calculate.Solution | frame/main.py:86-96 | the solver output has one value per active DOF |
| Calculate.LineStiffnesses | frame/main.py:62-71 | fails exactly when some line's ends do not resolve, with the error of the first such line; otherwise gives the blocks of every line |
| Calculate.Calculate | frame/main.py:37-105 | of the errors of `calculate`, it models only those of the line ends (see Left out): it fails exactly when some line's ends do not resolve, with the first such line's error; otherwise it maps exactly the enumerated DOFs to the solution of the as-written triplet matrix against the load vector |
| Calculate.OneMemberSystem | frame/main.py:37-96 | a single member from (0,0,0) to (0,0,1) with only (1, z) active is solved as the 1x1 system of its (z, z) upper-end stiffness against load 1 |
| Calculate.TestModelEnumeration | frame/tests/test_main.py:30-41 | `calculate`'s enumeration of the test frame's nodes and boundaries gives only (1, z), and its member's ends resolve |
| Calculate.TestDenseSystem | frame/tests/test_main.py:29-46 | `frame_calculate` on the test frame, with (1, z) numbered 0 and no other DOF effective, assembles the 1x1 matrix of the member's upper-end (z, z) stiffness and the load vector [1] |
| Section.TakenNames | frame/section.py:7-8 | a name is taken exactly when it is among the remaining names and supplied by keyword |
| Section.KeywordValues | frame/section.py:7-9 | one value per taken name, `kwargs[name]`, in table order |
| Section.OrderedArgs | frame/section.py:4-9 | the positional arguments come first, unchanged; then the keyword values of the remaining names in table order |
| Section.Mandate | frame/section.py:12-13 | `func` applied to `ordered_args`; `MandateNormalizes` states that any positional/keyword split gives the call in table order |
| Section.TakenNamesOrdered | frame/section.py:7-9 | the taken names appear in table order |
| Section.TakenNamesCount | frame/section.py:7-9 | with distinct names, one value per supplied name |
| Section.OrderedArgsCount | frame/section.py:4-9 | the output length is `len(args)` plus the number of remaining names found in `kwargs` |
| Section.PositionalNotRetaken | frame/section.py:7 | a name covered positionally is never taken again from `kwargs` |
| Section.ExtraKeywordIgnored | frame/section.py:8 | adding or removing a keyword outside the names changes nothing |
| Section.OrderedArgsIgnoresOthers | frame/section.py:7-9 | keywords that are not remaining parameter names are ignored |
| Section.KeywordValuesComplete | frame/section.py:7-9 | when every name is supplied, the values come out in name order |
| Section.MandateNormalizes | frame/section.py:12-13 | however the arguments are split between positions and keywords, `func` is called with them in table order |
| Section.Dispatch | frame/section.py:16-34 | a table entry exists exactly for H, T, I, O, C and R |
| Section.Properties | frame/section.py:16-35 | an unknown shape fails with the unbound-name error; a known one selects the section function of its table entry and passes it `ordered_args` over that entry's names, positional arguments first |
| Section.ShapeTable | frame/section.py:17-34 | H and T take (H, B, tw, tf, r); I and C take (H, B, tw, tf); O takes (D, t); R takes (H, B, t, r); no table repeats a name |
| Section.HProperties | frame/section.py:38-62 | succeeds exactly when H, B and A are nonzero and Iy/A, Iz/A are non-negative; the error is ZeroDivision before MathDomain; Ax, Iy, Iz are the computed A, Iy, Iz |
| Section.HArea | frame/section.py:42 | `A` with fillets; `HAreaNoFillet` gives its closed forms at r = 0 |
| Section.HIz | frame/section.py:43-46 | `Iz` with fillets; `HIzNoFillet` gives its closed form at r = 0 |
| Section.HIy | frame/section.py:47-50 | `Iy` with fillets; `HIyNoFillet` gives its closed form at r = 0 |
| Section.NoFillet | frame/section.py:39-41 | the fillet terms vanish for r = 0 |
| Section.HAreaNoFillet | frame/section.py:42 | for r = 0, A = 2 B tf + (H - 2 tf) tw = B H - (B - tw)(H - 2 tf) |
| Section.HIyNoFillet | frame/section.py:47-50 | for r = 0, Iy = (B H^3 - (B - tw)(H - 2 tf)^3) / 12 |
| Section.HIzNoFillet | frame/section.py:43-46 | for r = 0, Iz = (2 tf B^3 + (H - 2 tf) tw^3) / 12 |
| Section.HPropertiesNoFillet | frame/section.py:51-57 | for r = 0, Ax = 2 B tf + (H - 2 tf) tw, Ay = 2 tf B, Az = tw H, J = (2 B tf^3 + (H - 2 tf) tw^3) / 3 |
| Section.HCall | frame/section.py:38 | four arguments leave r = 0, five give r as the fifth; counts other than 4 or 5 are a `TypeError` |
| Section.HShapeProperties | frame/section.py:16-38 | `properties('H', ...)` is `h_properties` called with `ordered_args` over (H, B, tw, tf, r) |
| Section.KeywordValuesAppend | frame/section.py:7-9 | keyword values over consecutive groups of names concatenate |
| Section.HArgsByKeyword | frame/section.py:4-9 | H, B, tw, tf by keyword come out in table order, with nothing for the absent r |
| Section.HArgsMixed | frame/section.py:4-9 | H, B by position with tf, tw and a stray D by keyword give (H, B, tw, tf) |
| Section.HArgsMissingFlange | frame/section.py:4-9 | without tf only three values are passed |
| Section.HArgsSkippedFlange | frame/section.py:4-9 | with `tf` missing and `r` given by keyword, the value of r is passed in the place of tf |
| Section.HShapeSkippedFlange | frame/section.py:4-38 | `properties('H', H=…, B=…, tw=…, r=…)` computes an H section whose flange thickness is r and whose fillet is 0 |
| Section.HShapeCalls | frame/section.py:12-38 | `properties('H', ...)` equals the positional call with r = 0, by keyword or mixed; leaving out tf is an arity error |

## Left out

- `spsolve` (SciPy sparse linear algebra) is a function parameter of `Calculate`. The model assumes only that the solution has one value per active DOF, so a singular system is whatever the parameter returns. The dense `frame_calculate` stops at `K` and `P`: its `solve` and its result loop (frame/main.py:130-137) are not modelled.
- `line.stiffness_global` is not part of this model. The stiffness function is a parameter, assumed to return four 6x6 blocks.
- Calculate.Calculate: the `sections` comprehension (frame/main.py:51-54) is not modelled. It runs before the member loop and calls `section.properties(**data)` on every section, used or not, so it can raise the `UnboundLocalError`, `TypeError`, `ZeroDivisionError` and `ValueError` that `Section.Properties` and `Section.HProperties` model. The model takes no sections, so its errors are only those of the line ends.
- Calculate.Calculate: the `KeyError`s of `model['sections']`, `model['materials']`, `sections[ln['section']]` and `materials[ln['material']]` (frame/main.py:53, 55, 67, 70) are not modelled either. A line's section and material ids reach the stiffness function unchanged.
- `Model`, `effective_count`, `effective_indexof` and `line_vector` of frame/model.py are not part of this model. `frame_calculate`'s index map is a parameter whose values stay below the matrix size.
- `t_properties`, `i_properties`, `o_properties`, `c_properties` and `r_properties` are only named by the dispatch. Their bodies are not modelled.
- Section.HProperties: the `iy` and `iz` values (square roots) are not returned. Only the conditions under which they raise are modelled.
- Python floats are modelled as exact reals, so rounding, infinities and NaN are not captured. `math.pi` is the exact value of its double.
- Model ids are integers. A list's ids are its positions.
- Records are assumed to carry every field of the structure described at frame/main.py:2-7. The `KeyError` of a missing `bound['node']`, `bound[coo]`, `ld['node']`, `ld[coo]`, `ln['n1']`, `ln['n2']` or `node['x']` (frame/main.py:40-43, 63-64, 89-92) is not modelled.
- `coo_matrix` is modelled as its three input lists and size. Summing duplicates is the `SumAt` reading of a triplet sequence.
- `properties` raises a `TypeError` when `shape` is given both by position and by keyword; here that would be `kwargs` holding `"shape"` beside the shape argument. `mandate` raises one when `kwargs` holds `func` or `arg_names`. Neither collision is modelled: such keywords are treated like any other name outside the table. `calculate`'s own call `section.properties(**data)` passes `shape` by keyword only, so it never collides on `shape`.
- `calculate` scatters only the first member (see Findings). The model of `calculate` keeps that behaviour.
- A boundary or node load on a node that is not a model key is ignored silently: its DOFs are never enumerated, so `fixed_coos` and the load loop have no effect on them.

## Findings

| source | as written | input that shows it | evidently intended | confidence | as-written member | corrected member |
|---|---|---|---|---|---|---|
| frame/main.py:60 | `perm` is a generator created once, before the member loop. The first member's `zip` consumes all four end pairs, so every later member scatters nothing. | Nodes 0, 1, 2; lines 0-1 and 1-2; every DOF restrained except (2, x). `calculate` appends no triplet, so the matrix is all zero. The second member's (n2, n2) entry at (0, 0) is lost. | Every member is scattered at all four end pairs, as `frame_calculate` does with `n[i // 2], n[i % 2]`. | not executed | Scatter.SecondMemberLost | Scatter.DenseTripletsContainMember |
