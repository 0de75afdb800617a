# Settlement graph, modelled and verified in Dafny

This project models the `SettlementGraph` class of the expense-settlement
repository and proves properties of that model. The class records
pairwise IOUs (a borrower owes a lender an amount) in two synchronised
adjacency maps: a forward map borrower → (lender → amount) and a reverse
map lender → (borrower → amount). It then collapses chains
b → l → ll into direct debt until no node is both owed and owing.

The class exists in three copies, and each is modelled in its own module:

- `Settlement` (`settlement.dfy`) is the canonical TypeScript class of
  `consumers/core/settlementGraph.ts`.
- `StaleSettlement` (`stale.dfy`) is the stale TypeScript copy in
  `scripts/runExpenseSettlement.ts`.
- `PySettlement` (`py.dfy`) is the Python proof of concept in
  `scripts/main.py`.
- `Ledger` (`ledger.dfy`) holds what the three share:
  - the graph value (`Graph(fwd, rev)`);
  - the paired write `Put` and the paired delete `Del`;
  - the agreement, positivity and no-self-loop predicates;
  - the two quantities the collapse is judged by: every node's net position
    `Net` (what it owes minus what it is owed) and the total weight `Weight`
    (the sum of all amounts).

Each copy is modelled in two layers:

1. Functions on `Graph` values state what every operation does, and lemmas
   state what it preserves.
2. A class with the two maps as fields performs the operations in place. Its
   methods are proved equal to those functions, and its loops carry the
   invariants the proofs need.

The canonical and the Python collapse loops are proved to terminate, with the
total weight as the measure: every consolidation of those copies lowers the
weight by at least the smaller chain amount, which is at least 1. The stale
loop terminates because it makes a single pass. Its consolidations need not
lower the weight: in its costDiff < 0 branch the edge b → l survives at its
old amount (`StaleSettlement.StaleKeepsMergedEdge`).

JavaScript's `first` is `Settlement.First`: it picks an arbitrary key, so
nothing depends on key order. Python's `mdefaultdict` has two behaviours,
and the model captures both:

- Reading an absent outer key stores an empty row (`Ledger.Touch`, and
  `ReadFwd`/`ReadRev` in `PySettlement`).
- Reading an absent inner key yields 0 and stores nothing (`Ledger.GetOr`,
  `Ledger.Amt`).

An exception is a `Result` value: `Err("KeyError")` for Python's `del` of a
missing key, and `Err("TypeError")` for the stale copy's `undefined | 0n`.

The Python graph may have a forward row for a node that has no reverse row,
and the other way round. To compare it with the canonical model,
`PySettlement.Square` adds the missing empty rows to both maps; empty rows
carry no debt. For every chain b → l → ll whose onward lender is not its
borrower (b ≠ ll), the lemma `PySettlement.PyTripletSquare` proves that the
Python consolidation, squared, is the canonical consolidation of the squared
graph. Everything proved about the canonical model then carries over through
`PySettlement.PyTripletStep`. The excluded case b == ll is two nodes owing
each other; there the Python code raises KeyError (`PySettlement.PyTripletSelf`,
third row of the findings).

## Model

| member | source | states |
|---|---|---|
| `Ledger.Put` | consumers/core/settlementGraph.ts:76-77 | The paired write stores the same amount for b → l in both maps, adds b and l as keys, and changes no other edge or amount in either map. |
| `Ledger.Del` | consumers/core/settlementGraph.ts:48-49 | The paired delete removes b → l from both maps and changes no other edge or amount in either map; a missing entry is left alone. |
| `Ledger.PutAgree` | consumers/core/settlementGraph.ts:76-77 | The paired write keeps the forward and reverse map in agreement. |
| `Ledger.DelAgree` | consumers/core/settlementGraph.ts:48-49 | The paired delete keeps the two maps in agreement. |
| `Ledger.PutPositive` | consumers/core/settlementGraph.ts:76-77 | Writing a positive amount keeps every stored amount positive. |
| `Ledger.DelPositive` | consumers/core/settlementGraph.ts:48-49 | Deleting keeps every stored amount positive. |
| `Ledger.PutNoSelfLoop` | consumers/core/settlementGraph.ts:76-77 | Writing an edge between two distinct nodes creates no self-loop. |
| `Ledger.DelNoSelfLoop` | consumers/core/settlementGraph.ts:48-49 | Deleting creates no self-loop. |
| `Ledger.PutWeight` | consumers/core/settlementGraph.ts:76-77 | Writing v in place of the old amount changes the total weight by v minus the old amount. |
| `Ledger.DelWeight` | consumers/core/settlementGraph.ts:48-49 | Deleting lowers the total weight by the deleted amount. |
| `Ledger.PutNet` | consumers/core/settlementGraph.ts:76-77 | Writing v moves v minus the old amount of debt: b owes that much more and l is owed that much more; no other net position changes. |
| `Ledger.DelNet` | consumers/core/settlementGraph.ts:48-49 | Deleting cancels the deleted amount at both of its ends and at no other node. |
| `Ledger.RevMirrorsFwd` | consumers/core/settlementGraph.ts:42-43 | In agreeing maps, the reverse entry l → b reads the same amount as the forward entry b → l, 0 when absent. |
| `Ledger.Touch` | consumers/core/settlementGraph.ts:29-40 | Giving k a row adds k as a key and changes no row's contents: an existing row is kept, a missing one becomes empty. |
| `Settlement.Record` | consumers/core/settlementGraph.ts:29-43 | One expense of buildGraph. Its properties are stated by `Settlement.RecordEffect`, `Settlement.RecordAgree` and `Settlement.RecordClean`. |
| `Settlement.Replay` | consumers/core/settlementGraph.ts:25-45 | The graph after recording the expenses in order; `Settlement.SettlementGraph.BuildGraph` is proved to compute it. |
| `Settlement.Build` | consumers/core/settlementGraph.ts:25-45 | The graph buildGraph builds from empty maps. Its properties are stated by `Settlement.BuildRows`, `Settlement.BuildLastAmount`, `Settlement.BuildLastWins` and `Settlement.BuildClean`. |
| `Settlement.RecordEffect` | consumers/core/settlementGraph.ts:29-43 | One expense of buildGraph gives both parties rows in both maps, stores the amount for borrower → lender and changes no other edge. |
| `Settlement.RecordAgree` | consumers/core/settlementGraph.ts:29-43 | Recording an expense keeps the two maps in agreement. |
| `Settlement.RecordClean` | consumers/core/settlementGraph.ts:29-43 | Recording a positive expense between two distinct parties keeps a clean graph clean. |
| `Settlement.BuildRows` | consumers/core/settlementGraph.ts:29-40 | After the build, every borrower and every lender has a row, possibly empty, in both maps, and those parties are exactly the keys. |
| `Settlement.BuildLastAmount` | consumers/core/settlementGraph.ts:42-43 | The build has the forward edge b → l exactly when some expense is from b to l, and then it holds the amount of the last such expense. |
| `Settlement.BuildLastWins` | consumers/core/settlementGraph.ts:42-43 | Duplicates overwrite: both maps hold the edge exactly when some expense is for the pair, and both hold the last expense's amount. |
| `Settlement.BuildClean` | consumers/core/settlementGraph.ts:25-45 | Positive amounts and no expense of a party to itself give a clean graph: agreeing maps, equal key sets, positive amounts, no self-loop. |
| `Settlement.Reset` | consumers/core/settlementGraph.ts:70-78 | resetEdgeAmount keeps both key sets. Afterwards b → l exists exactly when v is not 0 and holds v, and no other edge or amount changes in either map. |
| `Settlement.ResetAgree` | consumers/core/settlementGraph.ts:70-78 | resetEdgeAmount keeps the two maps in agreement. |
| `Settlement.ResetPositive` | consumers/core/settlementGraph.ts:70-78 | resetEdgeAmount with a non-negative amount keeps every amount positive. |
| `Settlement.ResetNoSelfLoop` | consumers/core/settlementGraph.ts:70-78 | resetEdgeAmount between distinct nodes creates no self-loop. |
| `Settlement.ResetNet` | consumers/core/settlementGraph.ts:70-78 | resetEdgeAmount moves v minus the old amount of debt between b and l and changes no other net position. |
| `Settlement.ResetWeight` | consumers/core/settlementGraph.ts:70-78 | resetEdgeAmount changes the weight by v minus the old amount. |
| `Settlement.Cancel` | consumers/core/settlementGraph.ts:52-68 | pruneBideractionalEdge is a no-op unless both directions are truthy. Otherwise only the pair a, c changes, in either map; the larger direction keeps the difference and equal amounts leave neither. When a == c, the truthy self-loop a → a is removed. |
| `Settlement.CancelAgree` | consumers/core/settlementGraph.ts:52-68 | Netting keeps the two maps in agreement. |
| `Settlement.CancelPositive` | consumers/core/settlementGraph.ts:52-68 | Netting keeps every amount positive. |
| `Settlement.CancelNoSelfLoop` | consumers/core/settlementGraph.ts:52-68 | Netting creates no self-loop and removes the temporary self-loop a → a. |
| `Settlement.CancelNet` | consumers/core/settlementGraph.ts:52-68 | Netting leaves every node's net position as it was. |
| `Settlement.CancelWeight` | consumers/core/settlementGraph.ts:52-68 | Netting never adds weight. |
| `Settlement.CancelPair` | consumers/core/settlementGraph.ts:57-67 | Netting distinct a and c keeps the difference a → c minus c → a and leaves at most one of the two directions. |
| `Settlement.Moved` | consumers/core/settlementGraph.ts:81-95 | The debt moved onto b → ll is the smaller of the two chain amounts: at most each of them and equal to one of them. |
| `Settlement.Merge` | consumers/core/settlementGraph.ts:83-86 | The first write of rearrangeTriplet, in either branch (also lines 92-95). Its properties are stated by `Settlement.MergeAgree`, `Settlement.MergePositive`, `Settlement.MergeNoSelfLoop`, `Settlement.MergeEdges`, `Settlement.MergeNet` and `Settlement.MergeWeight`. |
| `Settlement.MergeAgree` | consumers/core/settlementGraph.ts:83-86 | The merge write keeps the maps in agreement. |
| `Settlement.MergePositive` | consumers/core/settlementGraph.ts:83-86 | The merge write keeps every amount positive. |
| `Settlement.MergeNoSelfLoop` | consumers/core/settlementGraph.ts:83-86 | The merge writes no self-loop except b → b, and that only when b == ll. |
| `Settlement.MergeEdges` | consumers/core/settlementGraph.ts:83-86 | The merge keeps the chain, both chain amounts, costDiff and the moved debt; b → ll then holds its old amount plus the moved debt. |
| `Settlement.MergeNet` | consumers/core/settlementGraph.ts:83-86 | The merge makes b owe the moved debt more and ll be owed it more. |
| `Settlement.MergeWeight` | consumers/core/settlementGraph.ts:83-86 | The merge adds the moved debt to the weight. |
| `Settlement.CancelKeepsChain` | consumers/core/settlementGraph.ts:88 | Netting b against ll keeps the chain b → l → ll, its amounts, costDiff and the moved debt. |
| `Settlement.Residual` | consumers/core/settlementGraph.ts:89-98 | The residual step keeps both key sets; its edges are stated by `Settlement.ResidualBranches` and `Settlement.ResidualEdges`. |
| `Settlement.ResidualBranches` | consumers/core/settlementGraph.ts:89-98 | costDiff ≥ 0 resets b → l to costDiff and deletes l → ll; otherwise it resets l → ll to −costDiff and deletes b → l. |
| `Settlement.ResidualAgree` | consumers/core/settlementGraph.ts:89-98 | The residual step keeps the maps in agreement. |
| `Settlement.ResidualPositive` | consumers/core/settlementGraph.ts:89-98 | The residual step keeps every amount positive. |
| `Settlement.ResidualNoSelfLoop` | consumers/core/settlementGraph.ts:89-98 | The residual step creates no self-loop. |
| `Settlement.ResidualNet` | consumers/core/settlementGraph.ts:89-98 | The residual step hands the moved debt back: b owes it less and ll is owed it less. |
| `Settlement.KeepFirstNet` | consumers/core/settlementGraph.ts:89-90 | Keeping the residual on b → l and deleting l → ll settles y = l → ll between b and ll and leaves l unchanged. |
| `Settlement.KeepSecondNet` | consumers/core/settlementGraph.ts:97-98 | Keeping the residual on l → ll and deleting b → l settles x = b → l between b and ll and leaves l unchanged. |
| `Settlement.ResidualWeight` | consumers/core/settlementGraph.ts:89-98 | The residual step removes twice the moved debt from the weight. |
| `Settlement.KeepFirstWeight` | consumers/core/settlementGraph.ts:89-90 | The costDiff ≥ 0 residual removes twice the l → ll amount. |
| `Settlement.KeepSecondWeight` | consumers/core/settlementGraph.ts:97-98 | The costDiff < 0 residual removes twice the b → l amount. |
| `Settlement.ResidualEdges` | consumers/core/settlementGraph.ts:89-98 | The kept chain edge carries |costDiff|, removed when it is 0. The other chain edge is gone, and nothing else changes. |
| `Settlement.Rearrange` | consumers/core/settlementGraph.ts:80-100 | rearrangeTriplet: merge, net b against ll, keep the residual. Its properties are stated by `Settlement.RearrangeClean`, `Settlement.RearrangeNet`, `Settlement.RearrangeShrinks`, `Settlement.RearrangeChain`, `Settlement.RearrangeDirect`, `Settlement.RearrangeFrame` and `Settlement.RearrangeStep`. |
| `Settlement.RearrangeClean` | consumers/core/settlementGraph.ts:80-100 | A consolidation keeps the graph clean and both key sets unchanged, including when b == ll (mutual debt), where no self-loop survives. |
| `Settlement.RearrangeNet` | consumers/core/settlementGraph.ts:80-100 | A consolidation leaves every node's net position unchanged. |
| `Settlement.RearrangeShrinks` | consumers/core/settlementGraph.ts:80-100 | A consolidation lowers the weight by at least the moved debt, so it lowers it strictly. |
| `Settlement.RearrangeChain` | consumers/core/settlementGraph.ts:80-100 | When costDiff ≥ 0, b → l carries costDiff and l → ll is gone. Otherwise l → ll carries −costDiff and b → l is gone. |
| `Settlement.RearrangeDirect` | consumers/core/settlementGraph.ts:80-100 | For b ≠ ll, what b owes ll net grows by the moved debt, and at most one direction between them remains. |
| `Settlement.RearrangeFrame` | consumers/core/settlementGraph.ts:80-100 | No edge outside the chain and the pair b, ll changes. |
| `Settlement.RearrangeStep` | consumers/core/settlementGraph.ts:80-100 | One consolidation keeps cleanliness, keys and every net position, and lowers the weight. |
| `Settlement.FoundChain` | consumers/core/settlementGraph.ts:107-113 | The borrower and onward lender a pass picks for a node form a chain that rearrangeTriplet accepts. |
| `Settlement.SettledIdle` | consumers/core/settlementGraph.ts:107-112 | In a settled graph, every node is passed over. |
| `Settlement.IdleSettled` | consumers/core/settlementGraph.ts:104-116 | When "" is not a node, a pass that passed over every node leaves no node both owed and owing. |
| `Settlement.First` | consumers/core/settlementGraph.ts:8-12 | `first` returns undefined exactly for an empty row, and otherwise a key of the row. |
| `Settlement.SettlementGraph.constructor` | consumers/core/settlementGraph.ts:20-23 | The new object keeps the expenses and holds the built graph. |
| `Settlement.SettlementGraph.BuildGraph` | consumers/core/settlementGraph.ts:25-45 | The loop records every expense in order. |
| `Settlement.SettlementGraph.PruneEdge` | consumers/core/settlementGraph.ts:47-50 | The maps become the paired delete of b → l. |
| `Settlement.SettlementGraph.ResetEdgeAmount` | consumers/core/settlementGraph.ts:70-78 | The maps become `Reset` of the old maps. |
| `Settlement.SettlementGraph.PruneBideractionalEdge` | consumers/core/settlementGraph.ts:52-68 | The maps become `Cancel` of the old maps. |
| `Settlement.SettlementGraph.RearrangeTriplet` | consumers/core/settlementGraph.ts:80-100 | The maps become `Rearrange` of the old maps. |
| `Settlement.SettlementGraph.VisitLender` | consumers/core/settlementGraph.ts:107-115 | One pass step keeps keys, cleanliness and net positions. When it consolidates, the picked borrower and onward lender are keys of the node's rows and the new maps are `Rearrange` of the old maps on that chain, with a lower weight; a node passed over is idle and left as it was; in a settled graph no node is consolidated. |
| `Settlement.SettlementGraph.CollapseGraph` | consumers/core/settlementGraph.ts:102-117 | The collapse terminates and keeps cleanliness, keys and every net position. When "" is not a node, no node is left both owed and owing. A settled graph is left unchanged. |
| `StaleSettlement.StaleRearrange` | scripts/runExpenseSettlement.ts:82-102 | The stale rearrangeTriplet throws TypeError exactly when b → ll is absent; otherwise it keeps both key sets. |
| `StaleSettlement.StaleAgreesWhenCovered` | scripts/runExpenseSettlement.ts:84-92 | With b → ll present and costDiff ≥ 0, the stale copy agrees with the canonical consolidation. |
| `StaleSettlement.StaleClean` | scripts/runExpenseSettlement.ts:82-102 | With b → ll present, the stale consolidation does not throw and keeps the graph clean. |
| `StaleSettlement.StaleKeepsMergedEdge` | scripts/runExpenseSettlement.ts:93-101 | When costDiff < 0, b → l survives with its old amount, although that amount was merged into b → ll. |
| `StaleSettlement.StaleNetDrift` | scripts/runExpenseSettlement.ts:93-101 | When costDiff < 0, b ≠ ll and there is no l → b, b's net position grows by b → l and l's shrinks by it. |
| `StaleSettlement.DriftGraphClean` | scripts/runExpenseSettlement.ts:93-101 | The drift example graph (A → B 4, B → C 10, A → C 1) is clean. |
| `StaleSettlement.DriftGraphChain` | scripts/runExpenseSettlement.ts:93-101 | In the drift graph, A → B → C is a chain with costDiff −6, a direct A → C and no B → A. |
| `StaleSettlement.StaleDriftExample` | scripts/runExpenseSettlement.ts:93-101 | On the drift graph, the stale consolidation raises A's net position by 4. |
| `StaleSettlement.ThrowGraphClean` | scripts/runExpenseSettlement.ts:87 | The throw example graph (A → B 4, B → C 10) is clean. |
| `StaleSettlement.StaleThrowExample` | scripts/runExpenseSettlement.ts:96 | On that graph the stale consolidation of A → B → C throws TypeError. |
| `StaleSettlement.StaleSettlementGraph.constructor` | scripts/runExpenseSettlement.ts:15-17 | The constructor keeps the expenses and builds nothing: both maps are empty. |
| `StaleSettlement.StaleSettlementGraph.BuildGraph` | scripts/runExpenseSettlement.ts:19-47 | The loop records every expense in order, last write wins, as in the canonical copy. |
| `StaleSettlement.StaleSettlementGraph.PruneEdge` | scripts/runExpenseSettlement.ts:49-52 | The maps become the paired delete. |
| `StaleSettlement.StaleSettlementGraph.ResetEdgeAmount` | scripts/runExpenseSettlement.ts:72-80 | The maps become `Reset` of the old maps. |
| `StaleSettlement.StaleSettlementGraph.PruneBideractionalEdge` | scripts/runExpenseSettlement.ts:54-70 | The maps become `Cancel` of the old maps. |
| `StaleSettlement.StaleSettlementGraph.RearrangeTriplet` | scripts/runExpenseSettlement.ts:82-102 | The maps become the stale consolidation, and `thrown` reports its TypeError; a throw leaves the maps unchanged. |
| `StaleSettlement.StaleSettlementGraph.VisitLender` | scripts/runExpenseSettlement.ts:109-116 | One pass step keeps keys and cleanliness. When it visits, the picked borrower and onward lender are keys of the node's rows, `thrown` is set exactly when `StaleRearrange` of the old maps on that chain errs, and otherwise the new maps are its result. A node passed over is idle and not changed, and in a settled graph no node is consolidated. |
| `StaleSettlement.StaleSettlementGraph.CollapseGraph` | scripts/runExpenseSettlement.ts:104-118 | The collapse makes a single pass; its ghost `trace` lists the chains consolidated. The final maps are `StaleRun` of the old maps along the trace: every step succeeds, except a last one that throws when `thrown`. The middle nodes are distinct keys, so at most one chain per node. When the pass broke at `stop`, that node is idle and was not consolidated; when it neither broke nor threw, every key was consolidated once. A settled graph never throws and is left unchanged. |
| `StaleSettlement.StaleSettlementGraph.Pass` | scripts/runExpenseSettlement.ts:109-116 | One `for...in` pass ends in `PassOutcome`: the maps are `StaleRun` of the old maps along the trace, one chain per node, and a break only at an idle node. |
| `StaleSettlement.StaleRun` | scripts/runExpenseSettlement.ts:109-116 | The stale rearrangeTriplet applied along a sequence of chains, stopping at the first TypeError. |
| `StaleSettlement.PassAdvance` | scripts/runExpenseSettlement.ts:109-116 | Consolidating the chain of a node still to visit extends the trace: the pass goes on with one node fewer to visit, or ends on a TypeError with the maps as they were. |
| `StaleSettlement.PassBreak` | scripts/runExpenseSettlement.ts:112-114 | Breaking at an idle node ends the pass with that node as `stop`. |
| `StaleSettlement.PassDone` | scripts/runExpenseSettlement.ts:109-116 | A pass that visited every node consolidated a chain at each of them. |
| `PySettlement.PyRecord` | scripts/main.py:36-37 | One expense of __build_graph, as a paired write of the accumulated amount; `PySettlement.PyRecordWrites` shows it is the two row writes of the source. |
| `PySettlement.PyBuild` | scripts/main.py:32-39 | The graph __build_graph returns. Its properties are stated by `PySettlement.PyBuildShape`, `PySettlement.PyBuildTotals`, `PySettlement.PyBuildNet` and `PySettlement.PyBuildClean`. |
| `PySettlement.PyRecordWrites` | scripts/main.py:36-37 | One expense adds its amount to the running total of b → l and copies that total into the flipped index. |
| `PySettlement.PyBuildShape` | scripts/main.py:32-39 | After __build_graph, the maps agree, the keys of `graph` are the borrowers and those of `flipped_graph` are the lenders. |
| `PySettlement.PyBuildTotals` | scripts/main.py:35-37 | Duplicates accumulate: b → l holds the sum of all expenses from b to l, and exists exactly when there is one. |
| `PySettlement.PyBuildNet` | scripts/main.py:35-37 | Every node's net position after the build is the total it borrowed minus the total it lent. |
| `PySettlement.PyBuildClean` | scripts/main.py:32-39 | Positive amounts and no self-expense give agreeing maps, positive amounts and no self-loop. |
| `PySettlement.PyPrune` | scripts/main.py:41-43 | __prune_edge succeeds exactly when b → l is in both indices; it never removes a row. |
| `PySettlement.PyReset` | scripts/main.py:61-67 | __reset_edge_amount fails exactly when the amount is 0 and the edge is missing from an index; it never removes a row. |
| `PySettlement.Abs` | scripts/main.py:59 | `abs` returns x or −x, and never a negative number. |
| `PySettlement.PyCancel` | scripts/main.py:45-59 | __prune_bideractional_edge never removes a row; what it nets is stated by `PySettlement.PyCancelSquare`. |
| `PySettlement.PyNetPair` | scripts/main.py:49-59 | The netting branches never remove a row; their effect is stated by `PySettlement.PyNetPairSquare`. |
| `PySettlement.PyTriplet` | scripts/main.py:69-113 | __process_triplet never removes a row; its effect is stated by `PySettlement.PyTripletSquare` and `PySettlement.PyTripletStep`. |
| `PySettlement.PyResidual` | scripts/main.py:85-113 | The residual steps never remove a row; their effect is stated by `PySettlement.PyResidualSquare`. |
| `PySettlement.Square` | scripts/main.py:18-24 | Filling missing rows gives both maps the same keys: every node of either map. |
| `PySettlement.SquareEdges` | scripts/main.py:18-24 | Filling missing rows changes no edge and no amount in either map. |
| `PySettlement.SquareClean` | scripts/main.py:18-24 | The filled graph is clean exactly when the Python graph agrees, is positive and has no self-loop. |
| `PySettlement.SquareNet` | scripts/main.py:18-24 | Filling missing rows changes no net position. |
| `PySettlement.SquareWeight` | scripts/main.py:18-24 | Filling missing rows changes no weight. |
| `PySettlement.SquarePut` | scripts/main.py:66-67 | A paired write between known nodes commutes with filling. |
| `PySettlement.SquareDel` | scripts/main.py:42-43 | A paired delete between known nodes commutes with filling. |
| `PySettlement.ReadFwd` | scripts/main.py:18-22 | Reading `graph[k]` gives k an empty row when it has none (as at lines 46 and 71); `PySettlement.SquareReadFwd` shows it changes neither the nodes nor the filled graph. |
| `PySettlement.ReadRev` | scripts/main.py:18-22 | Reading `flipped_graph[k]` gives k an empty reverse row when it has none (as at line 123); `PySettlement.ReadRevKeeps` shows it changes no row's contents, cleanliness or net position. |
| `PySettlement.SquareReadFwd` | scripts/main.py:18-22 | Reading a row of `graph` through the defaulting index changes neither the nodes nor the filled graph. |
| `PySettlement.PyResetSquare` | scripts/main.py:61-67 | When the edge exists or the amount is not 0, __reset_edge_amount succeeds and matches the canonical resetEdgeAmount on the filled graph. |
| `PySettlement.PyCancelSquare` | scripts/main.py:45-59 | For distinct nodes, __prune_bideractional_edge succeeds and matches the canonical pruneBideractionalEdge on the filled graph. |
| `PySettlement.PyNetPairSquare` | scripts/main.py:49-59 | With both directions present, the netting branches match the canonical netting on the filled graph. |
| `PySettlement.PyResidualSquare` | scripts/main.py:85-113 | On a chain of three distinct nodes, the residual steps succeed and match the canonical residual step on the filled graph. |
| `PySettlement.PyNettedSquare` | scripts/main.py:78-81 | For b ≠ ll, the merge and the netting succeed and match the canonical merge and netting on the filled graph. |
| `PySettlement.PyTripletSquare` | scripts/main.py:69-113 | For b ≠ ll, __process_triplet succeeds and, filled, equals the canonical rearrangeTriplet of the filled graph. |
| `PySettlement.SquareCost` | scripts/main.py:71-79 | `cost_diff` and the merged amount equal the canonical costDiff and merged amount. |
| `PySettlement.PyTripletSelf` | scripts/main.py:49-53 | On mutual debt (b → l and l → b), __process_triplet with lenders_lender == borrower raises KeyError. |
| `PySettlement.PyTripletStep` | scripts/main.py:69-113 | A consolidation fails exactly when the chain returns to its start. Otherwise it keeps the graph clean and every net position, and lowers the weight. |
| `PySettlement.MutualDebtRaises` | scripts/main.py:49-53 | For A owes B 5 and B owes A 3, the built graph is clean with both edges, and either chain raises KeyError. |
| `PySettlement.ReadRevKeeps` | scripts/main.py:123 | Reading a row of `flipped_graph` changes no row's contents, cleanliness or net position. |
| `PySettlement.PyIdleSettled` | scripts/main.py:115-127 | When "" is not a node, a pass of traverse that passed over every node leaves no node both owed and owing. |
| `PySettlement.PySettlementGraph.constructor` | scripts/main.py:129-130 | Both indices start empty. |
| `PySettlement.PySettlementGraph.Record` | scripts/main.py:36-37 | The body of the build loop performs one `PyRecord`. |
| `PySettlement.PySettlementGraph.BuildGraph` | scripts/main.py:32-39 | The loop builds `PyBuild` of the expenses. |
| `PySettlement.PySettlementGraph.PruneEdge` | scripts/main.py:41-43 | The maps become `PyPrune` of the old maps, and `ok` is false exactly when it raises KeyError. |
| `PySettlement.PySettlementGraph.ResetEdgeAmount` | scripts/main.py:61-67 | The maps become `PyReset` of the old maps, or the call reports KeyError. |
| `PySettlement.PySettlementGraph.PruneBideractionalEdge` | scripts/main.py:45-59 | The maps become `PyCancel` of the old maps, or the call reports KeyError. |
| `PySettlement.PySettlementGraph.NetPair` | scripts/main.py:49-59 | The maps become `PyNetPair` of the old maps, or the call reports KeyError. |
| `PySettlement.PySettlementGraph.ProcessTriplet` | scripts/main.py:69-113 | The maps become `PyTriplet` of the old maps, or the call reports KeyError. |
| `PySettlement.PySettlementGraph.VisitLender` | scripts/main.py:122-125 | On success, one pass step keeps the graph clean, its old keys and net positions, and a consolidation lowers the weight. When it visits, the picked borrower and onward lender are keys of the node's rows, `PyTriplet` of the maps after the `flipped_graph[lender]` read, on that chain, is the new maps or the call's KeyError, and it fails exactly when the onward lender is the borrower. A node passed over is idle and its rows are unchanged; a node with no borrower or no onward lender is not visited. |
| `PySettlement.PySettlementGraph.Traverse` | scripts/main.py:115-127 | traverse terminates. On success it returns `graph`, keeps the graph clean and every net position; when "" is not a node it is settled. A settled graph never raises and no row changes. |
| `PySettlement.PySettlementGraph.Init` | scripts/main.py:129-131 | With no expenses the first-key lookup fails. Otherwise, on success, the graph is clean and every net position is what the expenses give; when "" is not a node it is settled. |

## Left out

- The script tails are not modelled, because they are I/O:
  - consumers/core/settlementGraph.ts:120-128, which imports JSON, converts to `BigInt` and logs;
  - scripts/main.py:1-10 and 134-146, which load JSON, define the `attrs` record and print;
  - consumers/eventListener.ts, the blockchain event listener, which is not part of this model.
- Key order of `for...in`, `first`, `next(iter(...))` and Python dict iteration is not modelled. Every pick is an arbitrary choice, and the results are proved for every choice.
- Identities that name properties of `Object.prototype` are not modelled. The TypeScript maps are plain objects, so for an identity such as "constructor" or "__proto__" the reads at consumers/core/settlementGraph.ts:29-39 find an inherited value rather than `undefined`; no row is created, and later writes land on a shared inherited object (`Object.prototype` or the `Object` function). The model's `Id` is any string and its maps are true maps; in use the identities are account addresses, which never take those names.
- Minimality of the resulting transfers is not claimed by the code and is not modelled.
- `Settlement.SettlementGraph.CollapseGraph`: requires a clean graph, which the source takes for granted and does not check. Self-expenses and non-positive amounts are outside the model. `Settlement.BuildClean` gives the condition on the expenses.
- `Settlement.SettlementGraph.PruneEdge`: requires both rows to exist, as do `ResetEdgeAmount`, `PruneBideractionalEdge` and `RearrangeTriplet`. On a missing row JavaScript throws TypeError; after buildGraph every party has both rows, which the collapse keeps.
- `Settlement.SettlementGraph.VisitLender`: the body of one pass's `for...in` step, factored out as its own method; the source has no such function.
- `Settlement.SettlementGraph.CollapseGraph`: the settled conclusion requires that no node is named "", because `!borrower` treats "" as absent.
- `StaleSettlement.StaleSettlementGraph.constructor`: the source leaves both maps `undefined`, so its buildGraph would throw on the first expense. The model starts them empty and builds with an explicit call.
- `StaleSettlement.StaleSettlementGraph.CollapseGraph`: states no net-position conservation, because the stale else-branch does not conserve it (see Findings). It requires a clean graph, as the canonical one does.
- `StaleSettlement.StaleSettlementGraph.VisitLender`: the body of one pass's `for...in` step, factored out as its own method.
- `StaleSettlement.StaleSettlementGraph.Pass`: the `for...in` loop of the stale collapseGraph, factored out as its own method; the source has no such function.
- `PySettlement.PyCancel`: its own contract states only that no row is removed. What it nets is stated, for distinct nodes, by `PySettlement.PyCancelSquare`.
- `PySettlement.PyNetPair`: its own contract states only that no row is removed. Its effect is stated by `PySettlement.PyNetPairSquare`.
- `PySettlement.PyTriplet`: its own contract states only that no row is removed. Its effect is stated by `PySettlement.PyTripletSquare`, `PySettlement.PyTripletSelf` and `PySettlement.PyTripletStep`.
- `PySettlement.PyResidual`: its own contract states only that no row is removed. Its effect is stated by `PySettlement.PyResidualSquare`.
- `Settlement.Residual`: its own contract states only that both key sets are kept. Its edges are stated by `Settlement.ResidualBranches` and `Settlement.ResidualEdges`.
- `PySettlement.PySettlementGraph.PruneEdge`: when `del` raises KeyError, the state the exception leaves behind is not stated. The same holds for `ResetEdgeAmount`, `PruneBideractionalEdge`, `NetPair`, `ProcessTriplet` and `VisitLender`; only the error outcome is stated.
- `PySettlement.PySettlementGraph.Traverse`: requires an agreeing, positive graph without self-loops. Its contract does not say which inputs make it raise KeyError; it states only what holds on success and that a settled graph never raises. For a single consolidation, `PySettlement.PyTripletStep` and `PySettlement.PySettlementGraph.VisitLender` state that it raises exactly when the chain returns to its start.
- `PySettlement.PySettlementGraph.Init`: requires positive amounts and no self-expense, which `__init__` does not check.
- `PySettlement.PySettlementGraph.constructor`: Python object creation and `__init__` are one step in the source; the model splits them into the constructor and `Init`.
- `PySettlement.PySettlementGraph.VisitLender`: the body of one `for` step of traverse, factored out as its own method.
- `PySettlement.PySettlementGraph.Traverse`: the settled conclusion requires that no node is named "", because the walrus test treats "" as falsy.

## Findings

| source | as written | input that shows it | evidently intended | confidence | as-written member | corrected member |
|---|---|---|---|---|---|---|
| scripts/runExpenseSettlement.ts:100 | In the costDiff < 0 branch, `pruneEdge(lender, borrower)` deletes l → b, so b → l keeps its amount although that amount was merged into b → ll. | A → B 4, B → C 10, A → C 1, chain A → B → C: A's net position grows by 4. | Delete b → l, as the canonical copy does (consumers/core/settlementGraph.ts:98), so every net position is kept. | not executed | `StaleSettlement.StaleDriftExample` | `Settlement.RearrangeNet` |
| scripts/runExpenseSettlement.ts:87 | `(fwd[b][ll] \| 0n)` uses bitwise or; on a missing b → ll it mixes `undefined` with a `bigint` and throws TypeError. | A → B 4, B → C 10, chain A → B → C with no A → C. | `\|\| 0n`, which reads a missing amount as 0 (consumers/core/settlementGraph.ts:85, 94). | not executed | `StaleSettlement.StaleThrowExample` | `Settlement.MergeEdges` |
| scripts/main.py:51-53 | On mutual debt the chain returns to its start, so the merge writes b → b and netting b against itself prunes that edge twice; the second `del` raises KeyError. | A owes B 5 and B owes A 3; traverse visits either node. | Net the self-loop away once, as the canonical copy's `delete` of a missing entry allows, leaving the graph clean. | not executed | `PySettlement.MutualDebtRaises` | `Settlement.RearrangeClean` |
