# Ranked-pairs total order graph in Dafny

This project models `TotalOrderGraph` from `rankedpairsvoting/objects.py`. The class keeps a total order over the nodes `0 .. n-1` and updates it one edge at a time. An edge `(big, small)` asks for `big` to come before `small`. The class is the ordering core of ranked-pairs voting.

The order is a doubly linked chain over two integer arrays:
- `lower[x]` is the node after `x`, and `upper[x]` is the node before `x`;
- `-1` (`Nil`) means "no node";
- `head` is the first node.

Each node `x` also has a cached set `children[x]`. `add_edge` consults it to decide whether the edge already holds.

The project has four modules.

- **`TotalOrder`** (`total_order.dfy`) describes the abstract state `State(order, children)` with pure functions.
  - `Step` is one `add_edge`, exactly as written.
  - `Steps` is `add_edges`.
  - `Init` is the freshly constructed graph.
  - The invariant `Inv` has two parts. `Shaped`: there is at least one node, the order is a permutation of the nodes `0 .. n-1`, there is one cached set per node, and every cached set holds node ids only. `Covers`: the cache is a superset of the true successors, so every node after `x` is in `children[x]`.
  - The lemmas prove what one `add_edge` does to the order, that it keeps `Inv`, that it caches the edge, and that it is idempotent.
- **`TotalOrderGraphs`** (`graph.dfy`) is the imperative class.
  - It has arrays `lower`, `upper` and `children`, a `head` field, and a ghost `order`.
  - `Valid()` ties the arrays to `Inv` and to the chain.
  - The constructor, `AddEdge`, `AddEdges`, `GetOrder` and the move-branch methods (`MoveBranch`, `Move`, `Relocate`, `DropFromWalk`) are proved against the functions of `TotalOrder`. For example, `AddEdge` ensures `Model() == Step(old(Model()), big, small)`. `Unlink` and `LinkBefore` state their effect as exact array updates, which `Relocate` then ties to the new order.
  - The backward walk of `add_edge` and the loop of `get_order` are `while` loops with their invariants.
- **`Scenario`** (`scenario.dfy`) replays the `__main__` block. Ten edges on five nodes give the order `[2, 4, 1, 0, 3]`, and that order meets the assertion at the end of the file.
- **`StaleCache`** (`stale_cache.dfy`) gives concrete inputs on which the cache is not exact. The code keeps only the superset property. It does not keep `children[x]` equal to the set of nodes after `x`, and a stale entry can make a later opposite edge return early.

## Model

| member | source | states |
|---|---|---|
| TotalOrder.Init | rankedpairsvoting/objects.py:7-19 | The new graph has the order 0 .. n-1, and `children[i]` is exactly `{i+1 .. n-1}`. This satisfies both the superset invariant and soundness. |
| TotalOrder.MoveBranchOrder | rankedpairsvoting/objects.py:37-46 | When `small` is not cached under `big`, `small` comes strictly before `big`. So `big` is never the head on the move branch, and line 46 never writes through index -1. |
| TotalOrder.StepOrder | rankedpairsvoting/objects.py:37-64 | If `small` is cached under `big`, the order is unchanged. Otherwise `big` sits immediately before `small` and the other nodes keep their relative order. The head becomes `big` exactly when it was `small`. |
| TotalOrder.StepPreservesInv | rankedpairsvoting/objects.py:37-67 | `add_edge` keeps the order a permutation of 0 .. n-1. It also keeps every node after `x` in `children[x]`. |
| TotalOrder.StepCachesEdge | rankedpairsvoting/objects.py:66-67 | After `add_edge(big, small)`, `small` is in `children[big]`. |
| TotalOrder.StepIdempotent | rankedpairsvoting/objects.py:37-38 | Adding the same edge twice gives the same state as adding it once. |
| TotalOrder.NoSelfLoopsTail | rankedpairsvoting/objects.py:30-35 | When the first edge of a batch is in range, it is no self-loop, and the rest of the batch again satisfies the self-loop precondition. |
| TotalOrder.SelfLoopAfterRejectedEdge | rankedpairsvoting/objects.py:30-35 | The batch `[(9, 0), (1, 1)]` on five nodes is allowed: its first edge is rejected, so the self-loop after it is never reached. |
| TotalOrder.Steps | rankedpairsvoting/objects.py:30-31 | The edges are applied left to right, stopping at the first edge with an id out of range. The state after the batch keeps the invariant and the number of nodes. |
| TotalOrder.MoveBeforeMeaning | rankedpairsvoting/objects.py:43-64 | The move takes `big` out and puts it back right before `small`. The result is a permutation of the old order, and without `big` it equals the old order without `big`. |
| TotalOrder.StepMoveAt | rankedpairsvoting/objects.py:40-67 | The move branch moves the node at `big`'s position to `small`'s position. It drops `big` from the cached sets of the nodes from `small` to two places before `big`, and gives `big` the set of `small` plus `small`. |
| TotalOrder.MovedInv | rankedpairsvoting/objects.py:50-67 | After the move, every node placed after `x` is still cached under `x`. |
| TotalOrderGraphs.LinkedShape | rankedpairsvoting/objects.py:44-64 | `lower` and `upper` are inverse links over the chain. The head is the only node whose `upper` is -1. |
| TotalOrderGraphs.TotalOrderGraph.HeadIsOnlyRoot | rankedpairsvoting/objects.py:40-64 | In a valid graph, `lower` and `upper` are mutually inverse, and `head` is the only node whose `upper` is -1. |
| TotalOrderGraphs.IdentityChain | rankedpairsvoting/objects.py:12-15 | The links built by the constructor encode the chain 0, 1, .., n-1. |
| TotalOrderGraphs.Relink | rankedpairsvoting/objects.py:44-64 | The six link writes of the move branch encode the spliced order. |
| TotalOrderGraphs.MoveNeighbours | rankedpairsvoting/objects.py:44-45 | The neighbours read at lines 44-45 and 59 are the nodes beside `big` and `small` in the order. In particular, `upper[big]` is not -1. |
| TotalOrderGraphs.MoveBranchLinks | rankedpairsvoting/objects.py:40-64 | After the move branch, the links encode the new order. Its head is `big` exactly when `small` was the head. |
| TotalOrderGraphs.TotalOrderGraph.constructor | rankedpairsvoting/objects.py:7-19 | For `nodes >= 1`: `head = 0`, `lower[i] = i+1` with `lower[n-1] = -1`, `upper[i] = i-1` with `upper[0] = -1`, and `children` as in `Init`. |
| TotalOrderGraphs.TotalOrderGraph.FillChildren | rankedpairsvoting/objects.py:17-19 | The loop fills `children[i]` with `{i+1 .. n-1}` for every `i`. |
| TotalOrderGraphs.NewGraph | rankedpairsvoting/objects.py:7-9 | Fails (null) exactly when `nodes < 1`. Otherwise it returns a valid graph in the initial state. |
| TotalOrderGraphs.TotalOrderGraph.AddEdge | rankedpairsvoting/objects.py:33-67 | Fails exactly when an id is out of range, and then changes nothing. Otherwise the new state is `Step` of the old one. It changes nothing when `small` is cached under `big`. On the move branch, the head becomes `big` exactly when it was `small`. |
| TotalOrderGraphs.TotalOrderGraph.AddEdges | rankedpairsvoting/objects.py:21-31 | The new state is `Steps` of the old one. The result is Ok exactly when every id of every edge is in range. |
| TotalOrderGraphs.TotalOrderGraph.MoveBranch | rankedpairsvoting/objects.py:40-67 | The move branch keeps the graph valid and yields `Step` of the old state. It moves the head as lines 40-41 do. |
| TotalOrderGraphs.TotalOrderGraph.Move | rankedpairsvoting/objects.py:43-67 | On the arrays, the move branch yields `Step`'s state, keeps the invariant, and links the new order. |
| TotalOrderGraphs.TotalOrderGraph.Relocate | rankedpairsvoting/objects.py:43-67 | The links and cached sets after the move branch, in terms of the old order. |
| TotalOrderGraphs.TotalOrderGraph.Unlink | rankedpairsvoting/objects.py:44-48 | `big`'s neighbours are linked to each other, and `big`'s old predecessor is returned. |
| TotalOrderGraphs.TotalOrderGraph.DropFromWalk | rankedpairsvoting/objects.py:50-56 | The walk drops `big` from the cached set of each node from two places before `big` back to `small`, and from no other set. Each `remove` finds `big`, so line 53 never raises. |
| TotalOrderGraphs.TotalOrderGraph.LinkBefore | rankedpairsvoting/objects.py:58-64 | `big` is linked in immediately before `small`. |
| TotalOrderGraphs.TotalOrderGraph.GetOrder | rankedpairsvoting/objects.py:69-75 | The walk from `head` along `lower` ends. It yields exactly the chain: all n ids, each once. |
| Scenario.InitFive | rankedpairsvoting/objects.py:93 | The five-node graph starts with order 0 .. 4 and `children[i] = {i+1 .. 4}`. |
| Scenario.EdgesWellFormed | rankedpairsvoting/objects.py:81-92 | Each of the ten edges joins two different ids below 5. |
| Scenario.ScenarioOrder | rankedpairsvoting/objects.py:93-94 | Adding the ten edges to five nodes gives the order 2, 4, 1, 0, 3. |
| Scenario.ScenarioResult | rankedpairsvoting/objects.py:95-104 | Mapping that order to candidates gives `[2, 0, 1, 3, 4]`. Each candidate is then at the position its vote names. |
| Scenario.RunScenario | rankedpairsvoting/objects.py:78-104 | The `__main__` block replayed on the class; its postcondition states the result: it is `[2, 0, 1, 3, 4]`, and the assertion of lines 101-104 holds. |
| Scenario.Rename | rankedpairsvoting/objects.py:95 | Each node of the order is replaced by its candidate; when the order lists every node once, the result lists every candidate once. |
| Scenario.RenamePermutation | rankedpairsvoting/objects.py:95 | Renaming a permutation of the five nodes through the candidate list gives a permutation of the candidates: no candidate is ranked twice or left out. |
| StaleCache.PredecessorKeepsBig | rankedpairsvoting/objects.py:50-51 | On three nodes, `add_edge(2, 0)` gives order 2, 0, 1 but leaves 2 in `children[1]`. The invariant holds but soundness does not. |
| StaleCache.BigCachesItself | rankedpairsvoting/objects.py:66-67 | On two nodes, `add_edge(1, 0)` skips the walk and leaves 1 in its own cached set. |
| StaleCache.OppositeEdgeIgnored | rankedpairsvoting/objects.py:37-38 | On two nodes, `add_edges([(1, 0), (0, 1)])` ends with 1 before 0. The second edge returns early on a stale entry. |

## Left out

- Self-loops: `AddEdge` requires `big != small` when both ids are in range. `AddEdges` and `Steps` require it (`NoSelfLoops(n, edges)`) only of the edges the batch reaches, that is, edges that are in range and come before any out-of-range edge. Out-of-range edges are still rejected as in the source. In the source an in-range self-loop does one of three things: it returns at lines 37-38 when `big` is already cached under itself (a state `StaleCache.BigCachesItself` shows is reachable); when `big` is the head, line 46 writes through index -1 and the walk of lines 51-53 can raise KeyError; otherwise line 63 sets `lower[big] = big` and `get_order` never ends. None of the three is modelled.
- Python's `ValueError` is modelled as the result `OutOfRange` of `AddEdge`/`AddEdges` and as the null result of `NewGraph`. The constructor itself requires `nodes >= 1`.
- `get_order` is a generator; `GetOrder` returns the whole order as a sequence at once.
- The `print` call of the `__main__` block (lines 96-100) is not modelled. Only the edge list, the result and the final assertion are.
- Exact cache equality (`children[x]` is exactly the set of nodes after `x`) and "the later of two opposite edges wins" are not stated. The code does not deliver them; `StaleCache` shows inputs where each fails. The invariant proved instead is the superset one.
- Python list and set aliasing: `children[big]` is given a fresh set value, as `copy()` does. The sets are values in the model.
