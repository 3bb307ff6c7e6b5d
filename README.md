# Routing simulations: distance-vector and link-state routers

The repository simulates two textbook routing computations over a network
topology. A topology maps each router id to its neighbours and the integer
cost of each link.

- **Distance-vector routers** (both.py and distance_routing.py). These
  declare the same `DistanceVectorRouter` class twice, with identical text.
  Each router seeds a vector with itself at 0 and each direct neighbour at
  its link cost. A vector received from a neighbour is merged with the
  Bellman-Ford relaxation step, and the merge reports whether anything
  changed.
- **Heap-based link-state router** (both.py). It stores the flooded
  topology and runs Dijkstra's algorithm with a binary heap. Entries made
  stale by a later decrease are skipped when popped (lazy deletion).
- **Scan-based link-state router** (link_state.py). It runs Dijkstra's
  algorithm by scanning an `unvisited` map for its cheapest router, and
  moves that router to `visited`. It stops at the first router that cannot
  be reached, and stores `visited` as the router's distance vector.

The Dafny project mirrors this structure:

- `graph.dfy` (module `Graph`) holds the shared vocabulary:
  - topologies, and distances with an `Inf` sentinel;
  - walks through a topology and their costs;
  - what it means for a distance map to be *sound* (every finite entry is
    the cost of a walk from the source) and *optimal* (no walk from the
    source is cheaper than the entry at its end), and for it to *reach*
    (every router a walk from the source ends at has a finite entry);
  - the lemma that a map closed under relaxation, with the source at 0, is
    optimal.
- `distance_vector.dfy` (module `DistanceVector`) holds the
  distance-vector router. It is a class whose vector field is updated in
  place, specified by the pure merge function `Relaxed`.
- `heap_link_state.dfy` (module `HeapLinkState`) holds the heap-based
  router. The heap is a multiset of `(cost, router)` entries, and each pop
  takes an entry of least cost.
- `scan_link_state.dfy` (module `ScanLinkState`) holds the scan-based
  router and its simulation driver.

Both Dijkstra variants are proved against the same specification. Under
non-negative link costs their results are sound and optimal. By
`Graph.ShortestAgree`, any two such results agree on every router they both
hold. A walk's cost may count a link more than once, so "optimal" is stated
over all walks from the source.

In both Dijkstra methods, the witness walks that justify each finite
distance are carried in a ghost map. They cost nothing at run time.

## Model

| member | source | states |
|---|---|---|
| DistanceVector.InitialVector | both.py:4-9 | the starting vector has exactly the keys `{router_id} ∪ neighbours`; each neighbour maps to its link cost; the router maps to 0 unless it lists itself as a neighbour |
| DistanceVector.DistanceVectorRouter.constructor | distance_routing.py:4-9 | after construction the router's id and links are the arguments, and its vector is the starting vector built by the seeding loop |
| DistanceVector.Relaxed | both.py:13-17 | the merged vector keeps every old key and adds the received ones; each received node ends at most `link + dist`; no entry increases; each entry is either its old value or the candidate through the sender; nodes not received are unchanged |
| DistanceVector.RelaxedChangesIffImproves | both.py:12-18 | the merge changes the vector if and only if some received node is new or strictly cheaper through the sender |
| DistanceVector.RelaxedIdempotent | distance_routing.py:11-18 | merging the same vector a second time changes nothing and reports no change |
| DistanceVector.RelaxedStep | both.py:13-17 | merging one received key at a time, in any order, steps the partial result towards the whole merge, comparing each key against its original entry |
| DistanceVector.ImprovesStep | both.py:12-17 | the `updated` flag after each key equals "some key merged so far improves the original vector" |
| DistanceVector.DistanceVectorRouter.UpdateDistanceVector | both.py:11-18 | requires the sender to be a neighbour only when the received vector is non-empty (the link cost is looked up inside the loop). For a non-empty vector, the new vector is the Bellman-Ford merge of the old one, and the result is true if and only if some entry was added or lowered. For an empty one, nothing changes and the result is false. In every case the result is true if and only if the vector changed |
| DistanceVector.ZeroEntryStays | distance_routing.py:14-16 | with non-negative link costs and received vectors, an entry at 0 stays at 0 across any sequence of updates |
| DistanceVector.SelfEntryStaysZero | distance_routing.py:7-16 | a router that is not its own neighbour keeps its own entry at 0 across any sequence of updates with non-negative costs |
| DistanceVector.DistanceVectorRoutingSimulation | distance_routing.py:24-29 | builds exactly one fresh, distinct router per topology key, with that key's links; announcing only prints, so each router ends with its starting vector |
| Graph.WitnessedIsSound | link_state.py:23-25 | distances carried with a witness walk each are sound: every finite entry is the cost of a walk from the source |
| Graph.ClosedBoundsWalk | both.py:41-45 | a map closed under relaxation, with the source at 0, bounds the cost of every walk from the source from below (induction on the walk) |
| Graph.ClosedIsOptimal | both.py:33-46 | a map closed under relaxation, with the source at 0, is optimal |
| Graph.ShortestAgree | both.py:33-46 | two sound, optimal maps from the same source agree on every router they both hold |
| Graph.WalkStaysIn | link_state.py:17-25 | a walk from a router of a set that no link leads out of ends inside that set (induction on the walk) |
| HeapLinkState.LinkStateRouter.constructor | both.py:25-27 | a new router has the given id and an empty topology |
| HeapLinkState.LinkStateRouter.ReceiveLinkState | both.py:29-31 | every router in the link-state message gets exactly its advertised links; every other known router keeps its entry; the known routers are the old ones plus the advertised ones |
| HeapLinkState.MinEntryExists | both.py:37-38 | a non-empty heap has an entry of least cost for the pop to take |
| HeapLinkState.PopPreserves | both.py:38-40 | popping a least entry shrinks the heap; after a stale entry (cost above the router's distance) the run's invariant holds without it; after a current one the router sits at exactly that cost, was not settled before, and the invariant holds with it settled at the new cost, no lower than any cost popped before, and all its links pending |
| HeapLinkState.RelaxLowers | both.py:42-45 | a cheaper route through the settled router lowers the neighbour and pushes its new entry, and the run's invariant survives |
| HeapLinkState.RelaxNeighbors | both.py:41-45 | relaxing the settled router's links lowers exactly the neighbours that are strictly cheaper through it, to that cost; every other distance is unchanged; the run's invariant survives |
| HeapLinkState.LinkStateRouter.RunDijkstra | both.py:33-46 | requires the start and every neighbour to be routers of the topology, and costs to be non-negative; the loop terminates; the result has a key for every router; the start is at 0; no link improves a distance; every finite distance is the cost of a walk from the start, so routers with no path stay at `Inf`; every walk costs at least the distance at its end |
| ScanLinkState.InitialUnvisited | link_state.py:10-11 | the search starts with every router at `Inf` except the source at 0 |
| ScanLinkState.MinKeyExists | link_state.py:16 | a non-empty unvisited map has a key of least distance for `min` to pick |
| ScanLinkState.OrderStep | link_state.py:16-17 | visiting the cheapest unvisited router extends the visit order, and with non-negative costs its distance is no lower than any visited before |
| ScanLinkState.VisitStep | link_state.py:16-17 | moving the cheapest finite router to `visited` keeps the visited part ordered and relaxed; only its own links remain to be relaxed |
| ScanLinkState.BrokenScan | link_state.py:17-19 | when the cheapest unvisited router is unreachable, recording it at `Inf` and stopping gives the final map. The source is at 0, and every finite entry is the cost of a walk. Every router reachable from the source is present at a finite cost, whatever the link costs, so the one infinite entry is unreachable. Under non-negative costs no link is left that improves a distance |
| ScanLinkState.AllUnreachable | link_state.py:16-19 | when the cheapest unvisited router is at infinity, every unvisited router is, and the source has already been visited |
| ScanLinkState.BrokenReaches | link_state.py:17-25 | at the break, the relaxed frontier and the all-infinite unvisited map leave no link from a visited router to an unvisited one. So every walk from the source ends at a visited router with a finite cost, for any link costs |
| ScanLinkState.ExhaustedScan | link_state.py:15-28 | when `unvisited` empties, every router is visited at a finite distance, every router reachable from the source is present, and under non-negative costs no link improves a distance |
| ScanLinkState.RelaxedFrom | link_state.py:21-25 | relaxing `m`'s links keeps the keys of `unvisited`; it never raises a value; each relaxed link to an unvisited router is bounded by the cost through `m`; every other entry is unchanged |
| ScanLinkState.LoweredFrom | link_state.py:21-26 | the routers given `m` as predecessor are exactly those whose unvisited distance the relaxation lowered; each such router sits at `visited[m] + cost` |
| ScanLinkState.RelaxedFromStep | link_state.py:22-26 | relaxing one more link moves the unvisited map and the lowered set on by one step of the loop |
| ScanLinkState.LowerStep | link_state.py:23-26 | lowering an unvisited router to the cost through `m` keeps the witness walks, the order of visited below unvisited, and the relaxed frontier |
| ScanLinkState.RelaxFrom | link_state.py:21-26 | the inner loop leaves `unvisited` as the relaxation of `m`'s links to routers not yet visited; `path` gains `m` as predecessor of exactly the lowered routers; each of those sits at `visited[m] + cost` |
| ScanLinkState.FinishSearch | link_state.py:30-31 | a search result, with non-negative costs, is optimal |
| ScanLinkState.LinkStateRouter.constructor | link_state.py:4-7 | a new router has the given id and links, and its distance vector is `{router_id: 0}` |
| ScanLinkState.LinkStateRouter.CalculateShortestPath | link_state.py:9-31 | requires the router and every neighbour to be in the topology. The loop terminates for any costs. The result is stored as the distance vector. It holds the router at 0 even with negative costs. Every finite entry is the cost of a walk. Every router reachable from the router is present at a finite cost, for any costs. At most one entry is infinite, and that router is unreachable. With none infinite, every router is present. Routers enter `visited` once each. Under non-negative costs they enter in non-decreasing order, and every entry is the shortest-path cost |
| ScanLinkState.LinkStateRoutingSimulation | link_state.py:33-39 | builds one fresh, distinct router per topology key and runs the search in each; each router's vector then meets the search's result properties, and is shortest under non-negative costs |

## Left out

- Console I/O (`main`, `input_network_topology` and the `input()` loops), and the `print` calls in the simulation functions. They only read or print.
- `send_update`, `send_link_state`, `send_to_neighbor` and `broadcast_link_state`. They only print, so no router state changes; `DistanceVector.DistanceVectorRoutingSimulation` states that outcome.
- The interactive menu in both.py's `main`. It builds heap-based routers, fills their topologies and runs `run_dijkstra` from each router. It is covered by `ReceiveLinkState` and `RunDijkstra` and has no driver of its own here.
- The sample transcripts in the trailing docstrings. They are not code. The distance-vector transcripts show a converged cost (R1 to R3 at 3), while the code keeps the initial link cost, because no vector is ever exchanged. The model follows the code.
- Tie-breaking. `heapq` orders equal costs by router id, and `min` takes the first minimal key in dict order. The model lets the pop and the scan take any entry or key of least cost, so every tie-break is covered.
- Floating point. `float('inf')` is the sentinel `Inf`, and every finite distance is an unbounded integer, as Python's are.
- HeapLinkState.LinkStateRouter.RunDijkstra: requires non-negative costs. Python's loop also ends for negative costs when no negative cycle is reachable, and never ends when one is. The proof of termination needs the settled costs to be monotone.
- HeapLinkState.LinkStateRouter.RunDijkstra: requires every neighbour of every router to be a router of the topology. The source only fails on neighbours of routers reached from the start.
- ScanLinkState.LinkStateRouter.CalculateShortestPath: has the same precondition on neighbours, which is stronger than the source's need in the same way.
- The local `path` map of `calculate_shortest_path`. It is built as in the source, but it is discarded, so nothing is stated about it beyond `ScanLinkState.RelaxFrom`.
- "A visited value never changes." This is captured by construction rather than as a separate lemma. `visited` only gains keys not yet in it, and the relaxation skips visited routers.
- `RelaxNeighbors` and `RelaxFrom` are the inline `for` loops of the two Dijkstra methods, written as separate methods so each loop carries its own invariant.
