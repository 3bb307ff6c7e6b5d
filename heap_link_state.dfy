/** The link-state router of both.py: it stores the flooded topology and runs
    Dijkstra's algorithm with a binary heap and lazy deletion (an entry whose
    cost is above the router's current distance is stale and is skipped). The
    heap is modelled as a multiset of (cost, router) entries from which an
    entry of minimal cost is taken. */
module HeapLinkState {
  import opened Graph

  type Entry = (int, RouterId)

  /** `e` is an entry of least cost in `heap`. */
  predicate IsMinEntry(heap: multiset<Entry>, e: Entry) {
    e in heap && forall f :: f in heap ==> e.0 <= f.0
  }

  /** A non-empty heap has an entry of least cost. */
  lemma {:induction false} MinEntryExists(heap: multiset<Entry>)
    requires heap != multiset{}
    ensures exists e :: IsMinEntry(heap, e)
    decreases |heap|
  {
    var x :| x in heap;
    var rest := heap - multiset{x};
    assert |rest| < |heap|;
    if rest == multiset{} {
      forall f | f in heap ensures x.0 <= f.0 {
        assert heap[f] == rest[f] + (if f == x then 1 else 0);
      }
      assert IsMinEntry(heap, x);
    } else {
      MinEntryExists(rest);
      var m :| IsMinEntry(rest, m);
      var least := if x.0 < m.0 then x else m;
      forall f | f in heap ensures least.0 <= f.0 {
        if f != x { assert f in rest; }
      }
      assert IsMinEntry(heap, least);
    }
  }

  /** Distances cover the topology, start is at 0, nothing is negative. */
  ghost predicate Shape(t: Topology, start: RouterId, distances: map<RouterId, Dist>) {
    && distances.Keys == t.Keys
    && start in distances && distances[start] == Fin(0)
    && (forall v :: v in distances && distances[v].Fin? ==> distances[v].n >= 0)
  }

  /** Every entry names a router whose distance it does not undercut, and no
      entry is below the last popped cost. */
  ghost predicate EntriesAbove(distances: map<RouterId, Dist>, heap: multiset<Entry>, last: int) {
    forall e :: e in heap ==>
      e.1 in distances && distances[e.1].Fin? && distances[e.1].n <= e.0 && last <= e.0
  }

  /** Settled routers are final: at or below the last popped cost, with no
      current entry left in the heap. */
  ghost predicate SettledFinal(distances: map<RouterId, Dist>, heap: multiset<Entry>,
                               settled: set<RouterId>, last: int)
  {
    && settled <= distances.Keys
    && forall v :: v in settled ==>
         distances[v].Fin? && distances[v].n <= last && (distances[v].n, v) !in heap
  }

  /** A router's current entry occurs at most once. */
  ghost predicate CurrentOnce(distances: map<RouterId, Dist>, heap: multiset<Entry>) {
    forall v :: v in distances && distances[v].Fin? ==> heap[(distances[v].n, v)] <= 1
  }

  /** Each link out of a finite router is relaxed, or that router's current
      entry is still queued, or the router is `u`, whose links to `pending`
      are being relaxed right now. */
  ghost predicate RelaxedOrQueued(t: Topology, distances: map<RouterId, Dist>, heap: multiset<Entry>,
                                  u: RouterId, pending: set<RouterId>)
  {
    forall x, y {:trigger y in t[x]} :: x in distances && x in t && y in t[x] && distances[x].Fin? ==>
      (y in distances && AtMost(distances[y], Fin(distances[x].n + t[x][y])))
      || (distances[x].n, x) in heap
      || (x == u && y in pending)
  }

  /** The state of a run of Dijkstra's algorithm from `start`, with the ghost
      bookkeeping that explains it: `settled` are the routers popped with a
      current (non-stale) entry, `last` the cost of the latest popped entry,
      `walks` a witness walk for every finite distance. */
  ghost predicate RunState(t: Topology, start: RouterId, distances: map<RouterId, Dist>,
                           heap: multiset<Entry>, settled: set<RouterId>, last: int,
                           walks: map<RouterId, Walk>, u: RouterId, pending: set<RouterId>)
  {
    && Shape(t, start, distances)
    && EntriesAbove(distances, heap, last)
    && SettledFinal(distances, heap, settled, last)
    && CurrentOnce(distances, heap)
    && Witnessed(t, start, distances, walks)
    && RelaxedOrQueued(t, distances, heap, u, pending)
  }

  lemma InitialState(t: Topology, start: RouterId)
    requires start in t
    ensures var distances := (map router | router in t :: Inf)[start := Fin(0)];
            RunState(t, start, distances, multiset{(0, start)}, {}, 0, map[start := Start(start)], start, {})
  {
    var distances := (map router | router in t :: Inf)[start := Fin(0)];
    var walks := map[start := Start(start)];
    assert Witnessed(t, start, distances, walks);
  }

  /** Popping the minimal entry: a stale one leaves the state as it was; a
      current one settles its router, whose links are then all pending. */
  lemma PopPreserves(t: Topology, start: RouterId, distances: map<RouterId, Dist>,
                     heap: multiset<Entry>, settled: set<RouterId>, last: int,
                     walks: map<RouterId, Walk>, entry: Entry)
    requires RunState(t, start, distances, heap, settled, last, walks, start, {})
    requires IsMinEntry(heap, entry)
    ensures var rest := heap - multiset{entry};
            var u := entry.1;
            && u in distances && distances[u].Fin? && |rest| < |heap|
            && (Below(distances[u], Fin(entry.0)) ==>
                  RunState(t, start, distances, rest, settled, entry.0, walks, start, {}))
            && (!Below(distances[u], Fin(entry.0)) ==>
                  && distances[u] == Fin(entry.0) && u !in settled
                  && RunState(t, start, distances, rest, settled + {u}, entry.0, walks, u, t[u].Keys))
  {
    var rest := heap - multiset{entry};
    assert |rest| < |heap|;
    var (d, u) := entry;
    if !Below(distances[u], Fin(d)) {
      assert heap[(d, u)] == 1;
      assert (d, u) !in rest;
    }
  }

  /** The heap and settled-set parts of the state survive relaxing a link
      from the router being settled to a router `v` it improves. */
  lemma RelaxKeepsHeapFacts(distances: map<RouterId, Dist>, heap: multiset<Entry>,
                            settled: set<RouterId>, last: int, v: RouterId, d: int)
    requires EntriesAbove(distances, heap, last) && SettledFinal(distances, heap, settled, last)
    requires CurrentOnce(distances, heap)
    requires v in distances && Below(Fin(d), distances[v]) && last <= d
    ensures v !in settled
    ensures EntriesAbove(distances[v := Fin(d)], heap + multiset{(d, v)}, last)
    ensures SettledFinal(distances[v := Fin(d)], heap + multiset{(d, v)}, settled, last)
    ensures CurrentOnce(distances[v := Fin(d)], heap + multiset{(d, v)})
  {
    assert (d, v) !in heap;
  }

  lemma RelaxKeepsShape(t: Topology, start: RouterId, distances: map<RouterId, Dist>,
                        v: RouterId, d: int)
    requires Shape(t, start, distances)
    requires v in distances && Below(Fin(d), distances[v]) && d >= 0
    ensures Shape(t, start, distances[v := Fin(d)])
  {
  }

  lemma RelaxKeepsQueue(t: Topology, distances: map<RouterId, Dist>, heap: multiset<Entry>,
                        u: RouterId, pending: set<RouterId>, v: RouterId, d: int)
    requires RelaxedOrQueued(t, distances, heap, u, pending)
    requires u in distances && u in t && v in pending && v in t[u] && distances[u].Fin? && d == distances[u].n + t[u][v]
    requires v in distances && Below(Fin(d), distances[v]) && v != u
    ensures RelaxedOrQueued(t, distances[v := Fin(d)], heap + multiset{(d, v)}, u, pending - {v})
  {
    var distances' := distances[v := Fin(d)];
    var heap' := heap + multiset{(d, v)};
    forall x, y | x in distances' && x in t && y in t[x] && distances'[x].Fin?
      ensures (y in distances' && AtMost(distances'[y], Fin(distances'[x].n + t[x][y])))
              || (distances'[x].n, x) in heap'
              || (x == u && y in pending - {v})
    {
      if x == v {
        assert (distances'[x].n, x) in heap';
      } else if !(x == u && y == v) {
        assert (y in distances && AtMost(distances[y], Fin(distances[x].n + t[x][y])))
               || (distances[x].n, x) in heap
               || (x == u && y in pending);
      }
    }
  }

  /** Relaxing the link from the router being settled, `u`, to `v` when the
      route through `u` is cheaper: `v` is lowered and queued. */
  lemma RelaxLowers(t: Topology, start: RouterId, distances: map<RouterId, Dist>,
                    heap: multiset<Entry>, settled: set<RouterId>, last: int,
                    walks: map<RouterId, Walk>, u: RouterId, pending: set<RouterId>,
                    v: RouterId, d: int)
    requires NonNegative(t) && Closed(t)
    requires RunState(t, start, distances, heap, settled, last, walks, u, pending)
    requires u in settled && distances[u] == Fin(last)
    requires pending <= t[u].Keys && v in pending && d == last + t[u][v]
    requires v in distances && Below(Fin(d), distances[v])
    ensures v != u
    ensures RunState(t, start, distances[v := Fin(d)], heap + multiset{(d, v)}, settled, last,
                     walks[v := Step(walks[u], v)], u, pending - {v})
  {
    assert v != u;
    assert d >= 0;
    RelaxKeepsShape(t, start, distances, v, d);
    RelaxKeepsHeapFacts(distances, heap, settled, last, v, d);
    RelaxKeepsQueue(t, distances, heap, u, pending, v, d);
    WitnessedExtend(t, start, distances, walks, u, v, d);
  }

  /** Relaxing the link from `u` to `v` when it does not help: only the
      pending set shrinks. */
  lemma RelaxKeeps(t: Topology, start: RouterId, distances: map<RouterId, Dist>,
                   heap: multiset<Entry>, settled: set<RouterId>, last: int,
                   walks: map<RouterId, Walk>, u: RouterId, pending: set<RouterId>,
                   v: RouterId)
    requires Closed(t)
    requires RunState(t, start, distances, heap, settled, last, walks, u, pending)
    requires u in settled && distances[u] == Fin(last)
    requires pending <= t[u].Keys && v in pending
    requires !Below(Fin(last + t[u][v]), distances[v])
    ensures RunState(t, start, distances, heap, settled, last, walks, u, pending - {v})
  {
  }

  /** An empty heap leaves every link relaxed. */
  lemma DrainedIsClosed(t: Topology, distances: map<RouterId, Dist>, u: RouterId)
    requires RelaxedOrQueued(t, distances, multiset{}, u, {})
    ensures RelaxationClosed(t, distances)
  {
  }

  /** The inner loop of the search: every link out of the router `u` just
      settled at cost `last` is relaxed, and a neighbour reached more cheaply
      is lowered and queued. */
  method RelaxNeighbors(t: Topology, start: RouterId, distances: map<RouterId, Dist>,
                        heap: multiset<Entry>, ghost settled: set<RouterId>, ghost last: int,
                        ghost walks: map<RouterId, Walk>, u: RouterId)
    returns (distances': map<RouterId, Dist>, heap': multiset<Entry>,
             ghost walks': map<RouterId, Walk>)
    requires NonNegative(t) && Closed(t)
    requires u in t && u in settled && u in distances && distances[u] == Fin(last)
    requires RunState(t, start, distances, heap, settled, last, walks, u, t[u].Keys)
    ensures RunState(t, start, distances', heap', settled, last, walks', u, {})
    ensures distances'.Keys == distances.Keys
    ensures forall v :: v in distances ==>
      distances'[v] == (if v in t[u] && Below(Fin(last + t[u][v]), distances[v])
                        then Fin(last + t[u][v]) else distances[v])
  {
    distances', heap', walks' := distances, heap, walks;
    var currentDistance := distances[u].n;
    var pending := t[u].Keys;
    while pending != {}
      invariant pending <= t[u].Keys
      invariant RunState(t, start, distances', heap', settled, last, walks', u, pending)
      invariant distances'.Keys == distances.Keys
      invariant forall v :: v in distances ==>
        distances'[v] == (if v in t[u] && v !in pending && Below(Fin(last + t[u][v]), distances[v])
                          then Fin(last + t[u][v]) else distances[v])
      decreases pending
    {
      var neighbor :| neighbor in pending;
      var cost := t[u][neighbor];
      var distance := currentDistance + cost;
      if Below(Fin(distance), distances'[neighbor]) {
        RelaxLowers(t, start, distances', heap', settled, last, walks', u, pending, neighbor, distance);
        distances' := distances'[neighbor := Fin(distance)];
        heap' := heap' + multiset{(distance, neighbor)};
        walks' := walks'[neighbor := Step(walks'[u], neighbor)];
      } else {
        RelaxKeeps(t, start, distances', heap', settled, last, walks', u, pending, neighbor);
      }
      pending := pending - {neighbor};
    }
  }

  class LinkStateRouter {
    const routerId: RouterId
    var topology: Topology

    constructor (routerId: RouterId)
      ensures this.routerId == routerId && topology == map[]
    {
      this.routerId := routerId;
      topology := map[];
    }

    /** Stores each router's advertised links, replacing what was known. */
    method ReceiveLinkState(linkState: Topology)
      modifies this
      ensures forall r :: r in linkState ==> r in topology && topology[r] == linkState[r]
      ensures forall r :: r in old(topology) && r !in linkState ==> r in topology && topology[r] == old(topology)[r]
      ensures topology.Keys == old(topology).Keys + linkState.Keys
    {
      var pending := linkState.Keys;
      while pending != {}
        invariant pending <= linkState.Keys
        invariant topology == old(topology) + (linkState - pending)
        decreases pending
      {
        var router :| router in pending;
        topology := topology[router := linkState[router]];
        pending := pending - {router};
      }
      assert linkState - {} == linkState;
    }

    /** Dijkstra from `start` over the stored topology. The start and every
        neighbour must be routers of the topology (the dictionary lookups
        fail otherwise); link costs must be non-negative, since with a
        reachable negative cycle the loop never ends. The result holds every
        router: the shortest-path cost from `start`, or `Inf` exactly when
        there is no path. */
    method RunDijkstra(start: RouterId) returns (distances: map<RouterId, Dist>)
      requires start in topology && Closed(topology) && NonNegative(topology)
      ensures distances.Keys == topology.Keys
      ensures distances[start] == Fin(0)
      ensures RelaxationClosed(topology, distances)
      ensures Sound(topology, start, distances)
      ensures Optimal(topology, start, distances)
    {
      var t := topology;
      InitialState(t, start);
      distances := map router | router in t :: Inf;
      distances := distances[start := Fin(0)];
      var heap: multiset<Entry> := multiset{(0, start)};
      ghost var settled: set<RouterId> := {};
      ghost var last := 0;
      ghost var walks := map[start := Start(start)];
      while heap != multiset{}
        invariant RunState(t, start, distances, heap, settled, last, walks, start, {})
        decreases |t.Keys - settled|, |heap|
      {
        MinEntryExists(heap);
        var entry :| IsMinEntry(heap, entry);
        PopPreserves(t, start, distances, heap, settled, last, walks, entry);
        heap := heap - multiset{entry};
        last := entry.0;
        var (currentDistance, currentRouter) := entry;
        if Below(distances[currentRouter], Fin(currentDistance)) {
          continue;
        }
        assert currentRouter in t.Keys - settled;
        assert t.Keys - (settled + {currentRouter}) < t.Keys - settled;
        settled := settled + {currentRouter};
        distances, heap, walks :=
          RelaxNeighbors(t, start, distances, heap, settled, last, walks, currentRouter);
      }
      DrainedIsClosed(t, distances, start);
      WitnessedIsSound(t, start, distances, walks);
      ClosedIsOptimal(t, start, distances);
    }
  }
}
