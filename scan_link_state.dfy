/** The link-state router of link_state.py: given the whole topology it runs
    Dijkstra's algorithm by scanning the unvisited routers for the cheapest
    one, moves it to the visited map, stops as soon as the cheapest is
    unreachable, and relaxes the links to routers not yet visited. The
    visited map becomes the router's distance vector. */
module ScanLinkState {
  import opened Graph

  /** The unvisited map the search starts from: every router at `Inf`, the
      source at 0. */
  function InitialUnvisited(t: Topology, s: RouterId): (r: map<RouterId, Dist>)
    ensures r.Keys == t.Keys + {s}
    ensures r[s] == Fin(0) && forall v :: v in r && v != s ==> r[v].Inf?
  {
    (map node | node in t :: Inf)[s := Fin(0)]
  }

  /** `k` is a key of least distance in `m`. */
  predicate IsMinKey(m: map<RouterId, Dist>, k: RouterId) {
    k in m && forall j :: j in m ==> AtMost(m[k], m[j])
  }

  /** A non-empty map of distances has a key of least distance. */
  lemma {:induction false} MinKeyExists(m: map<RouterId, Dist>)
    requires m != map[]
    ensures exists k :: IsMinKey(m, k)
    decreases m.Keys
  {
    var x :| x in m;
    if m.Keys == {x} {
      assert IsMinKey(m, x);
    } else {
      var rest := m - {x};
      var y :| y in m.Keys && y !in {x};
      assert y in rest;
      MinKeyExists(rest);
      var k :| IsMinKey(rest, k);
      var least := if AtMost(m[x], m[k]) then x else k;
      forall j | j in m ensures AtMost(m[least], m[j]) {
        if j != x { assert j in rest; }
      }
      assert IsMinKey(m, least);
    }
  }

  ghost predicate AllFinite(m: map<RouterId, Dist>) {
    forall v :: v in m ==> m[v].Fin?
  }

  /** Every visited distance is at most every unvisited one. */
  ghost predicate Ordered(visited: map<RouterId, Dist>, unvisited: map<RouterId, Dist>) {
    forall a, b :: a in visited && b in unvisited ==> AtMost(visited[a], unvisited[b])
  }

  /** Each link from a visited router to an unvisited one has been relaxed,
      except the links from `m` to `pending`, which are being relaxed now. */
  ghost predicate FrontierRelaxed(t: Topology, visited: map<RouterId, Dist>,
                                  unvisited: map<RouterId, Dist>, m: RouterId, pending: set<RouterId>)
  {
    forall a, y {:trigger y in t[a]} ::
      a in visited && a in t && y in t[a] && visited[a].Fin? && y in unvisited && y !in visited ==>
        AtMost(unvisited[y], Fin(visited[a].n + t[a][y])) || (a == m && y in pending)
  }

  /** No link between two visited routers improves the later one. */
  ghost predicate VisitedRelaxed(t: Topology, visited: map<RouterId, Dist>) {
    forall a, y {:trigger y in t[a]} ::
      a in visited && a in t && y in t[a] && visited[a].Fin? && y in visited ==>
        AtMost(visited[y], Fin(visited[a].n + t[a][y]))
  }

  /** The state between two rounds of the search from `s`. */
  ghost predicate Scan(t: Topology, s: RouterId, visited: map<RouterId, Dist>,
                       unvisited: map<RouterId, Dist>, walks: map<RouterId, Walk>)
  {
    && visited.Keys !! unvisited.Keys
    && visited.Keys + unvisited.Keys == t.Keys
    && AllFinite(visited)
    && (visited == map[] ==> unvisited == InitialUnvisited(t, s))
    && (visited != map[] ==> s in visited && visited[s] == Fin(0))
    && Witnessed(t, s, visited, walks) && Witnessed(t, s, unvisited, walks)
    && (NonNegative(t) ==> Ordered(visited, unvisited) && VisitedRelaxed(t, visited))
    && FrontierRelaxed(t, visited, unvisited, s, {})
  }

  /** The state while the links out of the router `m`, visited last, are
      relaxed: `m` is in both maps, and its links to `pending` are not yet
      relaxed. */
  ghost predicate Frontier(t: Topology, s: RouterId, visited: map<RouterId, Dist>,
                           unvisited: map<RouterId, Dist>, walks: map<RouterId, Walk>,
                           m: RouterId, pending: set<RouterId>)
  {
    && visited.Keys + unvisited.Keys == t.Keys
    && visited.Keys * unvisited.Keys == {m}
    && AllFinite(visited) && s in visited && visited[s] == Fin(0)
    && m in visited && m in unvisited && unvisited[m] == visited[m]
    && Witnessed(t, s, visited, walks) && Witnessed(t, s, unvisited, walks)
    && (NonNegative(t) ==> Ordered(visited, unvisited) && VisitedRelaxed(t, visited))
    && FrontierRelaxed(t, visited, unvisited, m, pending)
  }

  /** `order` lists the keys of `visited` once each, in the order they were
      visited. */
  ghost predicate VisitOrder(visited: map<RouterId, Dist>, order: seq<RouterId>) {
    && |order| == |visited|
    && (forall i :: 0 <= i < |order| ==> order[i] in visited)
    && (forall i, j :: 0 <= i < j < |order| ==> order[i] != order[j])
  }

  /** Visiting the cheapest unvisited router `m` extends the visit order, and
      with non-negative costs `m` costs at least as much as every router
      visited before it. */
  lemma OrderStep(t: Topology, s: RouterId, visited: map<RouterId, Dist>,
                  unvisited: map<RouterId, Dist>, order: seq<RouterId>, m: RouterId)
    requires visited.Keys !! unvisited.Keys
    requires visited == map[] ==> unvisited == InitialUnvisited(t, s)
    requires NonNegative(t) ==> Ordered(visited, unvisited)
    requires VisitOrder(visited, order) && (order != [] ==> order[0] == s)
    requires NonNegative(t) ==> forall i, j :: 0 <= i < j < |order| ==> AtMost(visited[order[i]], visited[order[j]])
    requires IsMinKey(unvisited, m)
    ensures var visited', order' := visited[m := unvisited[m]], order + [m];
            && VisitOrder(visited', order') && order'[0] == s
            && (NonNegative(t) ==> forall i, j :: 0 <= i < j < |order'| ==> AtMost(visited'[order'[i]], visited'[order'[j]]))
  {
    var visited', order' := visited[m := unvisited[m]], order + [m];
    assert m !in visited;
    assert |visited'| == |visited| + 1 by {
      assert visited'.Keys == visited.Keys + {m};
    }
    if order == [] {
      assert visited == map[];
      assert m == s;
    }
  }

  /** What the search returns from `s`: distances to routers of the
      topology, the source at 0, every finite distance the cost of a walk
      from the source, every router reachable from the source present at a
      finite distance (whatever the link costs), at most one infinite entry
      (the router that stopped the search, which is therefore unreachable),
      every router when none is infinite, and, when no link cost is
      negative, no link left that would improve a distance. */
  ghost predicate SearchResult(t: Topology, s: RouterId, visited: map<RouterId, Dist>) {
    && visited.Keys <= t.Keys
    && s in visited && visited[s] == Fin(0)
    && Sound(t, s, visited)
    && Reaches(t, s, visited)
    && (forall a, b :: a in visited && b in visited && visited[a].Inf? && visited[b].Inf? ==> a == b)
    && (AllFinite(visited) ==> visited.Keys == t.Keys)
    && (NonNegative(t) ==> RelaxationClosed(t, visited))
  }

  lemma InitialScan(t: Topology, s: RouterId)
    requires s in t
    ensures Scan(t, s, map[], InitialUnvisited(t, s), map[s := Start(s)])
  {
  }

  /** Moving the cheapest unvisited router `m`, at a finite distance, to the
      visited map: the visited part stays ordered and relaxed, and the only
      links not yet relaxed are those out of `m`. */
  lemma VisitStep(t: Topology, s: RouterId, visited: map<RouterId, Dist>,
                  unvisited: map<RouterId, Dist>, walks: map<RouterId, Walk>, m: RouterId)
    requires Scan(t, s, visited, unvisited, walks)
    requires IsMinKey(unvisited, m) && unvisited[m].Fin?
    ensures m in t && Frontier(t, s, visited[m := unvisited[m]], unvisited, walks, m, t[m].Keys)
  {
    var visited' := visited[m := unvisited[m]];
    assert visited'.Keys * unvisited.Keys == {m};
    if visited == map[] {
      assert m == s;
    }
    if NonNegative(t) {
      forall a, y | a in visited' && a in t && y in t[a] && visited'[a].Fin? && y in visited'
        ensures AtMost(visited'[y], Fin(visited'[a].n + t[a][y]))
      {
        if a == m && y != m {
          assert AtMost(visited[y], unvisited[m]);
        } else if a != m && y == m {
          assert AtMost(unvisited[y], Fin(visited[a].n + t[a][y])) || (a == s && y in {});
        }
      }
    }
  }

  /** Dropping `m` from the unvisited map once its links are relaxed brings
      the search back to the state between rounds. */
  lemma LeaveStep(t: Topology, s: RouterId, visited: map<RouterId, Dist>,
                  unvisited: map<RouterId, Dist>, walks: map<RouterId, Walk>, m: RouterId)
    requires Frontier(t, s, visited, unvisited, walks, m, {})
    ensures Scan(t, s, visited, unvisited - {m}, walks)
  {
    var unvisited' := unvisited - {m};
    assert visited.Keys !! unvisited'.Keys;
    assert visited.Keys + unvisited'.Keys == t.Keys;
  }

  /** The search stops on an unreachable cheapest router `m`: recording it
      as `Inf` yields the final result, in which `m` is the only infinite
      entry and, when no link cost is negative, no link improves a distance
      (so every router reachable from `s` has been visited). */
  lemma BrokenScan(t: Topology, s: RouterId, visited: map<RouterId, Dist>,
                   unvisited: map<RouterId, Dist>, walks: map<RouterId, Walk>, m: RouterId)
    requires Closed(t) && s in t
    requires Scan(t, s, visited, unvisited, walks)
    requires IsMinKey(unvisited, m) && unvisited[m].Inf?
    ensures SearchResult(t, s, visited[m := Inf])
    ensures !AllFinite(visited[m := Inf])
  {
    var visited' := visited[m := Inf];
    AllUnreachable(t, s, visited, unvisited, walks, m);
    if visited == map[] {
      assert false;
    }
    assert Witnessed(t, s, visited', walks);
    WitnessedIsSound(t, s, visited', walks);
    BrokenReaches(t, s, visited, unvisited, walks, m);
    assert visited'.Keys <= t.Keys;
    assert s in visited' && visited'[s] == Fin(0);
    assert forall a, b :: a in visited' && b in visited' && visited'[a].Inf? && visited'[b].Inf? ==> a == b;
    assert m in visited' && visited'[m].Inf?;
    assert !AllFinite(visited');
    if NonNegative(t) {
      forall a, y | a in visited' && a in t && y in t[a] && visited'[a].Fin?
        ensures y in visited' && AtMost(visited'[y], Fin(visited'[a].n + t[a][y]))
      {
        assert a in visited && a != m;
        assert y in t;
        if y !in visited {
          assert false;
        }
      }
    }
  }

  /** When the cheapest unvisited router is at `Inf`, so is every unvisited
      router, and the search has visited at least the source. */
  lemma AllUnreachable(t: Topology, s: RouterId, visited: map<RouterId, Dist>,
                       unvisited: map<RouterId, Dist>, walks: map<RouterId, Walk>, m: RouterId)
    requires s in t
    requires Scan(t, s, visited, unvisited, walks)
    requires IsMinKey(unvisited, m) && unvisited[m].Inf?
    ensures forall k :: k in unvisited ==> unvisited[k].Inf?
    ensures visited != map[]
  {
    forall k | k in unvisited ensures unvisited[k].Inf? {
      assert AtMost(unvisited[m], unvisited[k]);
    }
    if visited == map[] {
      assert false;
    }
  }

  /** When the search stops, no link leads from a visited router to an
      unvisited one (every unvisited router is still at `Inf`, and the
      frontier is relaxed), so every walk from `s` ends at a visited,
      finite router, whatever the link costs. */
  lemma BrokenReaches(t: Topology, s: RouterId, visited: map<RouterId, Dist>,
                      unvisited: map<RouterId, Dist>, walks: map<RouterId, Walk>, m: RouterId)
    requires Closed(t)
    requires Scan(t, s, visited, unvisited, walks) && visited != map[]
    requires forall k :: k in unvisited ==> unvisited[k].Inf?
    requires m in unvisited
    ensures Reaches(t, s, visited[m := Inf])
  {
    forall a, y | a in visited && a in t && y in t[a]
      ensures y in visited
    {
      assert y in t;
      if y !in visited {
        assert false;
      }
    }
    assert LinksStayIn(t, visited.Keys);
    forall w | IsWalk(t, w) && First(w) == s
      ensures Last(w) in visited[m := Inf] && visited[m := Inf][Last(w)].Fin?
    {
      WalkStaysIn(t, s, visited.Keys, w);
    }
  }

  /** The search ran out of unvisited routers: every router is visited at
      a finite distance, and, when no link cost is negative, no link
      improves a distance. */
  lemma ExhaustedScan(t: Topology, s: RouterId, visited: map<RouterId, Dist>,
                      walks: map<RouterId, Walk>)
    requires Closed(t) && s in t
    requires Scan(t, s, visited, map[], walks)
    ensures SearchResult(t, s, visited)
    ensures AllFinite(visited)
  {
    WitnessedIsSound(t, s, visited, walks);
    assert LinksStayIn(t, visited.Keys);
    forall w | IsWalk(t, w) && First(w) == s
      ensures Last(w) in visited && visited[Last(w)].Fin?
    {
      WalkStaysIn(t, s, visited.Keys, w);
    }
  }

  /** The unvisited map once the links from the visited router `m` to the
      routers in `done` have been relaxed: a router not yet visited that is
      cheaper to reach through `m` is lowered to that cost. */
  function RelaxedFrom(t: Topology, visited: map<RouterId, Dist>, unvisited: map<RouterId, Dist>,
                       m: RouterId, done: set<RouterId>): (r: map<RouterId, Dist>)
    requires m in t && m in visited && visited[m].Fin?
    ensures r.Keys == unvisited.Keys
    ensures forall y :: y in r ==> AtMost(r[y], unvisited[y])
    ensures forall y :: y in r && y in done && y in t[m] && y !in visited ==>
      AtMost(r[y], Fin(visited[m].n + t[m][y]))
    ensures forall y :: y in r && (y !in done || y !in t[m] || y in visited) ==> r[y] == unvisited[y]
  {
    map y | y in unvisited ::
      if y in done && y in t[m] && y !in visited && Below(Fin(visited[m].n + t[m][y]), unvisited[y])
      then Fin(visited[m].n + t[m][y]) else unvisited[y]
  }

  /** The routers that relaxing the links from `m` to `done` lowers; each
      gets `m` as its predecessor. */
  function LoweredFrom(t: Topology, visited: map<RouterId, Dist>, unvisited: map<RouterId, Dist>,
                       m: RouterId, done: set<RouterId>): (r: set<RouterId>)
    requires m in t && m in visited && visited[m].Fin?
    ensures r <= unvisited.Keys * done * t[m].Keys - visited.Keys
    ensures forall y :: y in r <==> y in unvisited && RelaxedFrom(t, visited, unvisited, m, done)[y] != unvisited[y]
    ensures forall y :: y in r ==> RelaxedFrom(t, visited, unvisited, m, done)[y] == Fin(visited[m].n + t[m][y])
  {
    set y | y in unvisited && y in done && y in t[m] && y !in visited
                && Below(Fin(visited[m].n + t[m][y]), unvisited[y])
  }

  /** Relaxing one more link from `m`, to `y`, moves both functions on by
      the loop's single step. */
  lemma RelaxedFromStep(t: Topology, visited: map<RouterId, Dist>, unvisited: map<RouterId, Dist>,
                        m: RouterId, done: set<RouterId>, y: RouterId)
    requires m in t && m in visited && visited[m].Fin?
    requires y in t[m] && y !in done && y in unvisited && y !in visited
    ensures var cur := RelaxedFrom(t, visited, unvisited, m, done);
            var d := visited[m].n + t[m][y];
            && cur[y] == unvisited[y]
            && RelaxedFrom(t, visited, unvisited, m, done + {y})
               == (if Below(Fin(d), cur[y]) then cur[y := Fin(d)] else cur)
            && LoweredFrom(t, visited, unvisited, m, done + {y})
               == (if Below(Fin(d), cur[y]) then LoweredFrom(t, visited, unvisited, m, done) + {y}
                   else LoweredFrom(t, visited, unvisited, m, done))
  {
    var cur := RelaxedFrom(t, visited, unvisited, m, done);
    var next := RelaxedFrom(t, visited, unvisited, m, done + {y});
    var d := visited[m].n + t[m][y];
    var stepped := if Below(Fin(d), cur[y]) then cur[y := Fin(d)] else cur;
    assert stepped.Keys == next.Keys;
    forall z | z in next ensures stepped[z] == next[z] {
    }
  }

  /** Before any link is relaxed nothing is lowered. */
  lemma RelaxedFromNone(t: Topology, visited: map<RouterId, Dist>, unvisited: map<RouterId, Dist>,
                        path: map<RouterId, RouterId>, m: RouterId)
    requires m in t && m in visited && visited[m].Fin?
    ensures RelaxedFrom(t, visited, unvisited, m, {}) == unvisited
    ensures LoweredFrom(t, visited, unvisited, m, {}) == {}
    ensures path + (map y | y in LoweredFrom(t, visited, unvisited, m, {}) :: m) == path
  {
    assert LoweredFrom(t, visited, unvisited, m, {}) == {};
  }

  /** Relaxing a link from `m` to a visited router, or to one outside the
      topology's links from `m`, changes nothing. */
  lemma RelaxedFromSkip(t: Topology, visited: map<RouterId, Dist>, unvisited: map<RouterId, Dist>,
                        m: RouterId, done: set<RouterId>, y: RouterId)
    requires m in t && m in visited && visited[m].Fin?
    requires y in visited
    ensures RelaxedFrom(t, visited, unvisited, m, done + {y}) == RelaxedFrom(t, visited, unvisited, m, done)
    ensures LoweredFrom(t, visited, unvisited, m, done + {y}) == LoweredFrom(t, visited, unvisited, m, done)
  {
  }

  /** The result of the search, with non-negative costs, holds shortest
      distances. */
  lemma FinishSearch(t: Topology, s: RouterId, visited: map<RouterId, Dist>)
    requires SearchResult(t, s, visited)
    ensures NonNegative(t) ==> Optimal(t, s, visited)
  {
    if NonNegative(t) {
      ClosedIsOptimal(t, s, visited);
    }
  }

  /** Recording `m` as the predecessor of one more lowered router `y`. */
  lemma PredecessorStep(path: map<RouterId, RouterId>, lowered: set<RouterId>, m: RouterId, y: RouterId)
    ensures (path + map z | z in lowered :: m)[y := m] == path + map z | z in lowered + {y} :: m
  {
    var before := (path + map z | z in lowered :: m)[y := m];
    var after := path + map z | z in lowered + {y} :: m;
    assert before.Keys == after.Keys;
    forall z | z in after ensures before[z] == after[z] {
    }
  }

  /** Lowering `y` to a value no smaller than `m`'s keeps every visited
      distance at most every unvisited one. */
  lemma LowerKeepsOrdered(visited: map<RouterId, Dist>, unvisited: map<RouterId, Dist>,
                          m: RouterId, y: RouterId, d: int)
    requires Ordered(visited, unvisited)
    requires m in unvisited && unvisited[m].Fin? && unvisited[m].n <= d
    ensures Ordered(visited, unvisited[y := Fin(d)])
  {
    var unvisited' := unvisited[y := Fin(d)];
    forall a, b | a in visited && b in unvisited'
      ensures AtMost(visited[a], unvisited'[b])
    {
      if b == y {
        assert AtMost(visited[a], unvisited[m]);
      }
    }
  }

  /** Lowering `y` to the cost through `m` relaxes the link from `m` to `y`
      and keeps every other frontier link relaxed. */
  lemma LowerKeepsFrontier(t: Topology, visited: map<RouterId, Dist>,
                           unvisited: map<RouterId, Dist>, m: RouterId,
                           pending: set<RouterId>, y: RouterId)
    requires FrontierRelaxed(t, visited, unvisited, m, pending)
    requires m in visited && m in t && y in t[m] && visited[m].Fin? && y in unvisited
    requires Below(Fin(visited[m].n + t[m][y]), unvisited[y])
    ensures FrontierRelaxed(t, visited, unvisited[y := Fin(visited[m].n + t[m][y])], m, pending - {y})
  {
    var unvisited' := unvisited[y := Fin(visited[m].n + t[m][y])];
    forall a, z | a in visited && a in t && z in t[a] && visited[a].Fin? && z in unvisited' && z !in visited
      ensures AtMost(unvisited'[z], Fin(visited[a].n + t[a][z])) || (a == m && z in pending - {y})
    {
      if z != y {
        assert AtMost(unvisited[z], Fin(visited[a].n + t[a][z])) || (a == m && z in pending);
      } else if a != m {
        assert AtMost(unvisited[z], Fin(visited[a].n + t[a][z]));
      }
    }
  }

  /** Lowering the unvisited router `y` to the cost through `m`: the
      witness walks, the order and the frontier survive, and the link from
      `m` to `y` is relaxed. */
  lemma LowerStep(t: Topology, s: RouterId, visited: map<RouterId, Dist>,
                  unvisited: map<RouterId, Dist>, walks: map<RouterId, Walk>,
                  m: RouterId, pending: set<RouterId>, y: RouterId)
    requires Frontier(t, s, visited, unvisited, walks, m, pending)
    requires m in t && pending <= t[m].Keys && y in pending && y !in visited && y in unvisited
    requires Below(Fin(visited[m].n + t[m][y]), unvisited[y])
    ensures Frontier(t, s, visited, unvisited[y := Fin(visited[m].n + t[m][y])],
                     walks[y := Step(walks[m], y)], m, pending - {y})
  {
    var d := visited[m].n + t[m][y];
    var unvisited', walks' := unvisited[y := Fin(d)], walks[y := Step(walks[m], y)];
    assert unvisited'.Keys == unvisited.Keys;
    WitnessedExtend(t, s, unvisited, walks, m, y, d);
    WitnessedAway(t, s, visited, walks, y, Step(walks[m], y));
    if NonNegative(t) {
      assert t[m][y] >= 0;
      LowerKeepsOrdered(visited, unvisited, m, y, d);
    }
    LowerKeepsFrontier(t, visited, unvisited, m, pending, y);
  }

  /** A link from `m` that does not lower its target only leaves the
      pending set. */
  lemma KeepStep(t: Topology, s: RouterId, visited: map<RouterId, Dist>,
                 unvisited: map<RouterId, Dist>, walks: map<RouterId, Walk>,
                 m: RouterId, pending: set<RouterId>, y: RouterId)
    requires Frontier(t, s, visited, unvisited, walks, m, pending)
    requires m in t && pending <= t[m].Keys && y in pending
    requires y in unvisited && y !in visited ==> !Below(Fin(visited[m].n + t[m][y]), unvisited[y])
    ensures Frontier(t, s, visited, unvisited, walks, m, pending - {y})
  {
  }

  /** The inner loop of the search: each link from the router `m` just
      visited to a router not yet visited is relaxed, and a router reached
      more cheaply is lowered and given `m` as its predecessor. */
  method RelaxFrom(t: Topology, s: RouterId, visited: map<RouterId, Dist>,
                   unvisited: map<RouterId, Dist>, path: map<RouterId, RouterId>,
                   ghost walks: map<RouterId, Walk>, m: RouterId)
    returns (unvisited': map<RouterId, Dist>, path': map<RouterId, RouterId>,
             ghost walks': map<RouterId, Walk>)
    requires Closed(t) && m in t
    requires Frontier(t, s, visited, unvisited, walks, m, t[m].Keys)
    ensures unvisited' == RelaxedFrom(t, visited, unvisited, m, t[m].Keys)
    ensures path' == path + map y | y in LoweredFrom(t, visited, unvisited, m, t[m].Keys) :: m
    ensures Frontier(t, s, visited, unvisited', walks', m, {})
  {
    unvisited', path', walks' := unvisited, path, walks;
    var pending := t[m].Keys;
    ghost var done: set<RouterId> := {};
    RelaxedFromNone(t, visited, unvisited, path, m);
    while pending != {}
      invariant pending !! done && pending + done == t[m].Keys
      invariant unvisited' == RelaxedFrom(t, visited, unvisited, m, done)
      invariant path' == path + map y | y in LoweredFrom(t, visited, unvisited, m, done) :: m
      invariant Frontier(t, s, visited, unvisited', walks', m, pending)
      decreases pending
    {
      var neighbor :| neighbor in pending;
      assert neighbor in t;
      if neighbor !in visited {
        RelaxedFromStep(t, visited, unvisited, m, done, neighbor);
        var newCost := visited[m].n + t[m][neighbor];
        if Below(Fin(newCost), unvisited'[neighbor]) {
          LowerStep(t, s, visited, unvisited', walks', m, pending, neighbor);
          PredecessorStep(path, LoweredFrom(t, visited, unvisited, m, done), m, neighbor);
          unvisited' := unvisited'[neighbor := Fin(newCost)];
          path' := path'[neighbor := m];
          walks' := walks'[neighbor := Step(walks'[m], neighbor)];
        } else {
          KeepStep(t, s, visited, unvisited', walks', m, pending, neighbor);
        }
      } else {
        RelaxedFromSkip(t, visited, unvisited, m, done, neighbor);
        KeepStep(t, s, visited, unvisited', walks', m, pending, neighbor);
      }
      assert (pending - {neighbor}) + (done + {neighbor}) == pending + done;
      pending := pending - {neighbor};
      done := done + {neighbor};
    }
    assert done == t[m].Keys;
  }

  class LinkStateRouter {
    const routerId: RouterId
    const neighbors: Neighbors
    var distanceVector: map<RouterId, Dist>

    constructor (routerId: RouterId, neighbors: Neighbors)
      ensures this.routerId == routerId && this.neighbors == neighbors
      ensures distanceVector == map[routerId := Fin(0)]
    {
      this.routerId := routerId;
      this.neighbors := neighbors;
      distanceVector := map[routerId := Fin(0)];
    }

    /** Dijkstra's algorithm from this router over `t`. The router must be
        in the topology and every neighbour named must be a router of it
        (the dictionary lookups fail otherwise). The search stops for any
        link costs; the distances it returns are shortest when no cost is
        negative. */
    method CalculateShortestPath(t: Topology) returns (visited: map<RouterId, Dist>, ghost order: seq<RouterId>)
      requires routerId in t && Closed(t)
      modifies this
      ensures distanceVector == visited
      ensures SearchResult(t, routerId, visited)
      ensures NonNegative(t) ==> Optimal(t, routerId, visited)
      ensures VisitOrder(visited, order) && order[0] == routerId
      ensures NonNegative(t) ==> forall i, j :: 0 <= i < j < |order| ==> AtMost(visited[order[i]], visited[order[j]])
    {
      var unvisited := InitialUnvisited(t, routerId);
      visited := map[];
      var path: map<RouterId, RouterId> := map[];
      ghost var walks := map[routerId := Start(routerId)];
      InitialScan(t, routerId);
      ghost var stopped := false;
      order := [];
      while unvisited != map[]
        invariant !stopped
        invariant Scan(t, routerId, visited, unvisited, walks)
        invariant VisitOrder(visited, order) && (order != [] ==> order[0] == routerId)
        invariant NonNegative(t) ==> forall i, j :: 0 <= i < j < |order| ==> AtMost(visited[order[i]], visited[order[j]])
        decreases unvisited.Keys
      {
        MinKeyExists(unvisited);
        var minNode :| IsMinKey(unvisited, minNode);
        ghost var before := visited;
        OrderStep(t, routerId, visited, unvisited, order, minNode);
        visited := visited[minNode := unvisited[minNode]];
        order := order + [minNode];
        if visited[minNode] == Inf {
          BrokenScan(t, routerId, before, unvisited, walks, minNode);
          FinishSearch(t, routerId, visited);
          stopped := true;
          break;
        }
        VisitStep(t, routerId, before, unvisited, walks, minNode);
        unvisited, path, walks := RelaxFrom(t, routerId, visited, unvisited, path, walks, minNode);
        LeaveStep(t, routerId, visited, unvisited, walks, minNode);
        unvisited := unvisited - {minNode};
      }
      if order == [] {
        assert false;
      }
      if !stopped {
        ExhaustedScan(t, routerId, visited, walks);
        FinishSearch(t, routerId, visited);
      }
      distanceVector := visited;
    }
  }

  /** Builds one router per topology entry, then has each compute its
      shortest paths over the whole topology (the results are only printed
      by the simulation; here they stay in each router's distance vector). */
  method LinkStateRoutingSimulation(t: Topology) returns (routers: map<RouterId, LinkStateRouter>)
    requires Closed(t)
    ensures routers.Keys == t.Keys
    ensures forall r1, r2 :: r1 in routers && r2 in routers && r1 != r2 ==> routers[r1] != routers[r2]
    ensures forall r :: r in routers ==>
      fresh(routers[r]) && routers[r].routerId == r && routers[r].neighbors == t[r]
      && SearchResult(t, r, routers[r].distanceVector)
      && (NonNegative(t) ==> Optimal(t, r, routers[r].distanceVector))
  {
    routers := map[];
    var pending := t.Keys;
    while pending != {}
      invariant pending <= t.Keys
      invariant routers.Keys == t.Keys - pending
      invariant forall r1, r2 :: r1 in routers && r2 in routers && r1 != r2 ==> routers[r1] != routers[r2]
      invariant forall r :: r in routers ==>
        fresh(routers[r]) && routers[r].routerId == r && routers[r].neighbors == t[r]
      decreases pending
    {
      var routerId :| routerId in pending;
      var router := new LinkStateRouter(routerId, t[routerId]);
      routers := routers[routerId := router];
      pending := pending - {routerId};
    }
    pending := t.Keys;
    while pending != {}
      invariant pending <= t.Keys
      invariant forall r :: r in routers ==>
        fresh(routers[r]) && routers[r].routerId == r && routers[r].neighbors == t[r]
      invariant forall r :: r in t.Keys - pending ==>
        SearchResult(t, r, routers[r].distanceVector)
        && (NonNegative(t) ==> Optimal(t, r, routers[r].distanceVector))
      decreases pending
    {
      var routerId :| routerId in pending;
      var shortestPaths;
      ghost var order;
      shortestPaths, order := routers[routerId].CalculateShortestPath(t);
      pending := pending - {routerId};
    }
  }
}
