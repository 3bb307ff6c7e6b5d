/** Vocabulary shared by the routing simulations: router identifiers, the
    topology (router -> neighbour -> integer link cost), distances with an
    infinite sentinel, walks through the topology and what it means for a
    distance map to hold shortest-path costs. */
module Graph {

  type RouterId = string
  type Neighbors = map<RouterId, int>
  type Topology = map<RouterId, Neighbors>

  /** A tentative or final distance; `Inf` stands for the float infinity the
      simulations start every unknown router at. */
  datatype Dist = Fin(n: int) | Inf

  /** Strict order on distances: every finite value is below `Inf`. */
  predicate Below(a: Dist, b: Dist) {
    a.Fin? && (b.Inf? || a.n < b.n)
  }

  predicate AtMost(a: Dist, b: Dist) {
    b.Inf? || (a.Fin? && a.n <= b.n)
  }

  /** Every neighbour named in the topology is itself a router of it. */
  predicate Closed(t: Topology) {
    forall u, v :: u in t && v in t[u] ==> v in t
  }

  predicate NonNegative(t: Topology) {
    forall u, v :: u in t && v in t[u] ==> t[u][v] >= 0
  }

  /** A walk through the topology, built from its first router by
      appending one router per link followed. */
  datatype Walk = Start(origin: RouterId) | Step(prefix: Walk, to: RouterId)

  function First(w: Walk): RouterId {
    match w
    case Start(origin) => origin
    case Step(prefix, _) => First(prefix)
  }

  function Last(w: Walk): RouterId {
    match w
    case Start(origin) => origin
    case Step(_, to) => to
  }

  /** Each appended router is a neighbour, in the topology, of the one
      before it. */
  ghost predicate IsWalk(t: Topology, w: Walk) {
    match w
    case Start(_) => true
    case Step(prefix, to) => IsWalk(t, prefix) && Last(prefix) in t && to in t[Last(prefix)]
  }

  /** Sum of the link costs along a walk. */
  ghost function Cost(t: Topology, w: Walk): int
    requires IsWalk(t, w)
  {
    match w
    case Start(_) => 0
    case Step(prefix, to) => Cost(t, prefix) + t[Last(prefix)][to]
  }

  /** `walks` holds, for every finite entry of `dist`, a walk from `s` whose
      cost is exactly that entry. */
  ghost predicate Witnessed(t: Topology, s: RouterId, dist: map<RouterId, Dist>,
                            walks: map<RouterId, Walk>)
  {
    forall v {:trigger dist[v]} :: v in dist && dist[v].Fin? ==>
      v in walks && IsWalk(t, walks[v]) && First(walks[v]) == s && Last(walks[v]) == v
      && Cost(t, walks[v]) == dist[v].n
  }

  /** Every finite entry is the cost of some walk from `s`. */
  ghost predicate Sound(t: Topology, s: RouterId, dist: map<RouterId, Dist>) {
    forall v :: v in dist && dist[v].Fin? ==>
      exists w :: IsWalk(t, w) && First(w) == s && Last(w) == v && Cost(t, w) == dist[v].n
  }

  /** Every walk from `s` ends at a finite entry no larger than its cost. */
  ghost predicate Optimal(t: Topology, s: RouterId, dist: map<RouterId, Dist>) {
    forall w :: IsWalk(t, w) && First(w) == s ==>
      Last(w) in dist && AtMost(dist[Last(w)], Fin(Cost(t, w)))
  }

  /** Every router reachable from `s` has a finite entry; so an infinite
      entry, or a missing one, is a router no walk from `s` reaches. */
  ghost predicate Reaches(t: Topology, s: RouterId, dist: map<RouterId, Dist>) {
    forall w :: IsWalk(t, w) && First(w) == s ==> Last(w) in dist && dist[Last(w)].Fin?
  }

  /** No link leads out of the set `S`. */
  ghost predicate LinksStayIn(t: Topology, S: set<RouterId>) {
    forall a, y {:trigger y in t[a]} :: a in S && a in t && y in t[a] ==> y in S
  }

  /** A walk from a router of a set no link leads out of stays in that set
      (induction on the walk). */
  lemma {:induction false} WalkStaysIn(t: Topology, s: RouterId, S: set<RouterId>, w: Walk)
    requires s in S && LinksStayIn(t, S)
    requires IsWalk(t, w) && First(w) == s
    ensures Last(w) in S
  {
    match w
    case Start(_) =>
    case Step(prefix, to) =>
      WalkStaysIn(t, s, S, prefix);
      assert to in t[Last(prefix)];
  }

  /** No link can improve a finite entry any more. */
  ghost predicate RelaxationClosed(t: Topology, dist: map<RouterId, Dist>) {
    forall u, v {:trigger v in t[u]} :: u in dist && u in t && v in t[u] && dist[u].Fin? ==>
      v in dist && AtMost(dist[v], Fin(dist[u].n + t[u][v]))
  }

  /** Lowering `v` to the cost through a finite `u` keeps every finite entry
      witnessed, by `u`'s walk extended with the link to `v`. */
  lemma WitnessedExtend(t: Topology, s: RouterId, dist: map<RouterId, Dist>,
                        walks: map<RouterId, Walk>, u: RouterId, v: RouterId, d: int)
    requires Witnessed(t, s, dist, walks)
    requires u in dist && dist[u].Fin? && u in t && v in t[u] && d == dist[u].n + t[u][v]
    ensures Witnessed(t, s, dist[v := Fin(d)], walks[v := Step(walks[u], v)])
  {
  }

  /** Changing the walk of a router without an entry keeps every entry
      witnessed. */
  lemma WitnessedAway(t: Topology, s: RouterId, dist: map<RouterId, Dist>,
                      walks: map<RouterId, Walk>, v: RouterId, w: Walk)
    requires Witnessed(t, s, dist, walks) && v !in dist
    ensures Witnessed(t, s, dist, walks[v := w])
  {
  }

  lemma WitnessedIsSound(t: Topology, s: RouterId, dist: map<RouterId, Dist>,
                         walks: map<RouterId, Walk>)
    requires Witnessed(t, s, dist, walks)
    ensures Sound(t, s, dist)
  {
    forall v | v in dist && dist[v].Fin?
      ensures exists w :: IsWalk(t, w) && First(w) == s && Last(w) == v && Cost(t, w) == dist[v].n
    {
      var w := walks[v];
      assert IsWalk(t, w) && First(w) == s && Last(w) == v && Cost(t, w) == dist[v].n;
    }
  }

  /** A map that is closed under relaxation and has `s` at 0 bounds every
      walk from `s` from below (induction on the walk). */
  lemma {:induction false} ClosedBoundsWalk(t: Topology, s: RouterId,
                                            dist: map<RouterId, Dist>, w: Walk)
    requires RelaxationClosed(t, dist) && s in dist && dist[s] == Fin(0)
    requires IsWalk(t, w) && First(w) == s
    ensures Last(w) in dist && AtMost(dist[Last(w)], Fin(Cost(t, w)))
  {
    match w
    case Start(_) =>
    case Step(prefix, to) =>
      ClosedBoundsWalk(t, s, dist, prefix);
      assert to in t[Last(prefix)];
  }

  lemma ClosedIsOptimal(t: Topology, s: RouterId, dist: map<RouterId, Dist>)
    requires RelaxationClosed(t, dist) && s in dist && dist[s] == Fin(0)
    ensures Optimal(t, s, dist)
  {
    forall w | IsWalk(t, w) && First(w) == s
      ensures Last(w) in dist && AtMost(dist[Last(w)], Fin(Cost(t, w)))
    {
      ClosedBoundsWalk(t, s, dist, w);
    }
  }

  /** Two sound and optimal maps from the same source agree on every router
      they both hold: the shortest-path cost does not depend on how it was
      computed. */
  lemma ShortestAgree(t: Topology, s: RouterId, d1: map<RouterId, Dist>, d2: map<RouterId, Dist>)
    requires Sound(t, s, d1) && Optimal(t, s, d1)
    requires Sound(t, s, d2) && Optimal(t, s, d2)
    ensures forall v :: v in d1 && v in d2 ==> d1[v] == d2[v]
  {
    forall v | v in d1 && v in d2
      ensures d1[v] == d2[v]
    {
      if d1[v].Fin? {
        var w :| IsWalk(t, w) && First(w) == s && Last(w) == v && Cost(t, w) == d1[v].n;
        assert AtMost(d2[v], Fin(Cost(t, w)));
      }
      if d2[v].Fin? {
        var w :| IsWalk(t, w) && First(w) == s && Last(w) == v && Cost(t, w) == d2[v].n;
        assert AtMost(d1[v], Fin(Cost(t, w)));
      }
    }
  }
}
