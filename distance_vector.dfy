/** The distance-vector router: each router keeps a map from destination to
    best known cost, seeded from its direct links, and merges a neighbour's
    vector into it with the Bellman-Ford relaxation step. The same class is
    declared twice in the repository (both.py and distance_routing.py, with
    identical text); it is modelled once here. */
module DistanceVector {
  import opened Graph

  /** The vector a router starts with: itself at 0, overlaid with every
      direct link (so a router listed as its own neighbour ends at that
      link's cost). */
  function InitialVector(routerId: RouterId, neighbors: Neighbors): (r: map<RouterId, int>)
    ensures r.Keys == {routerId} + neighbors.Keys
    ensures forall n :: n in neighbors ==> r[n] == neighbors[n]
    ensures routerId !in neighbors ==> r[routerId] == 0
  {
    map[routerId := 0] + neighbors
  }

  /** Some destination of `received` is new to `vector`, or reached more
      cheaply through the sender's link. */
  predicate Improves(vector: map<RouterId, int>, received: map<RouterId, int>, linkCost: int) {
    exists node :: node in received && (node !in vector || linkCost + received[node] < vector[node])
  }

  /** `vector` after merging `received` over a link of cost `linkCost`: each
      destination keeps the smaller of its current cost and the candidate
      through the sender. */
  function Relaxed(vector: map<RouterId, int>, received: map<RouterId, int>, linkCost: int)
    : (r: map<RouterId, int>)
    ensures r.Keys == vector.Keys + received.Keys
    ensures forall node :: node in received ==> r[node] <= linkCost + received[node]
    ensures forall node :: node in vector ==> r[node] <= vector[node]
    ensures forall node :: node in r ==>
      (node in vector && r[node] == vector[node]) || (node in received && r[node] == linkCost + received[node])
    ensures forall node :: node in vector && node !in received ==> r[node] == vector[node]
  {
    map node | node in vector.Keys + received.Keys ::
      if node in received && (node !in vector || linkCost + received[node] < vector[node])
      then linkCost + received[node]
      else vector[node]
  }

  /** The merge changes the vector exactly when some entry is added or
      strictly decreased. */
  lemma RelaxedChangesIffImproves(vector: map<RouterId, int>, received: map<RouterId, int>, linkCost: int)
    ensures Relaxed(vector, received, linkCost) != vector <==> Improves(vector, received, linkCost)
  {
    var r := Relaxed(vector, received, linkCost);
    if Improves(vector, received, linkCost) {
      var node :| node in received && (node !in vector || linkCost + received[node] < vector[node]);
      if node in vector {
        assert r[node] < vector[node];
      } else {
        assert node in r.Keys - vector.Keys;
      }
    } else {
      assert r.Keys == vector.Keys;
      assert forall node :: node in r ==> r[node] == vector[node];
    }
  }

  /** Merging the same vector twice changes nothing the second time, and the
      second merge reports no change. */
  lemma RelaxedIdempotent(vector: map<RouterId, int>, received: map<RouterId, int>, linkCost: int)
    ensures Relaxed(Relaxed(vector, received, linkCost), received, linkCost) == Relaxed(vector, received, linkCost)
    ensures !Improves(Relaxed(vector, received, linkCost), received, linkCost)
  {
    var r := Relaxed(vector, received, linkCost);
    assert !Improves(r, received, linkCost);
    RelaxedChangesIffImproves(r, received, linkCost);
  }

  /** Merging `received` in one key at a time, in any order, builds up the
      same map as merging it whole: one more key moves the partial merge on
      by one step, and that step compares against the original entry. */
  lemma RelaxedStep(vector: map<RouterId, int>, received: map<RouterId, int>, linkCost: int,
                    pending: set<RouterId>, node: RouterId)
    requires pending <= received.Keys && node in pending
    ensures var cur := Relaxed(vector, received - pending, linkCost);
            && (node in cur <==> node in vector)
            && (node in cur ==> cur[node] == vector[node])
            && (if node !in vector || linkCost + received[node] < vector[node]
                then cur[node := linkCost + received[node]] else cur)
               == Relaxed(vector, received - (pending - {node}), linkCost)
  {
    var part := received - pending;
    var part' := received - (pending - {node});
    assert part' == part[node := received[node]];
    var cur := Relaxed(vector, part, linkCost);
    var next := Relaxed(vector, part', linkCost);
    var stepped := if node !in vector || linkCost + received[node] < vector[node]
                   then cur[node := linkCost + received[node]] else cur;
    assert stepped.Keys == next.Keys;
    forall k | k in next ensures stepped[k] == next[k] {
      if k != node {
        assert k in part' <==> k in part;
      }
    }
  }

  /** The partial merges report a change exactly when one of the keys merged
      so far improves on the original vector. */
  lemma ImprovesStep(vector: map<RouterId, int>, received: map<RouterId, int>, linkCost: int,
                     pending: set<RouterId>, node: RouterId)
    requires pending <= received.Keys && node in pending
    ensures Improves(vector, received - (pending - {node}), linkCost) <==>
            Improves(vector, received - pending, linkCost)
            || node !in vector || linkCost + received[node] < vector[node]
  {
    var part := received - pending;
    var part' := received - (pending - {node});
    if Improves(vector, part', linkCost) {
      var k :| k in part' && (k !in vector || linkCost + part'[k] < vector[k]);
      assert k != node ==> k in part;
    }
    if node !in vector || linkCost + received[node] < vector[node] {
      assert node in part';
    }
    if Improves(vector, part, linkCost) {
      var k :| k in part && (k !in vector || linkCost + part[k] < vector[k]);
      assert k in part';
    }
  }

  /** One message exchanged between routers: the vector a neighbour sent. */
  datatype Update = Update(received: map<RouterId, int>, sender: RouterId)

  /** The vector after a sequence of updates, applied in order. */
  ghost function AfterUpdates(vector: map<RouterId, int>, neighbors: Neighbors, updates: seq<Update>)
    : map<RouterId, int>
    requires forall i :: 0 <= i < |updates| ==> updates[i].sender in neighbors
    decreases |updates|
  {
    if updates == [] then vector
    else AfterUpdates(Relaxed(vector, updates[0].received, neighbors[updates[0].sender]),
                      neighbors, updates[1..])
  }

  ghost predicate NonNegativeValues(m: map<RouterId, int>) {
    forall k :: k in m ==> m[k] >= 0
  }

  lemma {:induction false} ZeroEntryStays(vector: map<RouterId, int>, id: RouterId,
                                          neighbors: Neighbors, updates: seq<Update>)
    requires id in vector && vector[id] == 0
    requires NonNegativeValues(neighbors)
    requires forall i :: 0 <= i < |updates| ==> updates[i].sender in neighbors
    requires forall i :: 0 <= i < |updates| ==> NonNegativeValues(updates[i].received)
    ensures var r := AfterUpdates(vector, neighbors, updates); id in r && r[id] == 0
    decreases |updates|
  {
    if updates != [] {
      var next := Relaxed(vector, updates[0].received, neighbors[updates[0].sender]);
      assert next[id] == 0;
      ZeroEntryStays(next, id, neighbors, updates[1..]);
    }
  }

  /** With non-negative link costs and non-negative received vectors, a
      router that is not its own neighbour keeps its own entry at 0 across
      any sequence of updates: no candidate `cost + dist` is below 0. */
  lemma SelfEntryStaysZero(routerId: RouterId, neighbors: Neighbors, updates: seq<Update>)
    requires routerId !in neighbors && NonNegativeValues(neighbors)
    requires forall i :: 0 <= i < |updates| ==> updates[i].sender in neighbors
    requires forall i :: 0 <= i < |updates| ==> NonNegativeValues(updates[i].received)
    ensures var r := AfterUpdates(InitialVector(routerId, neighbors), neighbors, updates);
            routerId in r && r[routerId] == 0
  {
    ZeroEntryStays(InitialVector(routerId, neighbors), routerId, neighbors, updates);
  }

  class DistanceVectorRouter {
    const routerId: RouterId
    const neighbors: Neighbors
    var distanceVector: map<RouterId, int>

    constructor (routerId: RouterId, neighbors: Neighbors)
      ensures this.routerId == routerId && this.neighbors == neighbors
      ensures distanceVector == InitialVector(routerId, neighbors)
    {
      this.routerId := routerId;
      this.neighbors := neighbors;
      distanceVector := map[routerId := 0];
      new;
      var pending := neighbors.Keys;
      while pending != {}
        invariant pending <= neighbors.Keys
        invariant distanceVector == map[routerId := 0] + (neighbors - pending)
        decreases pending
      {
        var neighbor :| neighbor in pending;
        distanceVector := distanceVector[neighbor := neighbors[neighbor]];
        pending := pending - {neighbor};
      }
      assert neighbors - {} == neighbors;
    }

    /** Bellman-Ford merge of the vector `sender` sent. The sender's link
        cost is looked up once per received entry, so the sender must be a
        direct neighbour unless the received vector is empty. */
    method UpdateDistanceVector(receivedVector: map<RouterId, int>, sender: RouterId) returns (updated: bool)
      requires receivedVector != map[] ==> sender in neighbors
      modifies this
      ensures receivedVector != map[] ==>
        distanceVector == Relaxed(old(distanceVector), receivedVector, neighbors[sender])
      ensures receivedVector != map[] ==>
        (updated <==> Improves(old(distanceVector), receivedVector, neighbors[sender]))
      ensures updated <==> distanceVector != old(distanceVector)
      ensures receivedVector == map[] ==> distanceVector == old(distanceVector) && !updated
    {
      ghost var linkCost := if sender in neighbors then neighbors[sender] else 0;
      updated := false;
      var pending := receivedVector.Keys;
      while pending != {}
        invariant pending <= receivedVector.Keys
        invariant distanceVector == Relaxed(old(distanceVector), receivedVector - pending, linkCost)
        invariant updated <==> Improves(old(distanceVector), receivedVector - pending, linkCost)
        decreases pending
      {
        var node :| node in pending;
        assert node in receivedVector;
        var dist := receivedVector[node];
        var newDistance := neighbors[sender] + dist;
        RelaxedStep(old(distanceVector), receivedVector, linkCost, pending, node);
        ImprovesStep(old(distanceVector), receivedVector, linkCost, pending, node);
        ghost var after := Relaxed(old(distanceVector), receivedVector - (pending - {node}), linkCost);
        if node !in distanceVector || newDistance < distanceVector[node] {
          distanceVector := distanceVector[node := newDistance];
          updated := true;
        }
        assert distanceVector == after;
        pending := pending - {node};
      }
      assert receivedVector - {} == receivedVector;
      RelaxedChangesIffImproves(old(distanceVector), receivedVector, linkCost);
    }
  }

  /** Builds one router per topology entry, each holding its initial vector.
      Announcing vectors to neighbours only prints, so no vector changes
      afterwards. */
  method DistanceVectorRoutingSimulation(t: Topology) returns (routers: map<RouterId, DistanceVectorRouter>)
    ensures routers.Keys == t.Keys
    ensures forall r :: r in routers ==>
      fresh(routers[r]) && routers[r].routerId == r && routers[r].neighbors == t[r]
      && routers[r].distanceVector == InitialVector(r, t[r])
    ensures forall r1, r2 :: r1 in routers && r2 in routers && r1 != r2 ==> routers[r1] != routers[r2]
  {
    routers := map[];
    var pending := t.Keys;
    while pending != {}
      invariant pending <= t.Keys
      invariant routers.Keys == t.Keys - pending
      invariant forall r :: r in routers ==>
        fresh(routers[r]) && routers[r].routerId == r && routers[r].neighbors == t[r]
        && routers[r].distanceVector == InitialVector(r, t[r])
      invariant forall r1, r2 :: r1 in routers && r2 in routers && r1 != r2 ==> routers[r1] != routers[r2]
      decreases pending
    {
      var routerId :| routerId in pending;
      var router := new DistanceVectorRouter(routerId, t[routerId]);
      routers := routers[routerId := router];
      pending := pending - {routerId};
    }
  }
}
