/**
 The report the source prints after solving (algotimo.py:72-135), built here as a value
 instead of printed text: the active hubs, the satellite-hub assignments, one route per
 satellite that serves clients (with its capacity warning and cost), the inter-hub links
 and the total cost. A status other than OPTIMAL yields only "no optimal solution".

 The functions below specify each part; `BuildReport` computes the report with the
 source's loops and is proved to produce exactly `ReportOf`.
 */
module SolutionReport {
  import opened InstanceData
  import opened MipModel
  import opened Solver

  /** A satellite assigned to a hub, with the satellite-hub cost (lines 86-89). */
  datatype SatelliteLink = SatelliteLink(satellite: Node, hub: Node, cost: real)

  /** One delivery of a route: the client, its demand and its client-satellite cost (lines 110-116). */
  datatype Delivery = Delivery(client: Node, demand: int, cost: real)

  /** The route of one satellite (lines 92-119). */
  datatype Route = Route(
    satellite: Node,
    hub: Node,                 // hub_asociado
    clients: seq<Node>,        // clientes_asignados
    deliveries: seq<Delivery>,
    totalDemand: int,          // demanda_total
    overCapacity: bool,        // the capacity warning
    cost: real                 // costo_ruta
  )

  /** A direct link between two hubs (lines 122-126). */
  datatype HubLink = HubLink(from: Node, to: Node, cost: real)

  datatype Report = Report(
    activeHubs: seq<Node>,
    satelliteLinks: seq<SatelliteLink>,
    routes: seq<Route>,
    hubLinks: seq<HubLink>,    // empty: "no direct links between hubs"
    totalCost: real            // solver.Objective().Value()
  )

  /**
   What a run prints: "no optimal solution" (line 135), the KeyError of line 97 for an
   assigned client without a demand, or the full report.
   */
  datatype Outcome = NoOptimalSolution | MissingDemand | Solution(report: Report)

  /** `[h for h in hubs if Y[h] = 1]` (line 79). */
  function ActiveHubs(hubs: seq<Node>, a: Assignment): (r: seq<Node>)
    ensures forall h :: h in r <==> h in hubs && On(a, Y(h))
    ensures Distinct(hubs) ==> Distinct(r)
  {
    if hubs == [] then []
    else
      var rest := ActiveHubs(hubs[1..], a);
      assert Distinct(hubs) ==> hubs[0] !in hubs[1..];
      if On(a, Y(hubs[0])) then [hubs[0]] + rest else rest
  }

  /** `x` occurs in `xs` at an earlier position than `y`. */
  ghost predicate Before<T>(xs: seq<T>, x: T, y: T) {
    exists k, l :: 0 <= k < l < |xs| && xs[k] == x && xs[l] == y
  }

  lemma BeforeCons<T>(xs: seq<T>, x: T, y: T)
    requires xs != []
    ensures Before(xs[1..], x, y) ==> Before(xs, x, y)
    ensures y in xs[1..] ==> Before(xs, xs[0], y)
  {
    if Before(xs[1..], x, y) {
      var k, l :| 0 <= k < l < |xs[1..]| && xs[1..][k] == x && xs[1..][l] == y;
      assert xs[k + 1] == x && xs[l + 1] == y;
    }
    if y in xs[1..] {
      var l :| 0 <= l < |xs[1..]| && xs[1..][l] == y;
      assert xs[l + 1] == y;
    }
  }

  lemma BeforeSnoc<T>(xs: seq<T>, x: T, y: T)
    requires xs != []
    ensures Before(xs[..|xs| - 1], x, y) ==> Before(xs, x, y)
    ensures x in xs[..|xs| - 1] ==> Before(xs, x, xs[|xs| - 1])
  {
    var pre := xs[..|xs| - 1];
    if Before(pre, x, y) {
      var k, l :| 0 <= k < l < |pre| && pre[k] == x && pre[l] == y;
      assert xs[k] == x && xs[l] == y;
    }
    if x in pre {
      var k :| 0 <= k < |pre| && pre[k] == x;
      assert xs[k] == x;
    }
  }

  /** The active hubs are listed in the order of `hubs` (line 79). */
  lemma {:induction false} ActiveHubsInOrder(hubs: seq<Node>, a: Assignment)
    ensures forall i, j :: 0 <= i < j < |ActiveHubs(hubs, a)| ==>
      Before(hubs, ActiveHubs(hubs, a)[i], ActiveHubs(hubs, a)[j])
  {
    if hubs != [] {
      var tail := hubs[1..];
      var rest := ActiveHubs(tail, a);
      var r := ActiveHubs(hubs, a);
      ActiveHubsInOrder(tail, a);
      forall i, j | 0 <= i < j < |r| ensures Before(hubs, r[i], r[j]) {
        if On(a, Y(hubs[0])) {
          assert r == [hubs[0]] + rest;
          if i == 0 {
            assert r[j] == rest[j - 1] && rest[j - 1] in rest;
            BeforeCons(hubs, r[i], r[j]);
          } else {
            assert Before(tail, rest[i - 1], rest[j - 1]);
            BeforeCons(hubs, r[i], r[j]);
          }
        } else {
          assert Before(tail, rest[i], rest[j]);
          BeforeCons(hubs, r[i], r[j]);
        }
      }
    }
  }

  /** The satellite-hub pairs with `Z` = 1 in table order, with their cost (lines 84-89). */
  function SatelliteLinks(order: seq<Pair>, cost: map<Pair, real>, a: Assignment): (r: seq<SatelliteLink>)
    requires forall p :: p in order ==> p in cost
    ensures forall l :: l in r <==>
      (l.satellite, l.hub) in order && On(a, Z(l.satellite, l.hub)) && l.cost == cost[(l.satellite, l.hub)]
    ensures Distinct(order) ==> Distinct(r)
  {
    if order == [] then []
    else
      var p := order[|order| - 1];
      var rest := SatelliteLinks(order[..|order| - 1], cost, a);
      assert forall q :: q in order <==> q in order[..|order| - 1] || q == p;
      assert Distinct(order) ==> p !in order[..|order| - 1];
      if On(a, Z(p.0, p.1)) then rest + [SatelliteLink(p.0, p.1, cost[p])] else rest
  }

  /** The satellite-hub lines follow the key order of `Z_sh` (lines 84-89). */
  lemma {:induction false} SatelliteLinksInOrder(order: seq<Pair>, cost: map<Pair, real>, a: Assignment)
    requires forall p :: p in order ==> p in cost
    ensures forall i, j :: 0 <= i < j < |SatelliteLinks(order, cost, a)| ==>
      Before(order, (SatelliteLinks(order, cost, a)[i].satellite, SatelliteLinks(order, cost, a)[i].hub),
                    (SatelliteLinks(order, cost, a)[j].satellite, SatelliteLinks(order, cost, a)[j].hub))
  {
    if order != [] {
      var n := |order| - 1;
      var pre := order[..n];
      var rest := SatelliteLinks(pre, cost, a);
      var r := SatelliteLinks(order, cost, a);
      SatelliteLinksInOrder(pre, cost, a);
      forall i, j | 0 <= i < j < |r|
        ensures Before(order, (r[i].satellite, r[i].hub), (r[j].satellite, r[j].hub))
      {
        assert r[i] == rest[i] && rest[i] in rest;
        if j == |rest| {
          assert (r[j].satellite, r[j].hub) == order[n];
          BeforeSnoc(order, (r[i].satellite, r[i].hub), (r[j].satellite, r[j].hub));
        } else {
          assert r[j] == rest[j];
          assert Before(pre, (rest[i].satellite, rest[i].hub), (rest[j].satellite, rest[j].hub));
          BeforeSnoc(order, (r[i].satellite, r[i].hub), (r[j].satellite, r[j].hub));
        }
      }
    }
  }

  /**
   The dictionary `asignaciones_sh` after the loop of lines 84-86: for each pair with
   `Z` = 1, in table order, the satellite is mapped to the hub, overwriting any earlier
   entry of the same satellite.
   */
  function HubAssignment(order: seq<Pair>, a: Assignment): map<Node, Node> {
    if order == [] then map[]
    else
      var p := order[|order| - 1];
      var m := HubAssignment(order[..|order| - 1], a);
      if On(a, Z(p.0, p.1)) then m[p.0 := p.1] else m
  }

  /** Entry `i` of the table routes `s` to its hub with `Z` = 1, and no later entry of `s` does. */
  ghost predicate LastRouted(order: seq<Pair>, a: Assignment, s: Node, i: int) {
    && 0 <= i < |order|
    && order[i].0 == s
    && On(a, Z(s, order[i].1))
    && forall j :: i < j < |order| && order[j].0 == s ==> !On(a, Z(s, order[j].1))
  }

  /** Dropping the last entry of the table keeps `LastRouted` when that entry does not route `s`. */
  lemma LastRoutedPrefix(order: seq<Pair>, a: Assignment, s: Node, i: int)
    requires order != []
    requires !(order[|order| - 1].0 == s && On(a, Z(s, order[|order| - 1].1)))
    ensures LastRouted(order, a, s, i) <==> LastRouted(order[..|order| - 1], a, s, i)
  {
    var pre := order[..|order| - 1];
    if LastRouted(pre, a, s, i) {
      forall j | i < j < |order| && order[j].0 == s ensures !On(a, Z(s, order[j].1)) {
        if j < |pre| {
          assert pre[j] == order[j];
        }
      }
    }
  }

  /**
   Later entries overwrite earlier ones: a satellite has an entry exactly when some pair
   of it has `Z` = 1, and its hub is the hub of the last such pair in table order.
   */
  lemma {:induction false} HubAssignmentLastWins(order: seq<Pair>, a: Assignment, s: Node)
    ensures s in HubAssignment(order, a) <==>
      exists i :: 0 <= i < |order| && order[i].0 == s && On(a, Z(s, order[i].1))
    ensures forall i :: LastRouted(order, a, s, i) ==>
      s in HubAssignment(order, a) && HubAssignment(order, a)[s] == order[i].1
    ensures s in HubAssignment(order, a) ==> exists i :: LastRouted(order, a, s, i)
  {
    if order != [] {
      var n := |order| - 1;
      var pre := order[..n];
      var p := order[n];
      HubAssignmentLastWins(pre, a, s);
      var m := HubAssignment(order, a);
      if p.0 == s && On(a, Z(s, p.1)) {
        assert m == HubAssignment(pre, a)[s := p.1];
        assert LastRouted(order, a, s, n);
        forall i | LastRouted(order, a, s, i) ensures m[s] == order[i].1 {
          assert i == n;
        }
      } else {
        assert (s in m) == (s in HubAssignment(pre, a));
        assert s in m ==> m[s] == HubAssignment(pre, a)[s];
        forall i | LastRouted(order, a, s, i) ensures s in m && m[s] == order[i].1 {
          LastRoutedPrefix(order, a, s, i);
          assert pre[i] == order[i];
        }
        if s in m {
          var i :| LastRouted(pre, a, s, i);
          LastRoutedPrefix(order, a, s, i);
        }
        if exists i :: 0 <= i < |order| && order[i].0 == s && On(a, Z(s, order[i].1)) {
          var i :| 0 <= i < |order| && order[i].0 == s && On(a, Z(s, order[i].1));
          assert i < n && pre[i] == order[i];
        }
        if s in HubAssignment(pre, a) {
          var i :| 0 <= i < |pre| && pre[i].0 == s && On(a, Z(s, pre[i].1));
          assert order[i] == pre[i];
        }
      }
    }
  }

  /** A satellite with some pair at `Z` = 1 gets an entry, whose pair is in the table with `Z` = 1. */
  lemma RoutedSatelliteHasHub(order: seq<Pair>, a: Assignment, s: Node, h: Node)
    requires (s, h) in order && On(a, Z(s, h))
    ensures s in HubAssignment(order, a)
    ensures (s, HubAssignment(order, a)[s]) in order && On(a, Z(s, HubAssignment(order, a)[s]))
  {
    var k :| 0 <= k < |order| && order[k] == (s, h);
    HubAssignmentLastWins(order, a, s);
    var i :| LastRouted(order, a, s, i);
    assert order[i] == (s, HubAssignment(order, a)[s]);
  }

  /**
   In a feasible assignment the lookup `asignaciones_sh[s]` of line 98 never fails: every
   listed satellite has an entry, its hub is an allowed hub with `Z` = 1, and that hub is
   open.
   */
  lemma FeasibleHubLookup(inst: Instance, a: Assignment)
    requires WellFormed(inst) && Feasible(inst, a)
    ensures forall s :: s in inst.satellites ==>
      && s in HubAssignment(inst.satHub.order, a)
      && RoutedTo(inst, a, s, HubAssignment(inst.satHub.order, a)[s])
      && On(a, Y(HubAssignment(inst.satHub.order, a)[s]))
  {
    var order := inst.satHub.order;
    forall s | s in inst.satellites
      ensures s in HubAssignment(order, a)
      ensures RoutedTo(inst, a, s, HubAssignment(order, a)[s])
      ensures On(a, Y(HubAssignment(order, a)[s]))
    {
      FeasibleSatelliteRouted(inst, a, s);
      var h :| RoutedTo(inst, a, s, h);
      assert (s, h) in order;
      RoutedSatelliteHasHub(order, a, s, h);
      var hub := HubAssignment(order, a)[s];
      assert (s, hub) in inst.satHub.cost;
      assert Bit(a, Z(s, hub)) <= Bit(a, Y(hub));
    }
  }

  /** `[c for (c, s2) in X_cs if s2 == s and X_cs[c, s2] = 1]` (line 93). */
  function AssignedClients(order: seq<Pair>, s: Node, a: Assignment): (r: seq<Node>)
    ensures forall c :: c in r <==> (c, s) in order && On(a, X(c, s))
    ensures Distinct(order) ==> Distinct(r)
  {
    if order == [] then []
    else
      var p := order[0];
      var rest := AssignedClients(order[1..], s, a);
      assert Distinct(order) ==> p !in order[1..];
      if p.1 == s && On(a, X(p.0, p.1)) then [p.0] + rest else rest
  }

  /** The assigned clients are listed in the key order of the client-satellite table (line 93). */
  lemma {:induction false} AssignedClientsInOrder(order: seq<Pair>, s: Node, a: Assignment)
    ensures forall i, j :: 0 <= i < j < |AssignedClients(order, s, a)| ==>
      Before(order, (AssignedClients(order, s, a)[i], s), (AssignedClients(order, s, a)[j], s))
  {
    if order != [] {
      var tail := order[1..];
      var rest := AssignedClients(tail, s, a);
      var r := AssignedClients(order, s, a);
      AssignedClientsInOrder(tail, s, a);
      forall i, j | 0 <= i < j < |r| ensures Before(order, (r[i], s), (r[j], s)) {
        if order[0].1 == s && On(a, X(order[0].0, order[0].1)) {
          assert r == [order[0].0] + rest;
          if i == 0 {
            assert r[j] == rest[j - 1] && rest[j - 1] in rest;
            assert (r[j], s) in tail && order[0] == (r[i], s);
            BeforeCons(order, (r[i], s), (r[j], s));
          } else {
            assert Before(tail, (rest[i - 1], s), (rest[j - 1], s));
            BeforeCons(order, (r[i], s), (r[j], s));
          }
        } else {
          assert Before(tail, (rest[i], s), (rest[j], s));
          BeforeCons(order, (r[i], s), (r[j], s));
        }
      }
    }
  }

  /** `sum(demanda[c] for c in clientes_asignados)` (line 97). */
  function TotalDemand(clients: seq<Node>, demand: map<Node, int>): int
    requires forall c :: c in clients ==> c in demand
  {
    if clients == [] then 0
    else TotalDemand(clients[..|clients| - 1], demand) + demand[clients[|clients| - 1]]
  }

  /** `sum(costos['cliente_satelite'][(c, s)] for c in clientes_asignados)` (line 118). */
  function RouteCost(clients: seq<Node>, s: Node, cost: map<Pair, real>): real
    requires forall c :: c in clients ==> (c, s) in cost
  {
    if clients == [] then 0.0
    else RouteCost(clients[..|clients| - 1], s, cost) + cost[(clients[|clients| - 1], s)]
  }

  /** The delivery lines of a route, one per assigned client in order (lines 110-116). */
  function Deliveries(clients: seq<Node>, s: Node, demand: map<Node, int>, cost: map<Pair, real>): (r: seq<Delivery>)
    requires forall c :: c in clients ==> c in demand && (c, s) in cost
    ensures |r| == |clients|
    ensures forall i :: 0 <= i < |r| ==>
      r[i] == Delivery(clients[i], demand[clients[i]], cost[(clients[i], s)])
  {
    if clients == [] then []
    else
      var c := clients[|clients| - 1];
      Deliveries(clients[..|clients| - 1], s, demand, cost) + [Delivery(c, demand[c], cost[(c, s)])]
  }

  /** The route of satellite `s` through `hub`, serving `clients` (lines 97-119). */
  function RouteFor(inst: Instance, s: Node, hub: Node, clients: seq<Node>): Route
    requires WellFormed(inst)
    requires forall c :: c in clients ==> c in inst.demand && (c, s) in inst.clientSat.cost
  {
    var total := TotalDemand(clients, inst.demand);
    Route(s, hub, clients, Deliveries(clients, s, inst.demand, inst.clientSat.cost),
          total, total > inst.capacity, RouteCost(clients, s, inst.clientSat.cost))
  }

  /**
   Every client with `X` = 1 towards a satellite of `sats` has a demand, so that
   `demanda[c]` (line 97) succeeds for every client of every route.
   */
  predicate DemandsKnown(inst: Instance, a: Assignment, sats: seq<Node>) {
    forall p :: p in inst.clientSat.order && p.1 in sats && On(a, X(p.0, p.1)) ==> p.0 in inst.demand
  }

  /**
   The run stops with the KeyError of line 97 exactly when a satellite of `sats` has an
   assigned client without a demand.
   */
  lemma MissingDemandMeaning(inst: Instance, a: Assignment, sats: seq<Node>)
    ensures !DemandsKnown(inst, a, sats) <==>
      exists s, c :: s in sats && c in AssignedClients(inst.clientSat.order, s, a) && c !in inst.demand
  {
    if !DemandsKnown(inst, a, sats) {
      var p :| p in inst.clientSat.order && p.1 in sats && On(a, X(p.0, p.1)) && p.0 !in inst.demand;
      assert p.0 in AssignedClients(inst.clientSat.order, p.1, a);
    }
  }

  /**
   The lookups of lines 97-98 succeed for every satellite of `sats` that serves clients:
   its clients have demands and the satellite has an entry in `hubOf`.
   */
  ghost predicate RouteLookups(inst: Instance, a: Assignment, hubOf: map<Node, Node>, sats: seq<Node>) {
    && DemandsKnown(inst, a, sats)
    && forall s :: s in sats && AssignedClients(inst.clientSat.order, s, a) != [] ==> s in hubOf
  }

  /** The routes of the loop of lines 92-119: one per satellite of `sats` that serves clients. */
  function Routes(inst: Instance, a: Assignment, hubOf: map<Node, Node>, sats: seq<Node>): seq<Route>
    requires WellFormed(inst) && RouteLookups(inst, a, hubOf, sats)
  {
    if sats == [] then []
    else
      var s := sats[|sats| - 1];
      var clients := AssignedClients(inst.clientSat.order, s, a);
      assert forall c :: c in clients ==> c in inst.demand && (c, s) in inst.clientSat.cost;
      Routes(inst, a, hubOf, sats[..|sats| - 1])
      + (if clients == [] then [] else [RouteFor(inst, s, hubOf[s], clients)])
  }

  /**
   Step `k` of the loop of lines 92-119: the route of satellite `sats[k]`, if it serves
   clients, follows the routes of the satellites before it.
   */
  lemma RoutesStep(inst: Instance, a: Assignment, hubOf: map<Node, Node>, sats: seq<Node>, k: nat)
    requires WellFormed(inst) && RouteLookups(inst, a, hubOf, sats) && k < |sats|
    ensures RouteLookups(inst, a, hubOf, sats[..k]) && RouteLookups(inst, a, hubOf, sats[..k + 1])
    ensures AssignedClients(inst.clientSat.order, sats[k], a) == [] ==>
      Routes(inst, a, hubOf, sats[..k + 1]) == Routes(inst, a, hubOf, sats[..k])
    ensures AssignedClients(inst.clientSat.order, sats[k], a) != [] ==>
      && sats[k] in hubOf
      && (forall c :: c in AssignedClients(inst.clientSat.order, sats[k], a) ==>
            c in inst.demand && (c, sats[k]) in inst.clientSat.cost)
      && Routes(inst, a, hubOf, sats[..k + 1])
         == Routes(inst, a, hubOf, sats[..k]) + [RouteFor(inst, sats[k], hubOf[sats[k]], AssignedClients(inst.clientSat.order, sats[k], a))]
  {
    assert sats[..k + 1][..k] == sats[..k];
  }

  /** What a route of the report says about the assignment. */
  ghost predicate RouteMeaning(inst: Instance, a: Assignment, hubOf: map<Node, Node>, r: Route)
    requires WellFormed(inst)
  {
    && r.satellite in hubOf && r.hub == hubOf[r.satellite]
    && r.clients != []
    && (forall c :: c in r.clients <==> (c, r.satellite) in inst.clientSat.cost && On(a, X(c, r.satellite)))
    && (forall c :: c in r.clients ==> c in inst.demand && (c, r.satellite) in inst.clientSat.cost)
    && r.totalDemand == TotalDemand(r.clients, inst.demand)
    && (r.overCapacity <==> r.totalDemand > inst.capacity)
    && r.cost == RouteCost(r.clients, r.satellite, inst.clientSat.cost)
    && |r.deliveries| == |r.clients|
  }

  /**
   The routes are one per satellite of `sats` that serves clients (in the order of `sats`,
   by `RoutesInOrder`): each lists exactly the clients with `X` = 1 for its satellite, goes through that
   satellite's entry of `hubOf`, sums their demands and costs, and carries the warning
   exactly when the demand exceeds the vehicle capacity.
   */
  lemma {:induction false} RoutesMeaning(inst: Instance, a: Assignment, hubOf: map<Node, Node>, sats: seq<Node>)
    requires WellFormed(inst) && RouteLookups(inst, a, hubOf, sats)
    ensures forall r :: r in Routes(inst, a, hubOf, sats) ==> r.satellite in sats && RouteMeaning(inst, a, hubOf, r)
    ensures forall s :: s in sats && AssignedClients(inst.clientSat.order, s, a) != [] ==>
      exists r :: r in Routes(inst, a, hubOf, sats) && r.satellite == s
    ensures Distinct(sats) ==> forall i, j :: 0 <= i < j < |Routes(inst, a, hubOf, sats)| ==>
      Routes(inst, a, hubOf, sats)[i].satellite != Routes(inst, a, hubOf, sats)[j].satellite
  {
    if sats != [] {
      var n := |sats| - 1;
      var pre := sats[..n];
      var s := sats[n];
      assert forall t :: t in sats <==> t in pre || t == s;
      RoutesMeaning(inst, a, hubOf, pre);
      var clients := AssignedClients(inst.clientSat.order, s, a);
      var routes := Routes(inst, a, hubOf, sats);
      var preRoutes := Routes(inst, a, hubOf, pre);
      if clients != [] {
        var r := RouteFor(inst, s, hubOf[s], clients);
        assert routes == preRoutes + [r];
        forall c | c in clients ensures c in inst.demand && (c, s) in inst.clientSat.cost {
          assert (c, s) in inst.clientSat.order;
        }
        assert RouteMeaning(inst, a, hubOf, r);
        if Distinct(sats) {
          assert Distinct(pre);
          forall i, j | 0 <= i < j < |routes| ensures routes[i].satellite != routes[j].satellite {
            if j == |preRoutes| {
              assert routes[i] in preRoutes;
              assert s !in pre;
            } else {
              assert routes[i] == preRoutes[i] && routes[j] == preRoutes[j];
            }
          }
        }
        assert routes[|preRoutes|] == r;
      } else {
        assert routes == preRoutes;
        if Distinct(sats) {
          assert Distinct(pre);
        }
      }
    }
  }

  /** The routes follow the order of `sats`, the order of `satelites` in the loop of line 92. */
  lemma {:induction false} RoutesInOrder(inst: Instance, a: Assignment, hubOf: map<Node, Node>, sats: seq<Node>)
    requires WellFormed(inst) && RouteLookups(inst, a, hubOf, sats)
    ensures forall i, j :: 0 <= i < j < |Routes(inst, a, hubOf, sats)| ==>
      Before(sats, Routes(inst, a, hubOf, sats)[i].satellite, Routes(inst, a, hubOf, sats)[j].satellite)
  {
    if sats != [] {
      var n := |sats| - 1;
      var pre := sats[..n];
      assert forall t :: t in pre ==> t in sats;
      RoutesInOrder(inst, a, hubOf, pre);
      RoutesMeaning(inst, a, hubOf, pre);
      var routes := Routes(inst, a, hubOf, sats);
      var preRoutes := Routes(inst, a, hubOf, pre);
      var clients := AssignedClients(inst.clientSat.order, sats[n], a);
      assert clients == [] ==> routes == preRoutes;
      assert clients != [] ==> routes == preRoutes + [RouteFor(inst, sats[n], hubOf[sats[n]], clients)];
      forall i, j | 0 <= i < j < |routes| ensures Before(sats, routes[i].satellite, routes[j].satellite) {
        assert routes[i] == preRoutes[i] && preRoutes[i] in preRoutes;
        if j == |preRoutes| {
          assert routes[j].satellite == sats[n];
          BeforeSnoc(sats, routes[i].satellite, routes[j].satellite);
        } else {
          assert routes[j] == preRoutes[j];
          assert Before(pre, preRoutes[i].satellite, preRoutes[j].satellite);
          BeforeSnoc(sats, routes[i].satellite, routes[j].satellite);
        }
      }
    }
  }

  /** `[(h1, h2) for (h1, h2) in X_hh if X_hh[h1, h2] = 1]`, with their cost (lines 122-126). */
  function HubLinks(order: seq<Pair>, cost: map<Pair, real>, a: Assignment): (r: seq<HubLink>)
    requires forall p :: p in order ==> p in cost
    ensures forall l :: l in r <==>
      (l.from, l.to) in order && On(a, Xhh(l.from, l.to)) && l.cost == cost[(l.from, l.to)]
    ensures Distinct(order) ==> Distinct(r)
  {
    if order == [] then []
    else
      var p := order[0];
      var rest := HubLinks(order[1..], cost, a);
      assert forall q :: q in order <==> q == p || q in order[1..];
      assert Distinct(order) ==> p !in order[1..];
      if On(a, Xhh(p.0, p.1)) then [HubLink(p.0, p.1, cost[p])] + rest else rest
  }

  /** The inter-hub links follow the key order of `X_hh` (lines 122-126). */
  lemma {:induction false} HubLinksInOrder(order: seq<Pair>, cost: map<Pair, real>, a: Assignment)
    requires forall p :: p in order ==> p in cost
    ensures forall i, j :: 0 <= i < j < |HubLinks(order, cost, a)| ==>
      Before(order, (HubLinks(order, cost, a)[i].from, HubLinks(order, cost, a)[i].to),
                    (HubLinks(order, cost, a)[j].from, HubLinks(order, cost, a)[j].to))
  {
    if order != [] {
      var tail := order[1..];
      var rest := HubLinks(tail, cost, a);
      var r := HubLinks(order, cost, a);
      HubLinksInOrder(tail, cost, a);
      forall i, j | 0 <= i < j < |r| ensures Before(order, (r[i].from, r[i].to), (r[j].from, r[j].to)) {
        if On(a, Xhh(order[0].0, order[0].1)) {
          assert r[j] == rest[j - 1] && rest[j - 1] in rest;
          if i == 0 {
            assert (r[i].from, r[i].to) == order[0];
          } else {
            assert r[i] == rest[i - 1];
            assert Before(tail, (rest[i - 1].from, rest[i - 1].to), (rest[j - 1].from, rest[j - 1].to));
          }
        } else {
          assert Before(tail, (rest[i].from, rest[i].to), (rest[j].from, rest[j].to));
        }
        BeforeCons(order, (r[i].from, r[i].to), (r[j].from, r[j].to));
      }
    }
  }

  /** The report of an OPTIMAL result (lines 78-131). */
  function ReportOf(inst: Instance, res: SolverResult): Report
    requires WellFormed(inst) && Feasible(inst, res.values) && DemandsKnown(inst, res.values, inst.satellites)
  {
    var a := res.values;
    FeasibleHubLookup(inst, a);
    Report(
      ActiveHubs(inst.hubs, a),
      SatelliteLinks(inst.satHub.order, inst.satHub.cost, a),
      Routes(inst, a, HubAssignment(inst.satHub.order, a), inst.satellites),
      HubLinks(inst.hubHub.order, inst.hubHub.cost, a),
      res.objectiveValue)
  }

  /** A client served by exactly one satellite of `sats` appears in exactly one route. */
  lemma ClientInOneRoute(inst: Instance, a: Assignment, hubOf: map<Node, Node>, sats: seq<Node>, c: Node, s: Node)
    requires WellFormed(inst) && RouteLookups(inst, a, hubOf, sats) && Distinct(sats)
    requires s in sats && (c, s) in inst.clientSat.cost && On(a, X(c, s))
    requires forall t :: t in sats && (c, t) in inst.clientSat.cost && On(a, X(c, t)) ==> t == s
    ensures var routes := Routes(inst, a, hubOf, sats);
      && (exists i :: 0 <= i < |routes| && c in routes[i].clients)
      && (forall i, j :: 0 <= i < |routes| && 0 <= j < |routes| && c in routes[i].clients && c in routes[j].clients ==> i == j)
  {
    var routes := Routes(inst, a, hubOf, sats);
    RoutesMeaning(inst, a, hubOf, sats);
    ClientRouteExists(inst, a, hubOf, sats, c, s);
    forall i | 0 <= i < |routes| && c in routes[i].clients ensures routes[i].satellite == s {
      assert routes[i] in routes;
      RouteClient(inst, a, hubOf, routes[i], c);
    }
  }

  /** The route of the satellite serving `c` lists `c`. */
  lemma ClientRouteExists(inst: Instance, a: Assignment, hubOf: map<Node, Node>, sats: seq<Node>, c: Node, s: Node)
    requires WellFormed(inst) && RouteLookups(inst, a, hubOf, sats)
    requires s in sats && (c, s) in inst.clientSat.cost && On(a, X(c, s))
    ensures exists i ::
      0 <= i < |Routes(inst, a, hubOf, sats)| && c in Routes(inst, a, hubOf, sats)[i].clients
      && Routes(inst, a, hubOf, sats)[i].satellite == s
  {
    var routes := Routes(inst, a, hubOf, sats);
    RoutesMeaning(inst, a, hubOf, sats);
    assert (c, s) in inst.clientSat.order;
    assert c in AssignedClients(inst.clientSat.order, s, a);
    var r :| r in routes && r.satellite == s;
    var k :| 0 <= k < |routes| && routes[k] == r;
    RouteClient(inst, a, hubOf, r, c);
    assert c in routes[k].clients && routes[k].satellite == s;
  }

  /** The clients of a route are the clients with `X` = 1 for its satellite. */
  lemma RouteClient(inst: Instance, a: Assignment, hubOf: map<Node, Node>, r: Route, c: Node)
    requires WellFormed(inst) && RouteMeaning(inst, a, hubOf, r)
    ensures c in r.clients <==> (c, r.satellite) in inst.clientSat.cost && On(a, X(c, r.satellite))
  {
  }

  /**
   Each client of the instance appears in exactly one route of the report of a feasible
   assignment, when the satellite list names each satellite once.
   */
  lemma EachClientDeliveredOnce(inst: Instance, res: SolverResult, c: Node)
    requires WellFormed(inst) && Feasible(inst, res.values) && DemandsKnown(inst, res.values, inst.satellites)
    requires Distinct(inst.satellites) && c in inst.clients
    ensures var routes := ReportOf(inst, res).routes;
      && (exists i :: 0 <= i < |routes| && c in routes[i].clients)
      && (forall i, j :: 0 <= i < |routes| && 0 <= j < |routes| && c in routes[i].clients && c in routes[j].clients ==> i == j)
  {
    var a := res.values;
    FeasibleHubLookup(inst, a);
    var hubOf := HubAssignment(inst.satHub.order, a);
    assert RouteLookups(inst, a, hubOf, inst.satellites);
    assert ReportOf(inst, res).routes == Routes(inst, a, hubOf, inst.satellites);
    FeasibleClientServedOnce(inst, a, c);
    var s :| ServedBy(inst, a, c, s) && forall t :: ServedBy(inst, a, c, t) ==> t == s;
    assert forall t :: t in inst.satellites && (c, t) in inst.clientSat.cost && On(a, X(c, t)) ==> t == s by {
      forall t | t in inst.satellites && (c, t) in inst.clientSat.cost && On(a, X(c, t)) ensures t == s {
        assert ServedBy(inst, a, c, t);
      }
    }
    ClientInOneRoute(inst, a, hubOf, inst.satellites, c, s);
  }

  /**
   The report of a feasible assignment is consistent with itself: the active hubs are
   exactly the open hubs, and every route goes through an active hub along a satellite
   assignment the report lists.
   */
  lemma ReportConsistent(inst: Instance, res: SolverResult)
    requires WellFormed(inst) && Feasible(inst, res.values) && DemandsKnown(inst, res.values, inst.satellites)
    ensures forall h :: h in ReportOf(inst, res).activeHubs <==> h in inst.hubs && On(res.values, Y(h))
    ensures forall r :: r in ReportOf(inst, res).routes ==>
      && r.hub in ReportOf(inst, res).activeHubs
      && (r.satellite, r.hub) in inst.satHub.cost
      && SatelliteLink(r.satellite, r.hub, inst.satHub.cost[(r.satellite, r.hub)]) in ReportOf(inst, res).satelliteLinks
  {
    var a := res.values;
    FeasibleHubLookup(inst, a);
    var hubOf := HubAssignment(inst.satHub.order, a);
    var rep := ReportOf(inst, res);
    RoutesMeaning(inst, a, hubOf, inst.satellites);
    forall r | r in rep.routes
      ensures r.hub in rep.activeHubs && (r.satellite, r.hub) in inst.satHub.cost
      ensures SatelliteLink(r.satellite, r.hub, inst.satHub.cost[(r.satellite, r.hub)]) in rep.satelliteLinks
    {
      assert RouteMeaning(inst, a, hubOf, r);
      assert RoutedTo(inst, a, r.satellite, r.hub);
      assert (r.satellite, r.hub) in inst.satHub.order;
    }
  }

  /**
   The report lists no inter-hub link, and so takes the "no direct links" branch of
   lines 127-128, exactly when every link variable is 0.
   */
  lemma NoHubLinksMeaning(inst: Instance, res: SolverResult)
    requires WellFormed(inst) && Feasible(inst, res.values) && DemandsKnown(inst, res.values, inst.satellites)
    ensures ReportOf(inst, res).hubLinks == [] <==>
      forall p :: p in inst.hubHub.cost ==> !On(res.values, Xhh(p.0, p.1))
  {
    var links := ReportOf(inst, res).hubLinks;
    if links != [] {
      assert links[0] in links;
      assert (links[0].from, links[0].to) in inst.hubHub.cost;
    }
    if exists p :: p in inst.hubHub.cost && On(res.values, Xhh(p.0, p.1)) {
      var p :| p in inst.hubHub.cost && On(res.values, Xhh(p.0, p.1));
      assert p in inst.hubHub.order;
      assert HubLink(p.0, p.1, inst.hubHub.cost[p]) in links;
    }
  }

  /**
   For a result the solver reports OPTIMAL, with positive hub-hub costs as in the source's
   table, the report has no inter-hub link and its total is the objective of its values.
   */
  lemma OptimalReportHasNoHubLinks(inst: Instance, res: SolverResult)
    requires WellFormed(inst) && SolverContract(inst, res) && res.status == Optimal
    requires DemandsKnown(inst, res.values, inst.satellites)
    requires forall p :: p in inst.hubHub.cost ==> inst.hubHub.cost[p] > 0.0
    ensures Feasible(inst, res.values)
    ensures ReportOf(inst, res).hubLinks == []
    ensures ReportOf(inst, res).totalCost == Objective(inst, res.values)
  {
    OptimumHasNoLinks(inst, res.values);
    NoHubLinksMeaning(inst, res);
  }

  /** The loop of lines 83-89: fills `asignaciones_sh` and lists the assignments in table order. */
  method AssignSatellites(order: seq<Pair>, cost: map<Pair, real>, a: Assignment)
    returns (hubOf: map<Node, Node>, links: seq<SatelliteLink>)
    requires forall p :: p in order ==> p in cost
    ensures hubOf == HubAssignment(order, a)
    ensures links == SatelliteLinks(order, cost, a)
  {
    hubOf, links := map[], [];
    var i := 0;
    while i < |order|
      invariant 0 <= i <= |order|
      invariant hubOf == HubAssignment(order[..i], a)
      invariant links == SatelliteLinks(order[..i], cost, a)
    {
      var p := order[i];
      assert order[..i + 1][..i] == order[..i];
      if On(a, Z(p.0, p.1)) {
        hubOf := hubOf[p.0 := p.1];
        links := links + [SatelliteLink(p.0, p.1, cost[p])];
      }
      i := i + 1;
    }
    assert order[..i] == order;
  }

  /**
   The body of the loop of lines 97-119 for one satellite with clients: the total demand,
   the capacity warning, the delivery lines and the route cost.
   */
  method BuildRoute(inst: Instance, s: Node, hub: Node, clients: seq<Node>) returns (route: Route)
    requires WellFormed(inst)
    requires forall c :: c in clients ==> c in inst.demand && (c, s) in inst.clientSat.cost
    ensures route == RouteFor(inst, s, hub, clients)
  {
    var deliveries: seq<Delivery> := [];
    var demandTotal := 0;
    var cost := 0.0;
    var j := 0;
    while j < |clients|
      invariant 0 <= j <= |clients|
      invariant deliveries == Deliveries(clients[..j], s, inst.demand, inst.clientSat.cost)
      invariant demandTotal == TotalDemand(clients[..j], inst.demand)
      invariant cost == RouteCost(clients[..j], s, inst.clientSat.cost)
    {
      var c := clients[j];
      assert clients[..j + 1][..j] == clients[..j];
      deliveries := deliveries + [Delivery(c, inst.demand[c], inst.clientSat.cost[(c, s)])];
      demandTotal := demandTotal + inst.demand[c];
      cost := cost + inst.clientSat.cost[(c, s)];
      j := j + 1;
    }
    assert clients[..j] == clients;
    route := Route(s, hub, clients, deliveries, demandTotal, demandTotal > inst.capacity, cost);
  }

  /** The loop of lines 92-119: one route per satellite with clients, skipping the others. */
  method BuildRoutes(inst: Instance, a: Assignment, hubOf: map<Node, Node>) returns (routes: seq<Route>)
    requires WellFormed(inst) && RouteLookups(inst, a, hubOf, inst.satellites)
    ensures routes == Routes(inst, a, hubOf, inst.satellites)
  {
    var sats := inst.satellites;
    routes := [];
    var k := 0;
    while k < |sats|
      invariant 0 <= k <= |sats|
      invariant RouteLookups(inst, a, hubOf, sats[..k])
      invariant routes == Routes(inst, a, hubOf, sats[..k])
    {
      var s := sats[k];
      RoutesStep(inst, a, hubOf, sats, k);
      var clients := AssignedClients(inst.clientSat.order, s, a);
      if clients != [] {
        var route := BuildRoute(inst, s, hubOf[s], clients);
        routes := routes + [route];
      }
      k := k + 1;
    }
    assert sats[..k] == sats;
  }

  /**
   Builds the report the source prints (lines 73-135). The solver's OPTIMAL status comes
   with a feasible assignment; any other status yields only the "no solution" outcome,
   and an assigned client without a demand ends the run with the KeyError of line 97.
   */
  method BuildReport(inst: Instance, res: SolverResult) returns (out: Outcome)
    requires WellFormed(inst)
    requires res.status == Optimal ==> Feasible(inst, res.values)
    ensures res.status != Optimal <==> out == NoOptimalSolution
    ensures out == MissingDemand <==> res.status == Optimal && !DemandsKnown(inst, res.values, inst.satellites)
    ensures res.status == Optimal && DemandsKnown(inst, res.values, inst.satellites) ==>
      out == Solution(ReportOf(inst, res))
  {
    if res.status != Optimal {
      return NoOptimalSolution;
    }
    var a := res.values;
    if !DemandsKnown(inst, a, inst.satellites) {
      return MissingDemand;
    }
    var activeHubs := ActiveHubs(inst.hubs, a);
    var hubOf, links := AssignSatellites(inst.satHub.order, inst.satHub.cost, a);
    FeasibleHubLookup(inst, a);
    var routes := BuildRoutes(inst, a, hubOf);
    var hubLinks := HubLinks(inst.hubHub.order, inst.hubHub.cost, a);
    out := Solution(Report(activeHubs, links, routes, hubLinks, res.objectiveValue));
  }
}
