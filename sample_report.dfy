/**
 The report of the hard-coded instance (algotimo.py:73-135 run on the data of lines 9-42):
 H1 is the only active hub, both satellites are assigned to it, S1 delivers to C1, C2 and
 C5 (32 units, over the vehicle capacity of 30, so the warning is raised), S2 delivers to
 C3 and C4 (20 units), no hubs are linked and the total is 118.3.

 The lemmas are stated for any assignment with the optimum's values, so that the values
 enter each proof as a handful of facts.
 */
module SampleReport {
  import opened InstanceData
  import opened MipModel
  import opened Solver
  import opened SolutionReport
  import opened SampleInstance

  /** The expected report of the sample. */
  const ExpectedReport: Report := Report(
    ["H1"],
    [SatelliteLink("S1", "H1", 3.0), SatelliteLink("S2", "H1", 2.5)],
    [RouteS1, RouteS2],
    [],
    118.3)

  const RouteS1: Route := Route("S1", "H1", ["C1", "C2", "C5"],
    [Delivery("C1", 10, 1.5), Delivery("C2", 15, 2.0), Delivery("C5", 7, 1.8)], 32, true, 5.3)

  const RouteS2: Route := Route("S2", "H1", ["C3", "C4"],
    [Delivery("C3", 8, 1.2), Delivery("C4", 12, 2.3)], 20, false, 3.5)

  /** The satellite-hub map `asignaciones_sh` of the optimum. */
  const HubOfOptimum: map<Node, Node> := map["S1" := "H1", "S2" := "H1"]

  /** `a` has the values of the sample's optimum. */
  predicate OptimumValued(a: Assignment) {
    && On(a, Y("H1")) && !On(a, Y("H2"))
    && ClientsAtOptimum(a)
    && On(a, Z("S1", "H1")) && !On(a, Z("S1", "H2")) && On(a, Z("S2", "H1")) && !On(a, Z("S2", "H2"))
    && !On(a, Xhh("H1", "H2")) && !On(a, Xhh("H2", "H1"))
  }

  /** The client assignment of the optimum, the only feasible one. */
  predicate ClientsAtOptimum(a: Assignment) {
    && On(a, X("C1", "S1")) && On(a, X("C2", "S1")) && On(a, X("C3", "S2"))
    && On(a, X("C4", "S2")) && On(a, X("C5", "S1"))
  }

  lemma ReportActiveHubs(a: Assignment)
    requires OptimumValued(a)
    ensures ActiveHubs(Sample.hubs, a) == ["H1"]
  {
    var hs := Sample.hubs;
    assert hs == ["H1", "H2"] && hs[1..] == ["H2"] && hs[1..][1..] == [];
    assert ActiveHubs(hs[1..][1..], a) == [];
    assert ActiveHubs(hs[1..], a) == [];
  }

  /** One step of the loop of lines 84-89, for the listed assignments. */
  lemma SatelliteLinksSnoc(order: seq<Pair>, p: Pair, cost: map<Pair, real>, a: Assignment)
    requires forall q :: q in order + [p] ==> q in cost
    ensures SatelliteLinks(order + [p], cost, a)
         == SatelliteLinks(order, cost, a) + (if On(a, Z(p.0, p.1)) then [SatelliteLink(p.0, p.1, cost[p])] else [])
  {
    assert (order + [p])[..|order + [p]| - 1] == order;
  }

  /** One step of the loop of lines 84-86, for the hub map. */
  lemma HubAssignmentSnoc(order: seq<Pair>, p: Pair, a: Assignment)
    ensures HubAssignment(order + [p], a)
         == if On(a, Z(p.0, p.1)) then HubAssignment(order, a)[p.0 := p.1] else HubAssignment(order, a)
  {
    assert (order + [p])[..|order + [p]| - 1] == order;
  }

  lemma ReportSatelliteLinksS1(a: Assignment)
    requires OptimumValued(a)
    ensures SatelliteLinks([("S1", "H1"), ("S1", "H2")], SatHubCosts.cost, a) == [SatelliteLink("S1", "H1", 3.0)]
  {
    var c := SatHubCosts.cost;
    assert c[("S1", "H1")] == 3.0 && ("S1", "H2") in c;
    SatelliteLinksSnoc([], ("S1", "H1"), c, a);
    SatelliteLinksSnoc([("S1", "H1")], ("S1", "H2"), c, a);
    assert [("S1", "H1")] == [] + [("S1", "H1")];
  }

  lemma ReportSatelliteLinks(a: Assignment)
    requires OptimumValued(a)
    ensures SatelliteLinks(Sample.satHub.order, Sample.satHub.cost, a)
         == [SatelliteLink("S1", "H1", 3.0), SatelliteLink("S2", "H1", 2.5)]
  {
    ReportSatelliteLinksS1(a);
    var c := SatHubCosts.cost;
    assert c[("S2", "H1")] == 2.5 && ("S1", "H1") in c && ("S1", "H2") in c && ("S2", "H2") in c;
    var o2 := [("S1", "H1"), ("S1", "H2")];
    SatelliteLinksSnoc(o2, ("S2", "H1"), c, a);
    assert SatelliteLinks(o2 + [("S2", "H1")], c, a) == [SatelliteLink("S1", "H1", 3.0), SatelliteLink("S2", "H1", 2.5)];
    SatelliteLinksSnoc(o2 + [("S2", "H1")], ("S2", "H2"), c, a);
    assert Sample.satHub == SatHubCosts;
    assert SatHubCosts.order == o2 + [("S2", "H1")] + [("S2", "H2")];
  }

  lemma ReportHubOf(a: Assignment)
    requires OptimumValued(a)
    ensures HubAssignment(Sample.satHub.order, a) == HubOfOptimum
  {
    var o1 := [("S1", "H1")];
    var o2 := o1 + [("S1", "H2")];
    var o3 := o2 + [("S2", "H1")];
    HubAssignmentSnoc([], ("S1", "H1"), a);
    assert o1 == [] + [("S1", "H1")];
    assert HubAssignment(o1, a) == map["S1" := "H1"];
    HubAssignmentSnoc(o1, ("S1", "H2"), a);
    assert HubAssignment(o2, a) == map["S1" := "H1"];
    HubAssignmentSnoc(o2, ("S2", "H1"), a);
    assert HubAssignment(o3, a) == HubOfOptimum;
    HubAssignmentSnoc(o3, ("S2", "H2"), a);
    assert Sample.satHub == SatHubCosts;
    assert SatHubCosts.order == o3 + [("S2", "H2")];
  }

  lemma ReportHubLinks(a: Assignment)
    requires OptimumValued(a)
    ensures HubLinks(Sample.hubHub.order, Sample.hubHub.cost, a) == []
  {
    var o := Sample.hubHub.order;
    assert Sample.hubHub == HubHubCosts;
    assert o == [("H1", "H2"), ("H2", "H1")] && o[1..][1..] == [];
    assert HubLinks(o[1..][1..], Sample.hubHub.cost, a) == [];
    assert HubLinks(o[1..], Sample.hubHub.cost, a) == [];
  }

  /** The client-satellite pairs of lines 32-36, in the order the source lists them. */
  predicate SampleClientOrder(order: seq<Pair>) {
    && |order| == 5
    && order[0] == ("C1", "S1") && order[1] == ("C2", "S1") && order[2] == ("C3", "S2")
    && order[3] == ("C4", "S2") && order[4] == ("C5", "S1")
  }

  lemma ClientOrderOfSample()
    ensures SampleClientOrder(Sample.clientSat.order)
  {
    assert Sample.clientSat == ClientSatCosts;
  }

  /** One step of the comprehension of line 93, at position `i` of the pairs. */
  lemma AssignedClientsAt(order: seq<Pair>, i: nat, s: Node, a: Assignment)
    requires i < |order|
    ensures AssignedClients(order[i..], s, a)
         == (if order[i].1 == s && On(a, X(order[i].0, order[i].1)) then [order[i].0] else [])
            + AssignedClients(order[i + 1..], s, a)
  {
    assert order[i..][1..] == order[i + 1..];
  }

  lemma ClientsS1Tail(order: seq<Pair>, a: Assignment)
    requires SampleClientOrder(order) && ClientsAtOptimum(a)
    ensures AssignedClients(order[2..], "S1", a) == ["C5"]
  {
    assert order[5..] == [];
    AssignedClientsAt(order, 4, "S1", a);
    assert AssignedClients(order[4..], "S1", a) == ["C5"];
    AssignedClientsAt(order, 3, "S1", a);
    AssignedClientsAt(order, 2, "S1", a);
  }

  /** The clients of S1 at the optimum: C1, C2 and C5, in the order of the pairs. */
  lemma ClientsS1(order: seq<Pair>, a: Assignment)
    requires SampleClientOrder(order) && ClientsAtOptimum(a)
    ensures AssignedClients(order, "S1", a) == ["C1", "C2", "C5"]
  {
    ClientsS1Tail(order, a);
    AssignedClientsAt(order, 1, "S1", a);
    assert ["C2"] + ["C5"] == ["C2", "C5"];
    assert AssignedClients(order[1..], "S1", a) == ["C2", "C5"];
    AssignedClientsAt(order, 0, "S1", a);
    assert ["C1"] + ["C2", "C5"] == ["C1", "C2", "C5"];
    assert order[0..] == order;
  }

  lemma ClientsS2Tail(order: seq<Pair>, a: Assignment)
    requires SampleClientOrder(order) && ClientsAtOptimum(a)
    ensures AssignedClients(order[2..], "S2", a) == ["C3", "C4"]
  {
    assert order[5..] == [];
    AssignedClientsAt(order, 4, "S2", a);
    AssignedClientsAt(order, 3, "S2", a);
    assert AssignedClients(order[3..], "S2", a) == ["C4"];
    AssignedClientsAt(order, 2, "S2", a);
    assert ["C3"] + ["C4"] == ["C3", "C4"];
  }

  /** The clients of S2 at the optimum: C3 and C4. */
  lemma ClientsS2(order: seq<Pair>, a: Assignment)
    requires SampleClientOrder(order) && ClientsAtOptimum(a)
    ensures AssignedClients(order, "S2", a) == ["C3", "C4"]
  {
    ClientsS2Tail(order, a);
    AssignedClientsAt(order, 1, "S2", a);
    AssignedClientsAt(order, 0, "S2", a);
    assert order[0..] == order;
  }

  /** The demands of line 26. */
  predicate SampleDemands(demand: map<Node, int>) {
    && "C1" in demand && demand["C1"] == 10 && "C2" in demand && demand["C2"] == 15
    && "C3" in demand && demand["C3"] == 8 && "C4" in demand && demand["C4"] == 12
    && "C5" in demand && demand["C5"] == 7
  }

  /** The client-satellite costs of lines 32-36. */
  predicate SampleClientCosts(cost: map<Pair, real>) {
    && ("C1", "S1") in cost && cost[("C1", "S1")] == 1.5 && ("C2", "S1") in cost && cost[("C2", "S1")] == 2.0
    && ("C3", "S2") in cost && cost[("C3", "S2")] == 1.2 && ("C4", "S2") in cost && cost[("C4", "S2")] == 2.3
    && ("C5", "S1") in cost && cost[("C5", "S1")] == 1.8
  }

  /** What the routes of the report read from an instance: the sample's own values. */
  predicate RouteInputs(inst: Instance) {
    && WellFormed(inst)
    && inst.capacity == 30
    && SampleDemands(inst.demand)
    && SampleClientCosts(inst.clientSat.cost)
  }

  lemma DemandsOfSample()
    ensures SampleDemands(Demand)
  {
  }

  lemma ClientCostsOfSample()
    ensures SampleClientCosts(ClientSatCosts.cost)
  {
  }

  lemma SampleRouteInputs()
    ensures RouteInputs(Sample)
  {
    SampleWellFormed();
    DemandsOfSample();
    ClientCostsOfSample();
    assert Sample.demand == Demand && Sample.clientSat == ClientSatCosts;
  }

  /** Route S1: 10 + 15 + 7 = 32 units, over the capacity of 30; cost 1.5 + 2.0 + 1.8. */
  lemma RouteS1Sums(demand: map<Node, int>, cost: map<Pair, real>)
    requires SampleDemands(demand) && SampleClientCosts(cost)
    ensures TotalDemand(["C1", "C2", "C5"], demand) == 32
    ensures RouteCost(["C1", "C2", "C5"], "S1", cost) == 5.3
  {
    var cl := ["C1", "C2", "C5"];
    assert cl[..2] == ["C1", "C2"] && cl[..2][..1] == ["C1"] && cl[..2][..1][..0] == [];
    assert TotalDemand(cl[..2][..1], demand) == 10;
    assert TotalDemand(cl[..2], demand) == 25;
    assert RouteCost(cl[..2][..1], "S1", cost) == 1.5;
    assert RouteCost(cl[..2], "S1", cost) == 3.5;
  }

  /** Route S2: 8 + 12 = 20 units, within capacity; cost 1.2 + 2.3. */
  lemma RouteS2Sums(demand: map<Node, int>, cost: map<Pair, real>)
    requires SampleDemands(demand) && SampleClientCosts(cost)
    ensures TotalDemand(["C3", "C4"], demand) == 20
    ensures RouteCost(["C3", "C4"], "S2", cost) == 3.5
  {
    var cl := ["C3", "C4"];
    assert cl[..1] == ["C3"] && cl[..1][..0] == [];
    assert TotalDemand(cl[..1], demand) == 8;
    assert RouteCost(cl[..1], "S2", cost) == 1.2;
  }

  lemma DeliveriesS1(demand: map<Node, int>, cost: map<Pair, real>)
    requires SampleDemands(demand) && SampleClientCosts(cost)
    ensures Deliveries(["C1", "C2", "C5"], "S1", demand, cost) == RouteS1.deliveries
  {
    var d := Deliveries(["C1", "C2", "C5"], "S1", demand, cost);
    assert d[0] == Delivery("C1", 10, 1.5) && d[1] == Delivery("C2", 15, 2.0) && d[2] == Delivery("C5", 7, 1.8);
  }

  lemma DeliveriesS2(demand: map<Node, int>, cost: map<Pair, real>)
    requires SampleDemands(demand) && SampleClientCosts(cost)
    ensures Deliveries(["C3", "C4"], "S2", demand, cost) == RouteS2.deliveries
  {
    var d := Deliveries(["C3", "C4"], "S2", demand, cost);
    assert d[0] == Delivery("C3", 8, 1.2) && d[1] == Delivery("C4", 12, 2.3);
  }

  lemma RouteForS1(inst: Instance)
    requires RouteInputs(inst)
    ensures forall c :: c in ["C1", "C2", "C5"] ==> c in inst.demand && (c, "S1") in inst.clientSat.cost
    ensures RouteFor(inst, "S1", "H1", ["C1", "C2", "C5"]) == RouteS1
  {
    RouteS1Sums(inst.demand, inst.clientSat.cost);
    DeliveriesS1(inst.demand, inst.clientSat.cost);
  }

  lemma RouteForS2(inst: Instance)
    requires RouteInputs(inst)
    ensures forall c :: c in ["C3", "C4"] ==> c in inst.demand && (c, "S2") in inst.clientSat.cost
    ensures RouteFor(inst, "S2", "H1", ["C3", "C4"]) == RouteS2
  {
    RouteS2Sums(inst.demand, inst.clientSat.cost);
    DeliveriesS2(inst.demand, inst.clientSat.cost);
  }

  /** One step of the loop of lines 92-119, for a satellite `s` that serves `clients`: its route is appended. */
  lemma RoutesSnoc(inst: Instance, a: Assignment, hubOf: map<Node, Node>, sats: seq<Node>, s: Node, h: Node, clients: seq<Node>)
    requires WellFormed(inst) && RouteLookups(inst, a, hubOf, sats)
    requires s in hubOf && hubOf[s] == h
    requires AssignedClients(inst.clientSat.order, s, a) == clients && clients != []
    requires forall c :: c in clients ==> c in inst.demand && (c, s) in inst.clientSat.cost
    ensures RouteLookups(inst, a, hubOf, sats + [s])
    ensures Routes(inst, a, hubOf, sats + [s]) == Routes(inst, a, hubOf, sats) + [RouteFor(inst, s, h, clients)]
  {
    assert (sats + [s])[..|sats + [s]| - 1] == sats;
  }

  /** The first route of the loop of lines 92-119 on the sample's data. */
  lemma RoutesS1(inst: Instance, a: Assignment)
    requires RouteInputs(inst)
    requires AssignedClients(inst.clientSat.order, "S1", a) == ["C1", "C2", "C5"]
    ensures RouteLookups(inst, a, HubOfOptimum, ["S1"])
    ensures Routes(inst, a, HubOfOptimum, ["S1"]) == [RouteS1]
  {
    RouteForS1(inst);
    RoutesSnoc(inst, a, HubOfOptimum, [], "S1", "H1", ["C1", "C2", "C5"]);
    assert ["S1"] == [] + ["S1"];
  }

  /** Both routes of the loop of lines 92-119 on the sample's data. */
  lemma RoutesS1S2(inst: Instance, a: Assignment)
    requires RouteInputs(inst)
    requires AssignedClients(inst.clientSat.order, "S1", a) == ["C1", "C2", "C5"]
    requires AssignedClients(inst.clientSat.order, "S2", a) == ["C3", "C4"]
    ensures RouteLookups(inst, a, HubOfOptimum, ["S1", "S2"])
    ensures Routes(inst, a, HubOfOptimum, ["S1", "S2"]) == [RouteS1, RouteS2]
  {
    RoutesS1(inst, a);
    RoutesS2(inst, a);
  }

  /** The second route of the loop of lines 92-119 on the sample's data, after the first. */
  lemma RoutesS2(inst: Instance, a: Assignment)
    requires RouteInputs(inst)
    requires AssignedClients(inst.clientSat.order, "S2", a) == ["C3", "C4"]
    requires RouteLookups(inst, a, HubOfOptimum, ["S1"])
    requires Routes(inst, a, HubOfOptimum, ["S1"]) == [RouteS1]
    ensures RouteLookups(inst, a, HubOfOptimum, ["S1", "S2"])
    ensures Routes(inst, a, HubOfOptimum, ["S1", "S2"]) == [RouteS1, RouteS2]
  {
    RouteForS2(inst);
    RoutesSnoc(inst, a, HubOfOptimum, ["S1"], "S2", "H1", ["C3", "C4"]);
    assert ["S1", "S2"] == ["S1"] + ["S2"];
  }

  lemma ReportRoutes(a: Assignment)
    requires OptimumValued(a)
    ensures WellFormed(Sample)
    ensures RouteLookups(Sample, a, HubOfOptimum, Sample.satellites)
    ensures Routes(Sample, a, HubOfOptimum, Sample.satellites) == [RouteS1, RouteS2]
  {
    SampleRouteInputs();
    ClientOrderOfSample();
    ClientsS1(Sample.clientSat.order, a);
    ClientsS2(Sample.clientSat.order, a);
    RoutesS1S2(Sample, a);
    assert Sample.satellites == ["S1", "S2"];
  }

  lemma OptimumIsValued()
    ensures OptimumValued(Optimum)
  {
    OptimumValues();
  }

  /**
   An OPTIMAL result for the sample carries the optimum's values and the objective value
   118.3: the model of lines 44-68 has a single minimum.
   */
  lemma SampleSolved(r: SolverResult)
    requires WellFormed(Sample) && SolverContract(Sample, r) && r.status == Optimal
    ensures Feasible(Sample, r.values) && OptimumValued(r.values)
    ensures r.objectiveValue == 118.3
  {
    SampleOptimumUnique(r.values);
    SampleOptimal();
    OptimumIsValued();
  }

  /** The report printed for the sample when the solver reports OPTIMAL (lines 73-131). */
  lemma SampleReportPrinted(r: SolverResult)
    requires WellFormed(Sample) && SolverContract(Sample, r) && r.status == Optimal
    ensures Feasible(Sample, r.values) && DemandsKnown(Sample, r.values, Sample.satellites)
    ensures ReportOf(Sample, r) == ExpectedReport
  {
    SampleSolved(r);
    var a := r.values;
    SampleDemandsKnown(a);
    ReportActiveHubs(a);
    ReportSatelliteLinks(a);
    ReportHubOf(a);
    ReportRoutes(a);
    ReportHubLinks(a);
  }
}
