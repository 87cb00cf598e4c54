/**
 The instance hard-coded in the source (algotimo.py:9-11 and 26-42): five clients, two
 satellites, two hubs. Every client has exactly one allowed satellite, so the client
 assignment is forced; the cheapest hub side opens only H1 and routes both satellites
 to it, and the optimum costs 118.3.
 */
module SampleInstance {
  import opened InstanceData
  import opened MipModel
  import opened Solver
  import opened SolutionReport

  const ClientSatCosts: CostTable := Table(
    [("C1", "S1"), ("C2", "S1"), ("C3", "S2"), ("C4", "S2"), ("C5", "S1")],
    map[("C1", "S1") := 1.5, ("C2", "S1") := 2.0, ("C3", "S2") := 1.2, ("C4", "S2") := 2.3, ("C5", "S1") := 1.8])

  const SatHubCosts: CostTable := Table(
    [("S1", "H1"), ("S1", "H2"), ("S2", "H1"), ("S2", "H2")],
    map[("S1", "H1") := 3.0, ("S1", "H2") := 4.0, ("S2", "H1") := 2.5, ("S2", "H2") := 2.8])

  const HubHubCosts: CostTable := Table(
    [("H1", "H2"), ("H2", "H1")],
    map[("H1", "H2") := 5.0, ("H2", "H1") := 5.0])

  const Clients: seq<Node> := ["C1", "C2", "C3", "C4", "C5"]
  const Satellites: seq<Node> := ["S1", "S2"]
  const Hubs: seq<Node> := ["H1", "H2"]
  const Demand: map<Node, int> := map["C1" := 10, "C2" := 15, "C3" := 8, "C4" := 12, "C5" := 7]
  const HubCosts: map<Node, real> := map["H1" := 50.0, "H2" := 60.0]
  const SatCosts: map<Node, real> := map["S1" := 10.0, "S2" := 12.0]

  /** `clientes`, `satelites`, `hubs`, `demanda`, `capacidad_vehiculo` and `costos`. */
  const Sample: Instance := Instance(Clients, Satellites, Hubs, Demand, 30, HubCosts, SatCosts,
    ClientSatCosts, SatHubCosts, HubHubCosts)

  /** The optimum: H1 open, S1 serves C1, C2, C5, S2 serves C3, C4, both routed to H1. */
  const Optimum: Assignment := map[
    Y("H1") := true, Y("H2") := false,
    X("C1", "S1") := true, X("C2", "S1") := true, X("C3", "S2") := true,
    X("C4", "S2") := true, X("C5", "S1") := true,
    Z("S1", "H1") := true, Z("S1", "H2") := false, Z("S2", "H1") := true, Z("S2", "H2") := false,
    Xhh("H1", "H2") := false, Xhh("H2", "H1") := false]

  /** The hub side of the objective (hub fixed costs plus satellite-hub costs) for given values. */
  function HubSide(y1: bool, y2: bool, z11: bool, z12: bool, z21: bool, z22: bool): real {
    (if y1 then 50.0 else 0.0) + (if y2 then 60.0 else 0.0)
    + (if z11 then 3.0 else 0.0) + (if z12 then 4.0 else 0.0)
    + (if z21 then 2.5 else 0.0) + (if z22 then 2.8 else 0.0)
  }

  /**
   Under the coverage and activation constraints the hub side costs at least 55.5, only
   when H1 alone is open and both satellites are routed to it; with H1 closed it costs at
   least 66.8.
   */
  lemma HubSideMinimum(y1: bool, y2: bool, z11: bool, z12: bool, z21: bool, z22: bool)
    requires z11 || z12
    requires z21 || z22
    requires (z11 ==> y1) && (z21 ==> y1) && (z12 ==> y2) && (z22 ==> y2)
    ensures HubSide(y1, y2, z11, z12, z21, z22) >= 55.5
    ensures HubSide(y1, y2, z11, z12, z21, z22) == 55.5 ==> y1 && !y2 && z11 && !z12 && z21 && !z22
    ensures !y1 ==> HubSide(y1, y2, z11, z12, z21, z22) >= 66.8
  {
  }

  lemma SampleListsDistinct()
    ensures Distinct(Sample.clients) && Distinct(Sample.satellites) && Distinct(Sample.hubs)
  {
  }

  lemma SampleWellFormed()
    ensures WellFormed(Sample)
  {
    assert forall h :: h in Sample.hubs ==> h in Sample.hubCost;
    assert forall s :: s in Sample.satellites ==> s in Sample.satCost;
    SampleTablesWellFormed();
  }

  lemma SampleTablesWellFormed()
    ensures forall p :: p in Sample.satHub.cost ==> p.1 in Sample.hubs
    ensures forall p :: p in Sample.clientSat.cost ==> p.0 in Sample.demand
  {
    SatHubTargetsListed();
    ClientSatSourcesHaveDemand();
    assert Sample.satHub == SatHubCosts && Sample.hubs == Hubs;
    assert Sample.clientSat == ClientSatCosts && Sample.demand == Demand;
  }

  lemma SatHubTargetsListed()
    ensures forall p :: p in SatHubCosts.cost ==> p.1 in Hubs
  {
  }

  lemma ClientSatSourcesHaveDemand()
    ensures forall p :: p in ClientSatCosts.cost ==> p.0 in Demand
  {
  }

  /** Every client of the client-satellite table has a demand, so line 97 never fails on the sample. */
  lemma SampleDemandsKnown(a: Assignment)
    ensures DemandsKnown(Sample, a, Sample.satellites)
  {
    SampleTablesWellFormed();
  }

  lemma SampleHubTerm(a: Assignment)
    ensures HubTerm(Sample.hubs, Sample.hubCost, a) == 50.0 * Bit(a, Y("H1")) as real + 60.0 * Bit(a, Y("H2")) as real
  {
    var hs := Sample.hubs;
    assert hs == ["H1", "H2"] && Sample.hubCost["H1"] == 50.0 && Sample.hubCost["H2"] == 60.0;
    assert HubTerm(hs[1..], Sample.hubCost, a) == 60.0 * Bit(a, Y("H2")) as real;
  }

  lemma SampleSatelliteTerm(a: Assignment)
    ensures SatelliteTerm(Sample.satellites, Sample.satCost, Sample.clients, Sample.clientSat, a)
         == 10.0 * (Bit(a, X("C1", "S1")) + Bit(a, X("C2", "S1")) + Bit(a, X("C5", "S1"))) as real
          + 12.0 * (Bit(a, X("C3", "S2")) + Bit(a, X("C4", "S2"))) as real
  {
    SampleColumns();
    CountColumns(a);
    SatelliteTermUnfold(Sample.clients, Sample.clientSat, a);
  }

  /** The satellite term over the sample's two satellites, for any clients and table. */
  lemma SatelliteTermUnfold(cl: seq<Node>, cs: CostTable, a: Assignment)
    ensures SatelliteTerm(Satellites, SatCosts, cl, cs, a)
         == 10.0 * Count(a, SatelliteColumn("S1", cl, cs)) as real + 12.0 * Count(a, SatelliteColumn("S2", cl, cs)) as real
  {
    var ss := Satellites;
    assert ss[0] == "S1" && ss[1..] == ["S2"] && ss[1..][1..] == [];
    assert SatCosts["S1"] == 10.0 && SatCosts["S2"] == 12.0;
    assert SatelliteTerm(ss[1..][1..], SatCosts, cl, cs, a) == 0.0;
    assert SatelliteTerm(ss[1..], SatCosts, cl, cs, a) == 12.0 * Count(a, SatelliteColumn("S2", cl, cs)) as real;
  }

  lemma CountColumns(a: Assignment)
    ensures Count(a, [X("C1", "S1"), X("C2", "S1"), X("C5", "S1")]) == Bit(a, X("C1", "S1")) + Bit(a, X("C2", "S1")) + Bit(a, X("C5", "S1"))
    ensures Count(a, [X("C3", "S2"), X("C4", "S2")]) == Bit(a, X("C3", "S2")) + Bit(a, X("C4", "S2"))
  {
    var col1 := [X("C1", "S1"), X("C2", "S1"), X("C5", "S1")];
    var col2 := [X("C3", "S2"), X("C4", "S2")];
    assert Count(a, col1[1..][1..]) == Bit(a, X("C5", "S1"));
    assert Count(a, col2[1..]) == Bit(a, X("C4", "S2"));
  }

  /** The clients each satellite is charged for in the objective (line 53). */
  lemma SampleColumns()
    ensures SatelliteColumn("S1", Sample.clients, Sample.clientSat) == [X("C1", "S1"), X("C2", "S1"), X("C5", "S1")]
    ensures SatelliteColumn("S2", Sample.clients, Sample.clientSat) == [X("C3", "S2"), X("C4", "S2")]
  {
    ColumnS1();
    ColumnS2();
    assert Sample.clients == ["C1", "C2", "C3", "C4", "C5"];
  }

  /** One step of the column comprehension. */
  lemma ColumnCons(s: Node, c: Node, rest: seq<Node>, cs: CostTable)
    ensures SatelliteColumn(s, [c] + rest, cs) == (if (c, s) in cs.cost then [X(c, s)] else []) + SatelliteColumn(s, rest, cs)
  {
    assert ([c] + rest)[1..] == rest;
  }

  lemma ColumnS1Tail()
    ensures SatelliteColumn("S1", ["C3", "C4", "C5"], ClientSatCosts) == [X("C5", "S1")]
  {
    var t := ClientSatCosts;
    assert ("C5", "S1") in t.cost && ("C4", "S1") !in t.cost && ("C3", "S1") !in t.cost;
    ColumnCons("S1", "C5", [], t);
    ColumnCons("S1", "C4", ["C5"], t);
    ColumnCons("S1", "C3", ["C4", "C5"], t);
  }

  lemma ColumnS1Mid()
    ensures SatelliteColumn("S1", ["C2", "C3", "C4", "C5"], ClientSatCosts) == [X("C2", "S1"), X("C5", "S1")]
  {
    ColumnS1Tail();
    assert ("C2", "S1") in ClientSatCosts.cost;
    ColumnCons("S1", "C2", ["C3", "C4", "C5"], ClientSatCosts);
  }

  lemma ColumnS1()
    ensures SatelliteColumn("S1", ["C1", "C2", "C3", "C4", "C5"], ClientSatCosts) == [X("C1", "S1"), X("C2", "S1"), X("C5", "S1")]
  {
    ColumnS1Mid();
    assert ("C1", "S1") in ClientSatCosts.cost;
    ColumnCons("S1", "C1", ["C2", "C3", "C4", "C5"], ClientSatCosts);
  }

  lemma ColumnS2Tail()
    ensures SatelliteColumn("S2", ["C3", "C4", "C5"], ClientSatCosts) == [X("C3", "S2"), X("C4", "S2")]
  {
    var t := ClientSatCosts;
    assert ("C5", "S2") !in t.cost && ("C4", "S2") in t.cost && ("C3", "S2") in t.cost;
    ColumnCons("S2", "C5", [], t);
    ColumnCons("S2", "C4", ["C5"], t);
    ColumnCons("S2", "C3", ["C4", "C5"], t);
  }

  lemma ColumnS2()
    ensures SatelliteColumn("S2", ["C1", "C2", "C3", "C4", "C5"], ClientSatCosts) == [X("C3", "S2"), X("C4", "S2")]
  {
    var t := ClientSatCosts;
    ColumnS2Tail();
    assert ("C2", "S2") !in t.cost && ("C1", "S2") !in t.cost;
    ColumnCons("S2", "C2", ["C3", "C4", "C5"], t);
    ColumnCons("S2", "C1", ["C2", "C3", "C4", "C5"], t);
  }

  lemma SampleClientSatelliteTerm(a: Assignment)
    ensures PairTerm(ClientSatellite, ClientSatCosts.order, ClientSatCosts.cost, a)
         == 1.5 * Bit(a, X("C1", "S1")) as real + 2.0 * Bit(a, X("C2", "S1")) as real
          + 1.2 * Bit(a, X("C3", "S2")) as real + 2.3 * Bit(a, X("C4", "S2")) as real
          + 1.8 * Bit(a, X("C5", "S1")) as real
  {
    var o := ClientSatCosts.order;
    var c := ClientSatCosts.cost;
    assert c[("C1", "S1")] == 1.5 && c[("C2", "S1")] == 2.0 && c[("C3", "S2")] == 1.2;
    assert c[("C4", "S2")] == 2.3 && c[("C5", "S1")] == 1.8;
    assert PairTerm(ClientSatellite, o[4..], c, a) == 1.8 * Bit(a, X("C5", "S1")) as real;
    assert o[3..][1..] == o[4..];
    assert PairTerm(ClientSatellite, o[3..], c, a) == 2.3 * Bit(a, X("C4", "S2")) as real + PairTerm(ClientSatellite, o[4..], c, a);
    assert o[2..][1..] == o[3..];
    assert PairTerm(ClientSatellite, o[2..], c, a) == 1.2 * Bit(a, X("C3", "S2")) as real + PairTerm(ClientSatellite, o[3..], c, a);
    assert o[1..][1..] == o[2..];
    assert PairTerm(ClientSatellite, o[1..], c, a) == 2.0 * Bit(a, X("C2", "S1")) as real + PairTerm(ClientSatellite, o[2..], c, a);
  }

  lemma SampleSatelliteHubTerm(a: Assignment)
    ensures PairTerm(SatelliteHub, SatHubCosts.order, SatHubCosts.cost, a)
         == 3.0 * Bit(a, Z("S1", "H1")) as real + 4.0 * Bit(a, Z("S1", "H2")) as real
          + 2.5 * Bit(a, Z("S2", "H1")) as real + 2.8 * Bit(a, Z("S2", "H2")) as real
  {
    var o := SatHubCosts.order;
    var c := SatHubCosts.cost;
    assert c[("S1", "H1")] == 3.0 && c[("S1", "H2")] == 4.0 && c[("S2", "H1")] == 2.5 && c[("S2", "H2")] == 2.8;
    assert PairTerm(SatelliteHub, o[3..], c, a) == 2.8 * Bit(a, Z("S2", "H2")) as real;
    assert o[2..][1..] == o[3..];
    assert PairTerm(SatelliteHub, o[2..], c, a) == 2.5 * Bit(a, Z("S2", "H1")) as real + PairTerm(SatelliteHub, o[3..], c, a);
    assert o[1..][1..] == o[2..];
    assert PairTerm(SatelliteHub, o[1..], c, a) == 4.0 * Bit(a, Z("S1", "H2")) as real + PairTerm(SatelliteHub, o[2..], c, a);
  }

  lemma SampleHubHubTerm(a: Assignment)
    ensures PairTerm(HubHub, HubHubCosts.order, HubHubCosts.cost, a)
         == 5.0 * Bit(a, Xhh("H1", "H2")) as real + 5.0 * Bit(a, Xhh("H2", "H1")) as real
  {
    var o := HubHubCosts.order;
    var c := HubHubCosts.cost;
    assert o == [("H1", "H2"), ("H2", "H1")] && c[("H1", "H2")] == 5.0 && c[("H2", "H1")] == 5.0;
    assert PairTerm(HubHub, o[1..], c, a) == 5.0 * Bit(a, Xhh("H2", "H1")) as real;
  }

  lemma SampleObjective(a: Assignment)
    ensures WellFormed(Sample)
    ensures Objective(Sample, a)
         == 50.0 * Bit(a, Y("H1")) as real + 60.0 * Bit(a, Y("H2")) as real
          + 10.0 * (Bit(a, X("C1", "S1")) + Bit(a, X("C2", "S1")) + Bit(a, X("C5", "S1"))) as real
          + 12.0 * (Bit(a, X("C3", "S2")) + Bit(a, X("C4", "S2"))) as real
          + 1.5 * Bit(a, X("C1", "S1")) as real + 2.0 * Bit(a, X("C2", "S1")) as real
          + 1.2 * Bit(a, X("C3", "S2")) as real + 2.3 * Bit(a, X("C4", "S2")) as real
          + 1.8 * Bit(a, X("C5", "S1")) as real
          + 3.0 * Bit(a, Z("S1", "H1")) as real + 4.0 * Bit(a, Z("S1", "H2")) as real
          + 2.5 * Bit(a, Z("S2", "H1")) as real + 2.8 * Bit(a, Z("S2", "H2")) as real
          + 5.0 * Bit(a, Xhh("H1", "H2")) as real + 5.0 * Bit(a, Xhh("H2", "H1")) as real
  {
    SampleWellFormed();
    SampleHubTerm(a);
    SampleSatelliteTerm(a);
    SampleClientSatelliteTerm(a);
    SampleSatelliteHubTerm(a);
    SampleHubHubTerm(a);
  }

  /** A client with a single allowed satellite is served by it in every feasible assignment. */
  lemma ForcedSatellite(inst: Instance, a: Assignment, c: Node, s: Node)
    requires Feasible(inst, a) && c in inst.clients
    requires forall t :: (c, t) in inst.clientSat.cost ==> t == s
    ensures On(a, X(c, s))
  {
    FeasibleClientServedOnce(inst, a, c);
  }

  /** The allowed client-satellite pairs of the sample: one satellite per client. */
  lemma SampleAllowedSatellites()
    ensures forall t :: ("C1", t) in ClientSatCosts.cost ==> t == "S1"
    ensures forall t :: ("C2", t) in ClientSatCosts.cost ==> t == "S1"
    ensures forall t :: ("C3", t) in ClientSatCosts.cost ==> t == "S2"
    ensures forall t :: ("C4", t) in ClientSatCosts.cost ==> t == "S2"
    ensures forall t :: ("C5", t) in ClientSatCosts.cost ==> t == "S1"
  {
  }

  /**
   Every client has exactly one allowed satellite, so every feasible assignment serves
   C1, C2 and C5 from S1 and C3 and C4 from S2.
   */
  lemma SampleClientsForced(a: Assignment)
    requires Feasible(Sample, a)
    ensures On(a, X("C1", "S1")) && On(a, X("C2", "S1")) && On(a, X("C5", "S1"))
    ensures On(a, X("C3", "S2")) && On(a, X("C4", "S2"))
  {
    SampleAllowedSatellites();
    assert Sample.clients == Clients;
    assert Sample.clientSat == ClientSatCosts;
    ForcedSatellite(Sample, a, "C1", "S1");
    ForcedSatellite(Sample, a, "C2", "S1");
    ForcedSatellite(Sample, a, "C3", "S2");
    ForcedSatellite(Sample, a, "C4", "S2");
    ForcedSatellite(Sample, a, "C5", "S1");
  }

  /** A satellite whose allowed hubs are `h1` and `h2` is routed to one of them. */
  lemma RoutedToOneOf(inst: Instance, a: Assignment, s: Node, h1: Node, h2: Node)
    requires Feasible(inst, a) && s in inst.satellites
    requires forall h :: (s, h) in inst.satHub.cost ==> h == h1 || h == h2
    ensures On(a, Z(s, h1)) || On(a, Z(s, h2))
  {
    FeasibleSatelliteRouted(inst, a, s);
  }

  /** Constraint 3 (lines 66-67) for one allowed pair. */
  lemma Activation(inst: Instance, a: Assignment, s: Node, h: Node)
    requires Feasible(inst, a) && (s, h) in inst.satHub.cost
    ensures On(a, Z(s, h)) ==> On(a, Y(h))
  {
    assert Bit(a, Z((s, h).0, (s, h).1)) <= Bit(a, Y((s, h).1));
  }

  /** The allowed satellite-hub pairs of the sample: all four. */
  lemma SampleAllowedHubs()
    ensures ("S1", "H1") in SatHubCosts.cost && ("S1", "H2") in SatHubCosts.cost
    ensures ("S2", "H1") in SatHubCosts.cost && ("S2", "H2") in SatHubCosts.cost
    ensures forall h :: ("S1", h) in SatHubCosts.cost ==> h == "H1" || h == "H2"
    ensures forall h :: ("S2", h) in SatHubCosts.cost ==> h == "H1" || h == "H2"
  {
  }

  /** The hub-side constraints of a feasible assignment, in the variables of the sample. */
  lemma SampleHubConstraints(a: Assignment)
    requires Feasible(Sample, a)
    ensures On(a, Z("S1", "H1")) || On(a, Z("S1", "H2"))
    ensures On(a, Z("S2", "H1")) || On(a, Z("S2", "H2"))
    ensures On(a, Z("S1", "H1")) ==> On(a, Y("H1"))
    ensures On(a, Z("S2", "H1")) ==> On(a, Y("H1"))
    ensures On(a, Z("S1", "H2")) ==> On(a, Y("H2"))
    ensures On(a, Z("S2", "H2")) ==> On(a, Y("H2"))
  {
    SampleAllowedHubs();
    assert Sample.satellites == Satellites;
    assert Sample.satHub == SatHubCosts;
    RoutedToOneOf(Sample, a, "S1", "H1", "H2");
    RoutedToOneOf(Sample, a, "S2", "H1", "H2");
    Activation(Sample, a, "S1", "H1");
    Activation(Sample, a, "S2", "H1");
    Activation(Sample, a, "S1", "H2");
    Activation(Sample, a, "S2", "H2");
  }

  /**
   Every feasible assignment of the sample costs at least 118.3, and only the one that
   opens H1 alone, routes both satellites to it and links no hubs costs exactly that.
   */
  lemma SampleLowerBound(a: Assignment)
    requires Feasible(Sample, a)
    ensures WellFormed(Sample)
    ensures Objective(Sample, a) >= 118.3
    ensures Objective(Sample, a) == 118.3 ==>
      && On(a, Y("H1")) && !On(a, Y("H2"))
      && On(a, Z("S1", "H1")) && !On(a, Z("S1", "H2")) && On(a, Z("S2", "H1")) && !On(a, Z("S2", "H2"))
      && !On(a, Xhh("H1", "H2")) && !On(a, Xhh("H2", "H1"))
  {
    SampleObjective(a);
    SampleClientsForced(a);
    SampleHubConstraints(a);
    var y1, y2 := On(a, Y("H1")), On(a, Y("H2"));
    var z11, z12, z21, z22 := On(a, Z("S1", "H1")), On(a, Z("S1", "H2")), On(a, Z("S2", "H1")), On(a, Z("S2", "H2"));
    HubSideMinimum(y1, y2, z11, z12, z21, z22);
    assert Objective(Sample, a) == 62.8 + HubSide(y1, y2, z11, z12, z21, z22)
      + 5.0 * Bit(a, Xhh("H1", "H2")) as real + 5.0 * Bit(a, Xhh("H2", "H1")) as real;
  }

  /** A client row whose one allowed satellite is on sums to 1. */
  lemma RowOfOne(inst: Instance, a: Assignment, c: Node, s: Node)
    requires Distinct(inst.satellites) && s in inst.satellites
    requires (c, s) in inst.clientSat.cost && On(a, X(c, s))
    requires forall t :: (c, t) in inst.clientSat.cost ==> t == s
    ensures Count(a, ClientRow(c, inst.satellites, inst.clientSat)) == 1
  {
    var row := ClientRow(c, inst.satellites, inst.clientSat);
    assert X(c, s) in row;
    CountOne(a, row);
  }

  /** A hub row with an allowed hub that is on sums to at least 1. */
  lemma HubRowOn(inst: Instance, a: Assignment, s: Node, h: Node)
    requires h in inst.hubs && (s, h) in inst.satHub.cost && On(a, Z(s, h))
    ensures Count(a, HubRow(s, inst.hubs, inst.satHub)) >= 1
  {
    var row := HubRow(s, inst.hubs, inst.satHub);
    assert Z(s, h) in row;
    CountPositive(a, row);
  }

  /** The optimum gives a value to exactly the variables of the sample's model. */
  lemma OptimumShaped()
    ensures Shaped(Sample, Optimum)
  {
    OptimumHubKeys();
    OptimumClientSatKeys();
    OptimumSatHubKeys();
    OptimumHubHubKeys();
    assert Sample.hubs == Hubs && Sample.clientSat == ClientSatCosts;
    assert Sample.satHub == SatHubCosts && Sample.hubHub == HubHubCosts;
    forall v ensures v in Optimum <==> IsVariable(Sample, v) {
      match v
      case Y(h) =>
      case X(c, s) =>
      case Z(s, h) =>
      case Xhh(h1, h2) =>
    }
  }

  lemma OptimumHubKeys()
    ensures forall h :: Y(h) in Optimum <==> h in Hubs
  {
  }

  lemma OptimumClientSatKeys()
    ensures forall c, s :: X(c, s) in Optimum <==> (c, s) in ClientSatCosts.cost
  {
  }

  lemma OptimumSatHubKeys()
    ensures forall s, h :: Z(s, h) in Optimum <==> (s, h) in SatHubCosts.cost
  {
  }

  lemma OptimumHubHubKeys()
    ensures forall h1, h2 :: Xhh(h1, h2) in Optimum <==> (h1, h2) in HubHubCosts.cost
  {
  }

  /** The values of the optimum. */
  lemma OptimumValues()
    ensures On(Optimum, Y("H1")) && !On(Optimum, Y("H2"))
    ensures On(Optimum, X("C1", "S1")) && On(Optimum, X("C2", "S1")) && On(Optimum, X("C3", "S2"))
    ensures On(Optimum, X("C4", "S2")) && On(Optimum, X("C5", "S1"))
    ensures On(Optimum, Z("S1", "H1")) && !On(Optimum, Z("S1", "H2"))
    ensures On(Optimum, Z("S2", "H1")) && !On(Optimum, Z("S2", "H2"))
    ensures !On(Optimum, Xhh("H1", "H2")) && !On(Optimum, Xhh("H2", "H1"))
  {
  }

  /** The client assignment of the optimum satisfies the client constraints (lines 60-61). */
  lemma ClientRowsAt(a: Assignment)
    requires On(a, X("C1", "S1")) && On(a, X("C2", "S1")) && On(a, X("C3", "S2"))
    requires On(a, X("C4", "S2")) && On(a, X("C5", "S1"))
    ensures forall c :: c in Sample.clients ==> Count(a, ClientRow(c, Sample.satellites, Sample.clientSat)) == 1
  {
    ClientSatKeys();
    forall c | c in Sample.clients
      ensures Count(a, ClientRow(c, Sample.satellites, Sample.clientSat)) == 1
    {
      assert Sample.clients == ["C1", "C2", "C3", "C4", "C5"];
      if c == "C1" || c == "C2" || c == "C5" {
        ClientRowAt(a, c, "S1");
      } else {
        assert c == "C3" || c == "C4";
        ClientRowAt(a, c, "S2");
      }
    }
  }

  lemma ClientSatKeys()
    ensures ("C1", "S1") in ClientSatCosts.cost && ("C2", "S1") in ClientSatCosts.cost && ("C3", "S2") in ClientSatCosts.cost
    ensures ("C4", "S2") in ClientSatCosts.cost && ("C5", "S1") in ClientSatCosts.cost
  {
  }

  lemma ClientRowAt(a: Assignment, c: Node, s: Node)
    requires (c, s) in ClientSatCosts.cost && On(a, X(c, s))
    ensures Count(a, ClientRow(c, Sample.satellites, Sample.clientSat)) == 1
  {
    SampleListsDistinct();
    assert Sample.clientSat == ClientSatCosts && Sample.satellites == Satellites;
    assert forall t :: (c, t) in ClientSatCosts.cost ==> t == s;
    RowOfOne(Sample, a, c, s);
  }

  /** Routing both satellites to H1 satisfies the coverage constraints (lines 63-64). */
  lemma HubRowsAt(a: Assignment)
    requires On(a, Z("S1", "H1")) && On(a, Z("S2", "H1"))
    ensures forall s :: s in Sample.satellites ==> Count(a, HubRow(s, Sample.hubs, Sample.satHub)) >= 1
  {
    SampleAllowedHubs();
    assert Sample.satHub == SatHubCosts && Sample.hubs == Hubs;
    HubRowOn(Sample, a, "S1", "H1");
    HubRowOn(Sample, a, "S2", "H1");
    assert Sample.satellites == ["S1", "S2"];
  }

  /** With H1 open and nothing routed to H2, the activation constraints hold (lines 66-67). */
  lemma ActivationAt(a: Assignment)
    requires On(a, Y("H1")) && !On(a, Z("S1", "H2")) && !On(a, Z("S2", "H2"))
    ensures forall p :: p in Sample.satHub.cost ==> Bit(a, Z(p.0, p.1)) <= Bit(a, Y(p.1))
  {
    SatHubPairs();
    assert Sample.satHub == SatHubCosts;
  }

  lemma SatHubPairs()
    ensures forall p :: p in SatHubCosts.cost ==> p.1 == "H1" || p == ("S1", "H2") || p == ("S2", "H2")
  {
  }

  /** The optimum satisfies every constraint of the sample's model. */
  lemma OptimumFeasible()
    ensures Feasible(Sample, Optimum)
  {
    OptimumShaped();
    OptimumValues();
    ClientRowsAt(Optimum);
    HubRowsAt(Optimum);
    ActivationAt(Optimum);
  }

  /** The optimum is a minimum of the sample's model, at 118.3. */
  lemma SampleOptimal()
    ensures WellFormed(Sample)
    ensures Minimises(Sample, Optimum)
    ensures Objective(Sample, Optimum) == 118.3
  {
    OptimumFeasible();
    OptimumValues();
    SampleObjective(Optimum);
    forall b | Feasible(Sample, b) ensures Objective(Sample, Optimum) <= Objective(Sample, b) {
      SampleLowerBound(b);
    }
  }

  /** The optimum is the only minimum of the sample's model. */
  lemma SampleOptimumUnique(b: Assignment)
    requires WellFormed(Sample) && Minimises(Sample, b)
    ensures b == Optimum
  {
    SampleOptimal();
    assert Feasible(Sample, b);
    assert Objective(Sample, b) <= Objective(Sample, Optimum);
    CheapestIsOptimum(b);
  }

  /** A feasible assignment of the sample that costs 118.3 is the optimum. */
  lemma CheapestIsOptimum(b: Assignment)
    requires Feasible(Sample, b)
    requires WellFormed(Sample) && Objective(Sample, b) <= 118.3
    ensures b == Optimum
  {
    SampleLowerBound(b);
    SampleClientsForced(b);
    SameKeysAsOptimum(b);
    SameValuesAsOptimum(b);
  }

  /** An assignment with the optimum's variables and values is the optimum. */
  lemma SameKeysAsOptimum(b: Assignment)
    requires Shaped(Sample, b)
    ensures b.Keys == Optimum.Keys
  {
    OptimumShaped();
    forall v ensures v in b <==> v in Optimum {
      assert v in b <==> IsVariable(Sample, v);
    }
  }

  lemma SameValuesAsOptimum(b: Assignment)
    requires b.Keys == Optimum.Keys
    requires On(b, Y("H1")) && !On(b, Y("H2"))
    requires On(b, X("C1", "S1")) && On(b, X("C2", "S1")) && On(b, X("C3", "S2"))
    requires On(b, X("C4", "S2")) && On(b, X("C5", "S1"))
    requires On(b, Z("S1", "H1")) && !On(b, Z("S1", "H2"))
    requires On(b, Z("S2", "H1")) && !On(b, Z("S2", "H2"))
    requires !On(b, Xhh("H1", "H2")) && !On(b, Xhh("H2", "H1"))
    ensures b == Optimum
  {
    OptimumValues();
    forall v | v in b ensures b[v] == Optimum[v] {
      assert v in Optimum.Keys;
    }
  }
}
