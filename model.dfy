/**
 The mixed-integer model built from an instance (algotimo.py:44-67): one 0/1 variable
 per hub and per allowed pair, the feasibility predicate made of the three constraint
 families, and the five-term objective.

 A solver assignment gives every variable a value; the `> 0.5` rounding of the
 solver's floating-point values is not modelled, so a value is a `bool`.
 */
module MipModel {
  import opened InstanceData

  /** The decision variables, one constructor per family, named as the source names them. */
  datatype Var =
    | Y(hub: Node)                        // Y[h]: hub h is opened
    | X(client: Node, satellite: Node)    // X[c,s]: client c is served by satellite s
    | Z(satellite: Node, hub: Node)       // Z[s,h]: satellite s is routed to hub h
    | Xhh(from: Node, to: Node)           // X_hh[h1,h2]: hubs h1 and h2 are linked

  /** The three pair-keyed variable families, one per pair-keyed cost table. */
  datatype Family = ClientSatellite | SatelliteHub | HubHub

  /** The variable of family `f` for the table key `p`. */
  function PairVar(f: Family, p: Pair): Var {
    match f
    case ClientSatellite => X(p.0, p.1)
    case SatelliteHub => Z(p.0, p.1)
    case HubHub => Xhh(p.0, p.1)
  }

  /** The cost table that allows the pairs of family `f`. */
  function TableOf(inst: Instance, f: Family): CostTable {
    match f
    case ClientSatellite => inst.clientSat
    case SatelliteHub => inst.satHub
    case HubHub => inst.hubHub
  }

  /** The variables of one pair-keyed family, in the table's key order. */
  function FamilyVars(f: Family, order: seq<Pair>): seq<Var> {
    seq(|order|, i requires 0 <= i < |order| => PairVar(f, order[i]))
  }

  /** Every variable the model creates, in creation order (lines 45-48). */
  function Variables(inst: Instance): seq<Var> {
    seq(|inst.hubs|, i requires 0 <= i < |inst.hubs| => Y(inst.hubs[i]))
    + FamilyVars(ClientSatellite, inst.clientSat.order)
    + FamilyVars(SatelliteHub, inst.satHub.order)
    + FamilyVars(HubHub, inst.hubHub.order)
  }

  /** Whether the model has variable `v`: a listed hub, or a key of its family's table. */
  predicate IsVariable(inst: Instance, v: Var) {
    match v
    case Y(h) => h in inst.hubs
    case X(c, s) => (c, s) in inst.clientSat.cost
    case Z(s, h) => (s, h) in inst.satHub.cost
    case Xhh(h1, h2) => (h1, h2) in inst.hubHub.cost
  }

  lemma FamilyVarsExact(inst: Instance, f: Family)
    ensures |FamilyVars(f, TableOf(inst, f).order)| == |TableOf(inst, f).order|
    ensures forall p :: PairVar(f, p) in FamilyVars(f, TableOf(inst, f).order) <==> p in TableOf(inst, f).cost
    ensures Distinct(FamilyVars(f, TableOf(inst, f).order))
  {
    var t := TableOf(inst, f);
    var vs := FamilyVars(f, t.order);
    forall p ensures PairVar(f, p) in vs <==> p in t.cost {
      if PairVar(f, p) in vs {
        var i :| 0 <= i < |vs| && vs[i] == PairVar(f, p);
        assert t.order[i] == p;
      }
      if p in t.cost {
        assert p in set q | q in t.order;
        var i :| 0 <= i < |t.order| && t.order[i] == p;
        assert vs[i] == PairVar(f, p);
      }
    }
  }

  /**
   The variables are exactly one per hub and one per key of each pair-keyed cost table,
   and no variable is created twice when the hub list names each hub once.
   */
  lemma VariablesExact(inst: Instance)
    ensures |Variables(inst)| == |inst.hubs| + |inst.clientSat.order| + |inst.satHub.order| + |inst.hubHub.order|
    ensures forall v :: v in Variables(inst) <==> IsVariable(inst, v)
    ensures Distinct(inst.hubs) ==> Distinct(Variables(inst))
  {
    var ys := seq(|inst.hubs|, i requires 0 <= i < |inst.hubs| => Y(inst.hubs[i]));
    var xs := FamilyVars(ClientSatellite, inst.clientSat.order);
    var zs := FamilyVars(SatelliteHub, inst.satHub.order);
    var ls := FamilyVars(HubHub, inst.hubHub.order);
    FamilyVarsExact(inst, ClientSatellite);
    FamilyVarsExact(inst, SatelliteHub);
    FamilyVarsExact(inst, HubHub);
    assert Variables(inst) == ys + xs + zs + ls;
    forall v ensures v in Variables(inst) <==> IsVariable(inst, v) {
      match v
      case Y(h) =>
        if h in inst.hubs {
          var i :| 0 <= i < |inst.hubs| && inst.hubs[i] == h;
          assert ys[i] == v;
        }
        assert v !in xs && v !in zs && v !in ls;
      case X(c, s) =>
        assert v == PairVar(ClientSatellite, (c, s));
      case Z(s, h) =>
        assert v == PairVar(SatelliteHub, (s, h));
      case Xhh(h1, h2) =>
        assert v == PairVar(HubHub, (h1, h2));
    }
    if Distinct(inst.hubs) {
      DistinctConcat(ys, xs);
      DistinctConcat(ys + xs, zs);
      DistinctConcat(ys + xs + zs, ls);
    }
  }

  lemma DistinctConcat(us: seq<Var>, ws: seq<Var>)
    requires Distinct(us) && Distinct(ws)
    requires forall v :: v in us ==> v !in ws
    ensures Distinct(us + ws)
  {
    forall i, j | 0 <= i < j < |us + ws| ensures (us + ws)[i] != (us + ws)[j] {
      if j >= |us| && i < |us| {
        assert (us + ws)[i] in us && (us + ws)[j] in ws;
      }
    }
  }

  /** A solver assignment: the value of each decision variable. */
  type Assignment = map<Var, bool>

  /** The assignment gives a value to exactly the variables of the model. */
  ghost predicate Shaped(inst: Instance, a: Assignment) {
    forall v :: v in a <==> IsVariable(inst, v)
  }

  /** Variable `v` has the value 1. */
  predicate On(a: Assignment, v: Var) {
    v in a && a[v]
  }

  /** The 0/1 value of variable `v`. */
  function Bit(a: Assignment, v: Var): nat {
    if On(a, v) then 1 else 0
  }

  /** The sum of the values of a list of variables. */
  function Count(a: Assignment, vs: seq<Var>): nat {
    if vs == [] then 0 else Bit(a, vs[0]) + Count(a, vs[1..])
  }

  /** `[X[c, s] for s in sats if (c, s) in X_cs]`: the left side of constraint 1 (line 61). */
  function ClientRow(c: Node, sats: seq<Node>, cs: CostTable): (r: seq<Var>)
    ensures forall v :: v in r <==> v.X? && v.client == c && v.satellite in sats && (c, v.satellite) in cs.cost
    ensures Distinct(sats) ==> Distinct(r)
  {
    if sats == [] then []
    else
      var rest := ClientRow(c, sats[1..], cs);
      if (c, sats[0]) in cs.cost then
        assert Distinct(sats) ==> sats[0] !in sats[1..];
        [X(c, sats[0])] + rest
      else rest
  }

  /** `[Z[s, h] for h in hubs if (s, h) in Z_sh]`: the left side of constraint 2 (line 64). */
  function HubRow(s: Node, hubs: seq<Node>, sh: CostTable): (r: seq<Var>)
    ensures forall v :: v in r <==> v.Z? && v.satellite == s && v.hub in hubs && (s, v.hub) in sh.cost
  {
    if hubs == [] then []
    else
      var rest := HubRow(s, hubs[1..], sh);
      if (s, hubs[0]) in sh.cost then [Z(s, hubs[0])] + rest else rest
  }

  /** `[X[c, s] for c in clients if (c, s) in X_cs]`: the clients charged to `s` (line 53). */
  function SatelliteColumn(s: Node, clients: seq<Node>, cs: CostTable): (r: seq<Var>)
    ensures forall v :: v in r <==> v.X? && v.satellite == s && v.client in clients && (v.client, s) in cs.cost
    ensures Distinct(clients) ==> Distinct(r)
  {
    if clients == [] then []
    else
      var rest := SatelliteColumn(s, clients[1..], cs);
      if (clients[0], s) in cs.cost then
        assert Distinct(clients) ==> clients[0] !in clients[1..];
        [X(clients[0], s)] + rest
      else rest
  }

  /**
   The model's constraints (lines 59-67) on an assignment of its variables: every client
   has exactly one allowed satellite with value 1, every satellite at least one allowed
   hub with value 1, and a satellite is routed only to an opened hub.
   */
  ghost predicate Feasible(inst: Instance, a: Assignment) {
    && Shaped(inst, a)
    && (forall c :: c in inst.clients ==> Count(a, ClientRow(c, inst.satellites, inst.clientSat)) == 1)
    && (forall s :: s in inst.satellites ==> Count(a, HubRow(s, inst.hubs, inst.satHub)) >= 1)
    && (forall p :: p in inst.satHub.cost ==> Bit(a, Z(p.0, p.1)) <= Bit(a, Y(p.1)))
  }

  /** Sum of the hub fixed costs of the opened hubs (line 52). */
  function HubTerm(hubs: seq<Node>, hubCost: map<Node, real>, a: Assignment): real
    requires forall h :: h in hubs ==> h in hubCost
  {
    if hubs == [] then 0.0
    else hubCost[hubs[0]] * Bit(a, Y(hubs[0])) as real + HubTerm(hubs[1..], hubCost, a)
  }

  /**
   Each satellite's fixed cost times the number of clients assigned to it (line 53): the
   source charges the fixed cost per served client, not once per satellite in use.
   */
  function SatelliteTerm(sats: seq<Node>, satCost: map<Node, real>, clients: seq<Node>, cs: CostTable, a: Assignment): real
    requires forall s :: s in sats ==> s in satCost
  {
    if sats == [] then 0.0
    else
      satCost[sats[0]] * Count(a, SatelliteColumn(sats[0], clients, cs)) as real
      + SatelliteTerm(sats[1..], satCost, clients, cs, a)
  }

  /** Sum of the costs of the pairs of family `f` whose variable is 1 (lines 54-56). */
  function PairTerm(f: Family, order: seq<Pair>, cost: map<Pair, real>, a: Assignment): real
    requires forall p :: p in order ==> p in cost
  {
    if order == [] then 0.0
    else cost[order[0]] * Bit(a, PairVar(f, order[0])) as real + PairTerm(f, order[1..], cost, a)
  }

  /** The objective the solver minimises (lines 51-57). */
  function Objective(inst: Instance, a: Assignment): real
    requires WellFormed(inst)
  {
    HubTerm(inst.hubs, inst.hubCost, a)
    + SatelliteTerm(inst.satellites, inst.satCost, inst.clients, inst.clientSat, a)
    + PairTerm(ClientSatellite, inst.clientSat.order, inst.clientSat.cost, a)
    + PairTerm(SatelliteHub, inst.satHub.order, inst.satHub.cost, a)
    + PairTerm(HubHub, inst.hubHub.order, inst.hubHub.cost, a)
  }

  /** Client `c` is served by satellite `s`: a listed satellite, an allowed pair, `X[c,s]` = 1. */
  predicate ServedBy(inst: Instance, a: Assignment, c: Node, s: Node) {
    s in inst.satellites && (c, s) in inst.clientSat.cost && On(a, X(c, s))
  }

  /** Satellite `s` is routed to hub `h`: a listed hub, an allowed pair, `Z[s,h]` = 1. */
  predicate RoutedTo(inst: Instance, a: Assignment, s: Node, h: Node) {
    h in inst.hubs && (s, h) in inst.satHub.cost && On(a, Z(s, h))
  }

  /**
   The constraints read as statements about satellites and hubs instead of sums: each
   client has exactly one serving satellite, each satellite some hub, and every routed
   hub is open.
   */
  ghost predicate FeasibleBySets(inst: Instance, a: Assignment) {
    && Shaped(inst, a)
    && (forall c :: c in inst.clients ==>
          exists s :: ServedBy(inst, a, c, s) && forall t :: ServedBy(inst, a, c, t) ==> t == s)
    && (forall s :: s in inst.satellites ==> exists h :: RoutedTo(inst, a, s, h))
    && (forall p :: p in inst.satHub.cost && On(a, Z(p.0, p.1)) ==> On(a, Y(p.1)))
  }

  /** A sum of 0/1 values is at least 1 exactly when one of the variables is 1. */
  lemma {:induction false} CountPositive(a: Assignment, vs: seq<Var>)
    ensures Count(a, vs) >= 1 <==> exists v :: v in vs && On(a, v)
  {
    if vs != [] {
      CountPositive(a, vs[1..]);
      assert forall v :: v in vs <==> v == vs[0] || v in vs[1..];
    }
  }

  /**
   A sum of 0/1 values equals 1 only when exactly one of the variables is 1, and, for a
   list without repetitions, whenever exactly one is.
   */
  lemma {:induction false} CountOne(a: Assignment, vs: seq<Var>)
    ensures Count(a, vs) == 1 ==>
      exists v :: v in vs && On(a, v) && forall w :: w in vs && On(a, w) ==> w == v
    ensures Distinct(vs) && (exists v :: v in vs && On(a, v) && forall w :: w in vs && On(a, w) ==> w == v) ==>
      Count(a, vs) == 1
  {
    if vs != [] {
      var rest := vs[1..];
      CountOne(a, rest);
      CountPositive(a, rest);
      assert forall v :: v in vs <==> v == vs[0] || v in rest;
      if Distinct(vs) {
        assert Distinct(rest);
        assert vs[0] !in rest;
      }
    }
  }

  /** Constraint 1 (lines 60-61): in a feasible assignment each client has exactly one satellite. */
  lemma FeasibleClientServedOnce(inst: Instance, a: Assignment, c: Node)
    requires Feasible(inst, a) && c in inst.clients
    ensures exists s :: ServedBy(inst, a, c, s) && forall t :: ServedBy(inst, a, c, t) ==> t == s
  {
    var row := ClientRow(c, inst.satellites, inst.clientSat);
    CountOne(a, row);
    var v :| v in row && On(a, v) && forall w :: w in row && On(a, w) ==> w == v;
    assert ServedBy(inst, a, c, v.satellite);
    forall t | ServedBy(inst, a, c, t) ensures t == v.satellite {
      assert X(c, t) in row;
    }
  }

  /** Constraint 2 (lines 63-64): in a feasible assignment each satellite reaches a hub. */
  lemma FeasibleSatelliteRouted(inst: Instance, a: Assignment, s: Node)
    requires Feasible(inst, a) && s in inst.satellites
    ensures exists h :: RoutedTo(inst, a, s, h)
  {
    var row := HubRow(s, inst.hubs, inst.satHub);
    CountPositive(a, row);
    var v :| v in row && On(a, v);
    assert RoutedTo(inst, a, s, v.hub);
  }

  /**
   The sums of the constraints say what they are meant to say: with a satellite list that
   names each satellite once, an assignment is feasible exactly when every client has one
   serving satellite, every satellite is routed to a hub, and only open hubs are used.
   */
  lemma FeasibleMeaning(inst: Instance, a: Assignment)
    requires Distinct(inst.satellites)
    ensures Feasible(inst, a) <==> FeasibleBySets(inst, a)
  {
    if Feasible(inst, a) {
      forall c | c in inst.clients
        ensures exists s :: ServedBy(inst, a, c, s) && forall t :: ServedBy(inst, a, c, t) ==> t == s
      {
        FeasibleClientServedOnce(inst, a, c);
      }
      forall s | s in inst.satellites ensures exists h :: RoutedTo(inst, a, s, h) {
        FeasibleSatelliteRouted(inst, a, s);
      }
    }
    if FeasibleBySets(inst, a) {
      forall c | c in inst.clients
        ensures Count(a, ClientRow(c, inst.satellites, inst.clientSat)) == 1
      {
        var row := ClientRow(c, inst.satellites, inst.clientSat);
        var s :| ServedBy(inst, a, c, s) && forall t :: ServedBy(inst, a, c, t) ==> t == s;
        assert X(c, s) in row;
        forall w | w in row && On(a, w) ensures w == X(c, s) {
          assert ServedBy(inst, a, c, w.satellite);
        }
        CountOne(a, row);
      }
      forall s | s in inst.satellites
        ensures Count(a, HubRow(s, inst.hubs, inst.satHub)) >= 1
      {
        var h :| RoutedTo(inst, a, s, h);
        assert Z(s, h) in HubRow(s, inst.hubs, inst.satHub);
        CountPositive(a, HubRow(s, inst.hubs, inst.satHub));
      }
    }
  }

  /** A client with no allowed satellite makes the model infeasible (it is not dropped). */
  lemma ClientWithoutSatelliteInfeasible(inst: Instance, a: Assignment, c: Node)
    requires c in inst.clients
    requires forall s :: s in inst.satellites ==> (c, s) !in inst.clientSat.cost
    ensures !Feasible(inst, a)
  {
    if Feasible(inst, a) {
      FeasibleClientServedOnce(inst, a, c);
    }
  }

  /** A satellite with no allowed hub makes the model infeasible. */
  lemma SatelliteWithoutHubInfeasible(inst: Instance, a: Assignment, s: Node)
    requires s in inst.satellites
    requires forall h :: h in inst.hubs ==> (s, h) !in inst.satHub.cost
    ensures !Feasible(inst, a)
  {
    if Feasible(inst, a) {
      FeasibleSatelliteRouted(inst, a, s);
    }
  }

  /** The assignment with every hub-hub link variable set to 0 and every other value kept. */
  function WithoutLinks(a: Assignment): Assignment {
    map v | v in a :: !v.Xhh? && a[v]
  }

  lemma {:induction false} CountAgree(a: Assignment, b: Assignment, vs: seq<Var>)
    requires forall v :: v in vs ==> On(a, v) == On(b, v)
    ensures Count(a, vs) == Count(b, vs)
  {
    if vs != [] {
      CountAgree(a, b, vs[1..]);
    }
  }

  /**
   No constraint mentions a hub-hub link variable: two assignments of the model that
   differ only in link variables are both feasible or both infeasible.
   */
  lemma LinksUnconstrained(inst: Instance, a: Assignment, b: Assignment)
    requires Shaped(inst, a) && Shaped(inst, b)
    requires forall v: Var :: !v.Xhh? ==> On(a, v) == On(b, v)
    ensures Feasible(inst, a) <==> Feasible(inst, b)
  {
    forall c | c in inst.clients
      ensures Count(a, ClientRow(c, inst.satellites, inst.clientSat)) == Count(b, ClientRow(c, inst.satellites, inst.clientSat))
    {
      CountAgree(a, b, ClientRow(c, inst.satellites, inst.clientSat));
    }
    forall s | s in inst.satellites
      ensures Count(a, HubRow(s, inst.hubs, inst.satHub)) == Count(b, HubRow(s, inst.hubs, inst.satHub))
    {
      CountAgree(a, b, HubRow(s, inst.hubs, inst.satHub));
    }
  }

  lemma {:induction false} HubTermAgree(hubs: seq<Node>, hubCost: map<Node, real>, a: Assignment, b: Assignment)
    requires forall h :: h in hubs ==> h in hubCost
    requires forall h :: h in hubs ==> On(a, Y(h)) == On(b, Y(h))
    ensures HubTerm(hubs, hubCost, a) == HubTerm(hubs, hubCost, b)
  {
    if hubs != [] {
      HubTermAgree(hubs[1..], hubCost, a, b);
    }
  }

  lemma {:induction false} SatelliteTermAgree(sats: seq<Node>, satCost: map<Node, real>, clients: seq<Node>, cs: CostTable, a: Assignment, b: Assignment)
    requires forall s :: s in sats ==> s in satCost
    requires forall v: Var :: v.X? ==> On(a, v) == On(b, v)
    ensures SatelliteTerm(sats, satCost, clients, cs, a) == SatelliteTerm(sats, satCost, clients, cs, b)
  {
    if sats != [] {
      CountAgree(a, b, SatelliteColumn(sats[0], clients, cs));
      SatelliteTermAgree(sats[1..], satCost, clients, cs, a, b);
    }
  }

  lemma {:induction false} PairTermAgree(f: Family, order: seq<Pair>, cost: map<Pair, real>, a: Assignment, b: Assignment)
    requires forall p :: p in order ==> p in cost
    requires forall p :: p in order ==> On(a, PairVar(f, p)) == On(b, PairVar(f, p))
    ensures PairTerm(f, order, cost, a) == PairTerm(f, order, cost, b)
  {
    if order != [] {
      PairTermAgree(f, order[1..], cost, a, b);
    }
  }

  /** A cost sum is 0 when no variable of its family is 1. */
  lemma {:induction false} PairTermAllOff(f: Family, order: seq<Pair>, cost: map<Pair, real>, a: Assignment)
    requires forall p :: p in order ==> p in cost
    requires forall p :: p in order ==> !On(a, PairVar(f, p))
    ensures PairTerm(f, order, cost, a) == 0.0
  {
    if order != [] {
      PairTermAllOff(f, order[1..], cost, a);
    }
  }

  /**
   With costs that are never negative a cost sum is never negative, and with positive
   costs it is 0 exactly when no variable of the family is 1.
   */
  lemma {:induction false} PairTermSign(f: Family, order: seq<Pair>, cost: map<Pair, real>, a: Assignment)
    requires forall p :: p in order ==> p in cost && cost[p] >= 0.0
    ensures PairTerm(f, order, cost, a) >= 0.0
    ensures (forall p :: p in order ==> cost[p] > 0.0) ==>
      (PairTerm(f, order, cost, a) == 0.0 <==> forall p :: p in order ==> !On(a, PairVar(f, p)))
  {
    if order != [] {
      PairTermSign(f, order[1..], cost, a);
      assert forall p :: p in order <==> p == order[0] || p in order[1..];
    }
  }

  /**
   Turning every link off removes exactly the hub-hub term from the objective and keeps
   every other term.
   */
  lemma ObjectiveWithoutLinks(inst: Instance, a: Assignment)
    requires WellFormed(inst)
    ensures Objective(inst, WithoutLinks(a))
         == Objective(inst, a) - PairTerm(HubHub, inst.hubHub.order, inst.hubHub.cost, a)
  {
    var b := WithoutLinks(a);
    HubTermAgree(inst.hubs, inst.hubCost, a, b);
    SatelliteTermAgree(inst.satellites, inst.satCost, inst.clients, inst.clientSat, a, b);
    PairTermAgree(ClientSatellite, inst.clientSat.order, inst.clientSat.cost, a, b);
    PairTermAgree(SatelliteHub, inst.satHub.order, inst.satHub.cost, a, b);
    PairTermAllOff(HubHub, inst.hubHub.order, inst.hubHub.cost, b);
  }

  /**
   Links never help: with hub-hub costs that are never negative, turning every link off
   keeps a feasible assignment feasible and never raises the objective; with positive
   costs it lowers the objective whenever some link was on.
   */
  lemma LinksNeverHelp(inst: Instance, a: Assignment)
    requires WellFormed(inst) && Feasible(inst, a)
    requires forall p :: p in inst.hubHub.cost ==> inst.hubHub.cost[p] >= 0.0
    ensures Feasible(inst, WithoutLinks(a))
    ensures Objective(inst, WithoutLinks(a)) <= Objective(inst, a)
    ensures (forall p :: p in inst.hubHub.cost ==> inst.hubHub.cost[p] > 0.0) &&
            (exists p :: p in inst.hubHub.cost && On(a, Xhh(p.0, p.1))) ==>
              Objective(inst, WithoutLinks(a)) < Objective(inst, a)
  {
    LinksUnconstrained(inst, a, WithoutLinks(a));
    ObjectiveWithoutLinks(inst, a);
    PairTermSign(HubHub, inst.hubHub.order, inst.hubHub.cost, a);
    if exists p :: p in inst.hubHub.cost && On(a, Xhh(p.0, p.1)) {
      var p :| p in inst.hubHub.cost && On(a, Xhh(p.0, p.1));
      assert p in inst.hubHub.order && On(a, PairVar(HubHub, p));
    }
  }
}
