/**
 The MIP solver (OR-Tools with SCIP, algotimo.py:4-6 and 70) is a foreign call. It is
 specified here as an oracle: it returns a status, a value for every variable and an
 objective value, and when the status is OPTIMAL the values are a feasible assignment
 that minimises the objective and the objective value is the objective at those values.
 */
module Solver {
  import opened InstanceData
  import opened MipModel

  /** The result statuses of the solver wrapper; the report only distinguishes OPTIMAL. */
  datatype Status = Optimal | StoppedFeasible | Infeasible | Unbounded | Abnormal | ModelInvalid | NotSolved

  /** What `solver.Solve()`, `solution_value()` and `Objective().Value()` return. */
  datatype SolverResult = SolverResult(status: Status, values: Assignment, objectiveValue: real)

  /** A feasible assignment whose objective no feasible assignment improves on. */
  ghost predicate Minimises(inst: Instance, a: Assignment)
    requires WellFormed(inst)
  {
    && Feasible(inst, a)
    && forall b :: Feasible(inst, b) ==> Objective(inst, a) <= Objective(inst, b)
  }

  /** The oracle's promise about a result it returns for the model of `inst`. */
  ghost predicate SolverContract(inst: Instance, r: SolverResult)
    requires WellFormed(inst)
  {
    r.status == Optimal ==> Minimises(inst, r.values) && r.objectiveValue == Objective(inst, r.values)
  }

  /**
   Turning the links off in an optimum gives an optimum again, when no hub-hub cost is
   negative: the link variables can only add to the objective.
   */
  lemma OptimumWithoutLinks(inst: Instance, a: Assignment)
    requires WellFormed(inst) && Minimises(inst, a)
    requires forall p :: p in inst.hubHub.cost ==> inst.hubHub.cost[p] >= 0.0
    ensures Minimises(inst, WithoutLinks(a))
    ensures Objective(inst, WithoutLinks(a)) == Objective(inst, a)
  {
    LinksNeverHelp(inst, a);
  }

  /**
   With positive hub-hub costs, as in the source's table, every optimum has every link
   variable at 0: nothing forces a link on, and each one costs something.
   */
  lemma OptimumHasNoLinks(inst: Instance, a: Assignment)
    requires WellFormed(inst) && Minimises(inst, a)
    requires forall p :: p in inst.hubHub.cost ==> inst.hubHub.cost[p] > 0.0
    ensures forall p :: p in inst.hubHub.cost ==> !On(a, Xhh(p.0, p.1))
  {
    LinksNeverHelp(inst, a);
  }

  /**
   A model with a client that no satellite may serve is never reported OPTIMAL, so the
   client is never silently dropped.
   */
  lemma UnservableClientNeverOptimal(inst: Instance, r: SolverResult, c: Node)
    requires WellFormed(inst) && SolverContract(inst, r)
    requires c in inst.clients
    requires forall s :: s in inst.satellites ==> (c, s) !in inst.clientSat.cost
    ensures r.status != Optimal
  {
    ClientWithoutSatelliteInfeasible(inst, r.values, c);
  }

  /** A model with a satellite that no hub may serve is never reported OPTIMAL. */
  lemma UnroutableSatelliteNeverOptimal(inst: Instance, r: SolverResult, s: Node)
    requires WellFormed(inst) && SolverContract(inst, r)
    requires s in inst.satellites
    requires forall h :: h in inst.hubs ==> (s, h) !in inst.satHub.cost
    ensures r.status != Optimal
  {
    SatelliteWithoutHubInfeasible(inst, r.values, s);
  }
}
