# Two-echelon hub-satellite-client location model and its solution report

`algotimo.py` builds a mixed-integer model of a two-echelon distribution network. Its
inputs are:

- candidate hubs, satellites and clients;
- client demands and a vehicle capacity;
- hub and satellite fixed costs;
- three sparse pair cost tables: client-satellite, satellite-hub and hub-hub.

The script creates one 0/1 variable per hub (`Y`) and one per allowed pair (`X_cs`,
`Z_sh`, `X_hh`). It minimises a five-term cost under three constraint families, hands
the model to an OR-Tools/SCIP solver, and prints a report: the active hubs, the
satellite-hub assignments, one route per satellite that serves clients (with a
capacity warning and a route cost), any inter-hub links, and the total cost.

The Dafny project has six modules, one file each:

- `InstanceData` (`instance.dfy`): nodes, demands, capacity and cost tables. A pair
  table is an ordered dictionary, because Python dicts keep insertion order and the
  report walks them in that order. `WellFormed` collects the lookups made without a
  guard while the model is built (hub and satellite fixed costs, `Y[h]` for every hub of
  the satellite-hub table). The report's demand lookups depend on the solution, so the
  report handles them itself.
- `MipModel` (`model.dfy`): the variables, the feasibility predicate (constraints of
  lines 59-67) and the five-term objective. The objective keeps the source's quirk:
  each satellite's fixed cost is charged once per assigned client.
- `Solver` (`solver.dfy`): the solver as an oracle. An OPTIMAL result is a feasible
  minimiser, and its objective value is the objective at its values. Consequences:
  with positive hub-hub costs, as in the source's table, every optimum has all hub-hub
  links off; and an unservable client or unroutable satellite is never OPTIMAL.
- `SolutionReport` (`report.dfy`): the report as a value. Specification functions
  describe each part. The methods `AssignSatellites`, `BuildRoute`, `BuildRoutes` and
  `BuildReport` reproduce the source's loops and are proved equal to those functions.
  Further lemmas state what the report means. A run ends in one of three ways: no
  optimal solution; the KeyError of line 97, when an assigned client has no demand; or
  the full report.
- `SampleInstance` (`sample.dfy`) and `SampleReport` (`sample_report.dfy`): the
  hard-coded instance. They prove the following:
  - the client assignment is forced;
  - the unique optimum opens H1 alone, routes both satellites to it and costs 118.3
    (the hub side costs 55.5 there, against 66.8 with H2 alone and 115.5 with both
    hubs open);
  - the report of any OPTIMAL result equals the expected report.

## Model

| member | source | states |
|---|---|---|
| MipModel.FamilyVarsExact | algotimo.py:46-48 | each pair-keyed family has one variable per table key, exactly the keys of its cost table, with no repeats |
| MipModel.VariablesExact | algotimo.py:45-48 | the model's variables are exactly the listed hubs plus the keys of the three pair tables; their number is the sum of the sizes, and none is repeated when the hub list has no repeats |
| MipModel.ClientRow | algotimo.py:61 | the left side of a client's constraint holds exactly the `X[c,s]` of allowed pairs with `s` a listed satellite, without repeats |
| MipModel.HubRow | algotimo.py:64 | the left side of a satellite's coverage constraint holds exactly the `Z[s,h]` of allowed pairs with `h` a listed hub |
| MipModel.SatelliteColumn | algotimo.py:53 | the clients charged to a satellite's fixed cost are exactly the `X[c,s]` of allowed pairs with `c` a listed client |
| MipModel.CountPositive | algotimo.py:64 | a sum of 0/1 variables is at least 1 iff one of them is 1 |
| MipModel.CountOne | algotimo.py:61 | a sum of 0/1 variables equals 1 iff exactly one is 1; the reverse direction needs a list without repeats |
| MipModel.FeasibleClientServedOnce | algotimo.py:60-61 | in a feasible assignment each client has exactly one allowed satellite with value 1 |
| MipModel.FeasibleSatelliteRouted | algotimo.py:63-64 | in a feasible assignment each satellite has an allowed hub with value 1 |
| MipModel.FeasibleMeaning | algotimo.py:59-67 | the sum constraints hold iff: each client has exactly one serving satellite, each satellite is routed to a hub, and `Z[s,h]` = 1 implies `Y[h]` = 1 |
| MipModel.ClientWithoutSatelliteInfeasible | algotimo.py:60-61 | a client with no allowed satellite makes the model infeasible |
| MipModel.SatelliteWithoutHubInfeasible | algotimo.py:63-64 | a satellite with no allowed hub makes the model infeasible |
| MipModel.CountAgree | algotimo.py:61 | a sum of variables depends only on the values of its own variables |
| MipModel.LinksUnconstrained | algotimo.py:59-67 | no constraint mentions `X_hh`: assignments that differ only in link variables are both feasible or both infeasible |
| MipModel.HubTermAgree | algotimo.py:52 | the hub fixed-cost term depends only on the `Y` values |
| MipModel.SatelliteTermAgree | algotimo.py:53 | the satellite term depends only on the `X` values |
| MipModel.PairTermAgree | algotimo.py:54-56 | a pair-cost term depends only on its own family's values |
| MipModel.PairTermAllOff | algotimo.py:56 | a pair-cost term is 0 when every variable of its family is 0 |
| MipModel.PairTermSign | algotimo.py:56 | with non-negative costs a pair-cost term is non-negative; with positive costs it is 0 iff every variable of its family is 0 |
| MipModel.ObjectiveWithoutLinks | algotimo.py:51-57 | turning every link off removes exactly the hub-hub term and keeps the other four terms |
| MipModel.LinksNeverHelp | algotimo.py:48-67 | turning links off keeps feasibility and never raises the objective; with positive costs it strictly lowers it whenever a link was on |
| Solver.OptimumWithoutLinks | algotimo.py:51-70 | an optimum with every link turned off is still an optimum at the same cost |
| Solver.OptimumHasNoLinks | algotimo.py:41-70 | with positive hub-hub costs every optimum has all `X_hh` = 0 |
| Solver.UnservableClientNeverOptimal | algotimo.py:60-70 | a client with no allowed satellite rules out an OPTIMAL status |
| Solver.UnroutableSatelliteNeverOptimal | algotimo.py:63-70 | a satellite with no allowed hub rules out an OPTIMAL status |
| SolutionReport.ActiveHubs | algotimo.py:79 | the active hubs are exactly the listed hubs with `Y` = 1, without repeats |
| SolutionReport.ActiveHubsInOrder | algotimo.py:79 | the active hubs keep the order of `hubs`: any two of them appear in `hubs` in the same order |
| SolutionReport.SatelliteLinks | algotimo.py:84-89 | the printed satellite-hub lines are exactly the `Z_sh` keys with value 1, each with its table cost, and each listed once |
| SolutionReport.SatelliteLinksInOrder | algotimo.py:84-89 | the satellite-hub lines follow the key order of `Z_sh`: any two of them have their keys in the same order |
| SolutionReport.LastRoutedPrefix | algotimo.py:84-86 | a final `Z_sh` key that is not an on-key of `s` does not change which key is the last one routing `s` |
| SolutionReport.HubAssignmentLastWins | algotimo.py:83-86 | `asignaciones_sh` has `s` iff some `Z[s,h]` is 1, and maps it to the hub of the last such key in table order |
| SolutionReport.RoutedSatelliteHasHub | algotimo.py:83-86 | a satellite with some `Z` on gets an entry, and the entry is a routed allowed hub |
| SolutionReport.FeasibleHubLookup | algotimo.py:98 | in a feasible assignment every satellite has an entry in `asignaciones_sh`, so the lookup never fails; the hub it names is routed and open |
| SolutionReport.AssignedClients | algotimo.py:93 | `clientes_asignados` holds exactly the clients with `X[c,s]` = 1, without repeats |
| SolutionReport.AssignedClientsInOrder | algotimo.py:93 | the assigned clients keep the key order of `X_cs`: any two of them have their keys in the same order |
| SolutionReport.MissingDemandMeaning | algotimo.py:97 | the demand lookup fails for some route exactly when a listed satellite has an assigned client without a demand |
| SolutionReport.Deliveries | algotimo.py:110-116 | one delivery per assigned client, in order, with its demand and client-satellite cost |
| SolutionReport.RoutesStep | algotimo.py:92-98 | one step of the satellite loop: it skips a satellite without clients, and otherwise appends that satellite's route through its hub |
| SolutionReport.RoutesMeaning | algotimo.py:92-119 | each route belongs to a satellite that serves clients. It lists exactly its clients with `X` = 1, goes through the mapped hub, sums demands and costs, and warns iff demand > capacity (strict). Every satellite with clients gets a route, and no satellite gets two |
| SolutionReport.RoutesInOrder | algotimo.py:92 | the routes follow the order of `satelites`: any two routes' satellites appear in the list in the same order |
| SolutionReport.HubLinks | algotimo.py:122 | the listed inter-hub links are exactly the `X_hh` keys with value 1, each with its cost, and each listed once |
| SolutionReport.HubLinksInOrder | algotimo.py:122-126 | the inter-hub links follow the key order of `X_hh`: any two of them have their keys in the same order |
| SolutionReport.RouteClient | algotimo.py:93 | a client appears in a route iff its pair with the route's satellite is allowed and on |
| SolutionReport.ClientRouteExists | algotimo.py:92-95 | a client served by a listed satellite appears in that satellite's route |
| SolutionReport.ClientInOneRoute | algotimo.py:92-110 | a client served by exactly one satellite appears in exactly one route |
| SolutionReport.EachClientDeliveredOnce | algotimo.py:92-110 | in a feasible report every client appears in exactly one route |
| SolutionReport.ReportConsistent | algotimo.py:79-98 | the active hubs are exactly the open hubs; every route's hub is active and is one of the listed satellite-hub lines |
| SolutionReport.NoHubLinksMeaning | algotimo.py:122-128 | the report takes the "no direct links" branch iff every `X_hh` is 0 |
| SolutionReport.OptimalReportHasNoHubLinks | algotimo.py:122-131 | for an OPTIMAL result with positive hub-hub costs the report lists no links, and its total is the objective |
| SolutionReport.AssignSatellites | algotimo.py:83-89 | the loop fills `asignaciones_sh` (last key wins) and the satellite-hub lines exactly as specified |
| SolutionReport.BuildRoute | algotimo.py:97-118 | the route body computes the demand total, the strict capacity warning, the deliveries and the route cost |
| SolutionReport.BuildRoutes | algotimo.py:92-119 | the satellite loop produces exactly the specified routes, skipping satellites without clients |
| SolutionReport.BuildReport | algotimo.py:73-135 | a non-OPTIMAL status gives only "no optimal solution"; OPTIMAL with an assigned client lacking a demand gives the KeyError outcome of line 97, and otherwise exactly the specified report |
| SampleInstance.HubSideMinimum | algotimo.py:30-67 | under coverage and activation the hub side costs at least 55.5, and equals 55.5 only with H1 alone open and both satellites routed to it; with H1 closed it costs at least 66.8 |
| SampleInstance.SampleWellFormed | algotimo.py:9-42 | on the hard-coded instance none of the lookups made while the model is built fails |
| SampleInstance.SampleObjective | algotimo.py:29-57 | the sample's objective as a linear expression in its 13 variables |
| SampleInstance.ForcedSatellite | algotimo.py:60-61 | a client with a single allowed satellite is served by it in every feasible assignment |
| SampleInstance.SampleClientsForced | algotimo.py:32-61 | in the sample every feasible assignment has S1 serving C1, C2, C5 and S2 serving C3, C4 |
| SampleInstance.SampleHubConstraints | algotimo.py:63-67 | the sample's coverage and activation constraints, in its variables |
| SampleInstance.SampleLowerBound | algotimo.py:29-67 | every feasible sample assignment costs at least 118.3; one costing exactly 118.3 opens H1 alone and routes both satellites to it with no links |
| SampleInstance.OptimumFeasible | algotimo.py:59-67 | the named optimum is feasible |
| SampleInstance.SampleOptimal | algotimo.py:51-70 | the named optimum minimises the sample's objective, at 118.3 |
| SampleInstance.SampleOptimumUnique | algotimo.py:51-70 | every minimiser of the sample is the named optimum |
| SampleInstance.CheapestIsOptimum | algotimo.py:51-67 | a feasible sample assignment costing at most 118.3 is the named optimum |
| SampleInstance.SampleDemandsKnown | algotimo.py:26-36 | every client of the sample's client-satellite table has a demand, so the lookup of line 97 never fails on the sample |
| SampleReport.ReportActiveHubs | algotimo.py:79 | at the optimum the active hubs are `[H1]` |
| SampleReport.ReportSatelliteLinks | algotimo.py:84-89 | at the optimum S1 and S2 are assigned to H1, at costs 3.0 and 2.5 |
| SampleReport.ReportHubOf | algotimo.py:83-86 | at the optimum `asignaciones_sh` maps S1 and S2 to H1 |
| SampleReport.ReportHubLinks | algotimo.py:122-128 | at the optimum there are no inter-hub links |
| SampleReport.RouteForS1 | algotimo.py:97-118 | S1's route: C1, C2, C5, demand 32 (> 30, warning), cost 5.3 |
| SampleReport.RouteForS2 | algotimo.py:97-118 | S2's route: C3, C4, demand 20 (no warning), cost 3.5 |
| SampleReport.ReportRoutes | algotimo.py:92-119 | at the optimum the routes are exactly S1's then S2's |
| SampleReport.SampleSolved | algotimo.py:70-131 | an OPTIMAL result for the sample has the optimum's values and objective value 118.3 |
| SampleReport.SampleReportPrinted | algotimo.py:73-131 | the report of an OPTIMAL result for the sample is exactly the expected report |

## Left out

- Solver creation and solving (`CreateSolver`, `Solve`, `solution_value`,
  `Objective().Value()`, lines 4-6, 70, 131): foreign calls into OR-Tools/SCIP. They are
  the `Solver` oracle: a result with a status, values and an objective value, with a
  contract only for OPTIMAL.
- The exception raised when no solver can be created (line 6): environment plumbing.
- The `> 0.5` threshold on floating solver values (lines 79, 85, 93, 122): values are
  modelled directly as booleans.
- The `ubicaciones` names, addresses and coordinates (lines 14-24): used only in printed
  text, so the report carries node ids instead.
- All `print` text, separators and number formatting (lines 74-132): the report is a
  structured value. Its fields are the printed facts.
- Costs are `real`. The integer literals of the source (hub and satellite costs) are
  the same numbers. Floating-point rounding of sums is not modelled.
- The `KeyError`s the source would raise while building the model (a hub or satellite
  without a fixed cost, a satellite-hub key naming an unlisted hub) are not modelled as
  errors. `WellFormed` is a precondition that rules them out, and the source's own data
  satisfies it (`SampleInstance.SampleWellFormed`). The demand KeyError of line 97 is
  modelled: it is the `MissingDemand` outcome.
- SolutionReport.BuildReport: the lookups `ubicaciones[h]['nombre']` (line 87) and
  `ubicaciones[c]['nombre']`, `ubicaciones[c]['direccion']` (lines 112-113) are not
  modelled. The model behaves as if every printed hub and client has a location entry,
  so it never reports their KeyError. The lines printed before the demand KeyError are
  not part of the `MissingDemand` outcome.
- SolutionReport.ReportOf: the report of a result is defined only when every assigned
  client has a demand. The lemmas about it (`ReportConsistent`, `NoHubLinksMeaning`,
  `EachClientDeliveredOnce`, `OptimalReportHasNoHubLinks`) carry the same requirement,
  because otherwise the source stops with a KeyError before finishing the report.
- A pair key whose node is missing from the node lists: such a key still creates a
  variable, as in the source, and is simply absent from the constraint sums.
- SolutionReport.BuildReport: requires that an OPTIMAL result's values be feasible
  (the oracle's promise), instead of deriving it from the solver contract.
