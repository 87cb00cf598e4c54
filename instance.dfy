/**
 The instance of the two-echelon location problem: the node lists (hubs, satellites,
 clients), the client demands, the vehicle capacity and the five cost tables.

 Python dictionaries keep their insertion order, and the report walks the pair-keyed
 cost tables in that order, so a pair-keyed table is an ordered dictionary: the keys
 in insertion order plus the cost of each key.
 */
module InstanceData {

  /** A node identifier ('H1', 'S2', 'C5', ...). */
  type Node = string

  /** A key of a pair-keyed cost table, such as (client, satellite). */
  type Pair = (Node, Node)

  /** An ordered dictionary from node pairs to costs: `order` lists the keys as inserted. */
  datatype Table = Table(order: seq<Pair>, cost: map<Pair, real>) {

    /** The keys are listed once each, and they are exactly the keys of the map. */
    predicate Valid() {
      && Distinct(order)
      && cost.Keys == set p | p in order
    }
  }

  /** A dictionary literal of the source: always a valid ordered dictionary. */
  type CostTable = t: Table | t.Valid() witness Table([], map[])

  /**
   The instance as the source builds it: `clientes`, `satelites`, `hubs`, `demanda`,
   `capacidad_vehiculo` and the five entries of `costos`. An allowed pair is a key of
   the corresponding table; a pair that is not a key cannot be chosen.
   */
  datatype Instance = Instance(
    clients: seq<Node>,
    satellites: seq<Node>,
    hubs: seq<Node>,
    demand: map<Node, int>,
    capacity: int,
    hubCost: map<Node, real>,      // costos['hub']
    satCost: map<Node, real>,      // costos['satelite']
    clientSat: CostTable,          // costos['cliente_satelite'], keys (client, satellite)
    satHub: CostTable,             // costos['satelite_hub'], keys (satellite, hub)
    hubHub: CostTable              // costos['entre_hubs'], keys (hub, hub)
  )

  /**
   The lookups made while the model is built, before anything is solved, each of which
   would raise a KeyError: the fixed cost of every hub and every satellite (objective,
   lines 52-53) and the hub variable `Y[h]` of every hub named in the satellite-hub
   table (activation constraint, line 67). The demand lookups of the report depend on
   the solution and are handled there.
   */
  predicate WellFormed(inst: Instance) {
    && (forall h :: h in inst.hubs ==> h in inst.hubCost)
    && (forall s :: s in inst.satellites ==> s in inst.satCost)
    && (forall p :: p in inst.satHub.cost ==> p.1 in inst.hubs)
  }

  /** A list that names each element once, as the instance's node lists do. */
  predicate Distinct<T(==)>(xs: seq<T>) {
    forall i, j :: 0 <= i < j < |xs| ==> xs[i] != xs[j]
  }
}
