/** The map's nodes: every territory, the ground areas players own and
    garrison, and the sea areas where each player keeps a fleet of triremes. */
module Territory {
  import opened Optional

  /** Players are identified by their position in the game's player list. */
  type PlayerId = nat

  /** Fields every territory has, ground or sea. `coords` is carried through
      unchanged; `found` is the bookkeeping mark of a graph search. */
  datatype TerritoryInfo = TerritoryInfo(
    uniqueId: int,
    name: string,
    kind: string,
    coords: seq<int>,
    found: int)

  datatype GroundArea = GroundArea(
    info: TerritoryInfo,
    owner: Option<PlayerId>,
    armies: int,
    powerPlace: bool)

  /** `trireme[p]` is the number of triremes player `p` keeps in this sea. */
  datatype SeaArea = SeaArea(
    info: TerritoryInfo,
    alreadyFought: bool,
    trireme: seq<int>)

  /** Armies never go negative on a ground area. */
  predicate ValidGround(g: GroundArea) {
    g.armies >= 0
  }

  /** A sea area has one non-negative fleet entry per player. */
  predicate ValidSea(s: SeaArea, players: nat) {
    && |s.trireme| == players
    && forall p :: 0 <= p < |s.trireme| ==> s.trireme[p] >= 0
  }

  function FleetTotal(fleets: seq<int>): int {
    if fleets == [] then 0 else FleetTotal(fleets[..|fleets| - 1]) + fleets[|fleets| - 1]
  }

  function NewTerritory(uniqueId: int, name: string, kind: string, coords: seq<int>): (t: TerritoryInfo)
    ensures t.found == 0
    ensures Hash(t) == uniqueId
    ensures t.name == name && t.kind == kind && t.coords == coords
  {
    TerritoryInfo(uniqueId, name, kind, coords, 0)
  }

  /** A fresh ground area is unowned and garrisoned by two armies. */
  function NewGroundArea(uniqueId: int, name: string, kind: string, coords: seq<int>): (g: GroundArea)
    ensures g.owner == None && g.armies == 2 && !g.powerPlace
    ensures ValidGround(g)
    ensures g.info.found == 0 && Hash(g.info) == uniqueId
  {
    GroundArea(NewTerritory(uniqueId, name, kind, coords), None, 2, false)
  }

  /** A fresh sea area has not seen a fight and holds no trireme of anyone. */
  function NewSeaArea(uniqueId: int, name: string, kind: string, coords: seq<int>, players: nat): (s: SeaArea)
    ensures !s.alreadyFought
    ensures ValidSea(s, players)
    ensures forall p :: 0 <= p < players ==> s.trireme[p] == 0
    ensures FleetTotal(s.trireme) == 0
    ensures s.info.found == 0 && Hash(s.info) == uniqueId
  {
    var fleets := seq(players, p => 0);
    ZeroFleetsTotal(fleets);
    SeaArea(NewTerritory(uniqueId, name, kind, coords), false, fleets)
  }

  lemma {:induction false} ZeroFleetsTotal(fleets: seq<int>)
    requires forall p :: 0 <= p < |fleets| ==> fleets[p] == 0
    ensures FleetTotal(fleets) == 0
  {
    if fleets != [] {
      ZeroFleetsTotal(fleets[..|fleets| - 1]);
    }
  }

  /** A territory hashes to its identifier. */
  function Hash(t: TerritoryInfo): int {
    t.uniqueId
  }

  /** Territories that hash differently are different; the hash ignores
      every field but the identifier. */
  lemma HashIsIdentifier(s: TerritoryInfo, t: TerritoryInfo)
    ensures Hash(s) == Hash(t) <==> s.uniqueId == t.uniqueId
    ensures Hash(s) != Hash(t) ==> s != t
  {
  }
}
