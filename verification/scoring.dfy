/** A player's score and reinforcements (`Player.update_victory_points`,
    `Player.get_ground_reinforces`,
    `Player.update_ground_reinforces_power_places`). */
module Scoring {
  import opened Optional
  import opened Territory

  datatype Player = Player(id: PlayerId, victoryPoints: int)

  /** Ground reinforcements for a player holding `territories` ground areas:
      one below three areas, three up to eleven, a third (rounded down)
      beyond. */
  function ReinforcementsFor(territories: int): (r: int)
    ensures r >= 1
    ensures territories < 3 ==> r == 1
    ensures territories >= 3 ==> r == Max(3, territories / 3)
    ensures 3 * r <= Max(9, territories)
  {
    if territories > 11 then territories / 3
    else if 3 <= territories <= 11 then 3
    else 1
  }

  function Max(a: int, b: int): int {
    if a >= b then a else b
  }

  /** `get_ground_reinforces`: the rule applied to this player's count. */
  function GroundReinforces(p: Player, territoriesPerPlayers: seq<int>): (r: int)
    requires p.id < |territoriesPerPlayers|
    ensures var n := territoriesPerPlayers[p.id];
            && (n < 3 ==> r == 1)
            && (3 <= n <= 11 ==> r == 3)
            && (n > 11 ==> 3 * r <= n < 3 * r + 3)
  {
    ReinforcementsFor(territoriesPerPlayers[p.id])
  }

  /** Holding more territories never earns fewer reinforcements. */
  lemma ReinforcementsMonotone(n: int, m: int)
    requires n <= m
    ensures ReinforcementsFor(n) <= ReinforcementsFor(m)
  {
  }

  /** The largest count in a non-empty list. */
  function MaxOf(s: seq<int>): (m: int)
    requires |s| > 0
    ensures m in s
    ensures forall i :: 0 <= i < |s| ==> s[i] <= m
  {
    if |s| == 1 then s[0]
    else
      var m := MaxOf(s[..|s| - 1]);
      assert s == s[..|s| - 1] + [s[|s| - 1]];
      if s[|s| - 1] > m then s[|s| - 1] else m
  }

  /** Indices, below `n` and in increasing order, whose count equals `m`:
      the list comprehension over `enumerate(...)`. */
  function PlayersWith(s: seq<int>, m: int, n: nat): (ps: seq<nat>)
    requires n <= |s|
    ensures forall k :: 0 <= k < |ps| ==> ps[k] < n && s[ps[k]] == m
    ensures forall i :: 0 <= i < n && s[i] == m ==> i in ps
    ensures forall k, l :: 0 <= k < l < |ps| ==> ps[k] < ps[l]
  {
    if n == 0 then []
    else
      var ps := PlayersWith(s, m, n - 1);
      if s[n - 1] == m then
        ListingExtends(s, m, n, ps);
        ps + [n - 1]
      else
        ps
  }

  /** The listed indices below `n`, in increasing order, are exactly those
      holding `m`. */
  ghost predicate Listing(s: seq<int>, m: int, n: nat, ps: seq<nat>)
    requires n <= |s|
  {
    && (forall k :: 0 <= k < |ps| ==> ps[k] < n && s[ps[k]] == m)
    && (forall i :: 0 <= i < n && s[i] == m ==> i in ps)
    && (forall k, l :: 0 <= k < l < |ps| ==> ps[k] < ps[l])
  }

  lemma ListingExtends(s: seq<int>, m: int, n: nat, ps: seq<nat>)
    requires 0 < n <= |s| && s[n - 1] == m
    requires Listing(s, m, n - 1, ps)
    ensures Listing(s, m, n, ps + [n - 1])
  {
    var r := ps + [n - 1];
    assert forall k :: 0 <= k < |ps| ==> r[k] == ps[k];
    assert forall i :: i in ps ==> i in r;
  }

  /** The category test as the source writes it: the list of players with
      the maximum count is exactly this player. */
  predicate GetsCategoryPoint(counts: seq<int>, player: PlayerId)
    requires |counts| > 0
  {
    var leaders := PlayersWith(counts, MaxOf(counts), |counts|);
    |leaders| == 1 && leaders[0] == player
  }

  /** The category test as the rules state it: this player's count beats
      every other player's. A tie for the maximum gives nobody the point. */
  predicate SoleLeader(counts: seq<int>, player: PlayerId) {
    && player < |counts|
    && forall j :: 0 <= j < |counts| && j != player ==> counts[j] < counts[player]
  }

  lemma {:induction false} CategoryPointIffSoleLeader(counts: seq<int>, player: PlayerId)
    requires |counts| > 0
    ensures GetsCategoryPoint(counts, player) <==> SoleLeader(counts, player)
  {
    if GetsCategoryPoint(counts, player) {
      PointGoesToSoleLeader(counts, player);
    }
    if SoleLeader(counts, player) {
      SoleLeaderGetsPoint(counts, player);
    }
  }

  lemma PointGoesToSoleLeader(counts: seq<int>, player: PlayerId)
    requires |counts| > 0 && GetsCategoryPoint(counts, player)
    ensures SoleLeader(counts, player)
  {
    var m := MaxOf(counts);
    var leaders := PlayersWith(counts, m, |counts|);
    assert leaders == [player];
    forall j | 0 <= j < |counts| && j != player
      ensures counts[j] < counts[player]
    {
      assert j !in leaders;
    }
  }

  lemma SoleLeaderGetsPoint(counts: seq<int>, player: PlayerId)
    requires |counts| > 0 && SoleLeader(counts, player)
    ensures GetsCategoryPoint(counts, player)
  {
    var m := MaxOf(counts);
    var leaders := PlayersWith(counts, m, |counts|);
    var i :| 0 <= i < |counts| && counts[i] == m;
    assert i == player;
    assert player in leaders;
    forall k | 0 <= k < |leaders|
      ensures leaders[k] == player
    {
      assert counts[leaders[k]] == m;
    }
    AtMostOneRepeated(leaders, player);
  }

  /** A strictly increasing list repeats no value: if every entry is `x`
      there is at most one entry. */
  lemma AtMostOneRepeated(ps: seq<nat>, x: nat)
    requires forall k, l :: 0 <= k < l < |ps| ==> ps[k] < ps[l]
    ensures (forall k :: 0 <= k < |ps| ==> ps[k] == x) ==> |ps| <= 1
  {
    if |ps| > 1 {
      assert ps[0] < ps[1];
    }
  }

  function Point(earned: bool): int {
    if earned then 1 else 0
  }

  /** `update_victory_points`: the player gains its power-place points plus
      one point for each of the three categories (largest empire, most
      ground areas, most sea areas) in which it alone holds the maximum. */
  function UpdateVictoryPoints(
    p: Player,
    empireSizes: seq<int>,
    territoriesPerPlayers: seq<int>,
    seaAreasPerPlayers: seq<int>,
    powerPlaces: seq<int>): (r: Player)
    requires |empireSizes| > 0 && |territoriesPerPlayers| > 0 && |seaAreasPerPlayers| > 0
    requires p.id < |powerPlaces|
    ensures r.id == p.id
    ensures r.victoryPoints == p.victoryPoints + powerPlaces[p.id]
      + Point(SoleLeader(empireSizes, p.id))
      + Point(SoleLeader(territoriesPerPlayers, p.id))
      + Point(SoleLeader(seaAreasPerPlayers, p.id))
  {
    CategoryPointIffSoleLeader(empireSizes, p.id);
    CategoryPointIffSoleLeader(territoriesPerPlayers, p.id);
    CategoryPointIffSoleLeader(seaAreasPerPlayers, p.id);
    var points := p.victoryPoints
      + Point(GetsCategoryPoint(empireSizes, p.id))
      + Point(GetsCategoryPoint(territoriesPerPlayers, p.id))
      + Point(GetsCategoryPoint(seaAreasPerPlayers, p.id));
    p.(victoryPoints := points + powerPlaces[p.id])
  }

  /** At most one player earns each category point. */
  lemma {:induction false} CategoryPointIsExclusive(counts: seq<int>, p: PlayerId, q: PlayerId)
    requires |counts| > 0
    requires GetsCategoryPoint(counts, p) && GetsCategoryPoint(counts, q)
    ensures p == q
  {
  }

  /** The owner test as intended: the area's owner is this player and the
      area is a power place. */
  predicate OwnedPowerPlace(g: GroundArea, player: PlayerId) {
    g.owner == Some(player) && g.powerPlace
  }

  /** The values the owner test at `src/player.py:84` compares. The
      `owner` field holds a player object or `None`; `unique_id` is an
      integer. A player object defines no equality of its own, so it equals
      only itself, and never an integer. */
  datatype PyValue = PyNone | PyPlayer(id: PlayerId) | PyInt(n: int)

  function OwnerValue(g: GroundArea): PyValue {
    match g.owner
    case None => PyNone
    case Some(p) => PyPlayer(p)
  }

  /** The owner test as written: `territory.owner == self.unique_id`. */
  predicate OwnerTestAsWritten(g: GroundArea, player: PlayerId) {
    OwnerValue(g) == PyInt(player) && g.powerPlace
  }

  /** `update_ground_reinforces_power_places` as written: the owner test
      compares an owner with an integer, never holds, and so no area gains
      an army. */
  function PowerPlaceReinforcementsAsWritten(areas: seq<GroundArea>, player: PlayerId): (r: seq<GroundArea>)
    ensures r == areas
  {
    seq(|areas|, i requires 0 <= i < |areas| =>
      if OwnerTestAsWritten(areas[i], player) then areas[i].(armies := areas[i].armies + 1) else areas[i])
  }

  /** A power place owned by player 0 gains an army under the intended test
      and none under the test as written. */
  lemma PowerPlaceAsWrittenMissesOwner()
    ensures var g := GroundArea(TerritoryInfo(0, "Roma", "ground", [], 0), Some(0), 2, true);
            && OwnedPowerPlace(g, 0)
            && PowerPlaceReinforcementsAsWritten([g], 0)[0].armies == 2
            && PowerPlaceReinforcements([g], 0)[0].armies == 3
  {
  }

  /** `update_ground_reinforces_power_places` with the owner test it
      evidently intends: one extra army on every power place the player
      owns; every other area is left alone. */
  function PowerPlaceReinforcements(areas: seq<GroundArea>, player: PlayerId): (r: seq<GroundArea>)
    ensures |r| == |areas|
    ensures forall i :: 0 <= i < |areas| ==>
      r[i] == (if OwnedPowerPlace(areas[i], player) then areas[i].(armies := areas[i].armies + 1) else areas[i])
    ensures TotalArmies(r) == TotalArmies(areas) + CountPowerPlaces(areas, player)
  {
    var r := seq(|areas|, i requires 0 <= i < |areas| =>
      if OwnedPowerPlace(areas[i], player) then areas[i].(armies := areas[i].armies + 1) else areas[i]);
    PowerPlaceTotals(areas, r, player);
    r
  }

  function TotalArmies(areas: seq<GroundArea>): int {
    if areas == [] then 0 else TotalArmies(areas[..|areas| - 1]) + areas[|areas| - 1].armies
  }

  function CountPowerPlaces(areas: seq<GroundArea>, player: PlayerId): nat {
    if areas == [] then 0
    else CountPowerPlaces(areas[..|areas| - 1], player) + Point(OwnedPowerPlace(areas[|areas| - 1], player))
  }

  lemma {:induction false} PowerPlaceTotals(areas: seq<GroundArea>, r: seq<GroundArea>, player: PlayerId)
    requires |r| == |areas|
    requires forall i :: 0 <= i < |areas| ==>
      r[i] == (if OwnedPowerPlace(areas[i], player) then areas[i].(armies := areas[i].armies + 1) else areas[i])
    ensures TotalArmies(r) == TotalArmies(areas) + CountPowerPlaces(areas, player)
  {
    if areas != [] {
      var n := |areas| - 1;
      PowerPlaceTotals(areas[..n], r[..n], player);
    }
  }
}
