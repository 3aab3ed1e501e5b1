/** Fleets at sea: moving triremes between sea areas (`Player.naval_movement`)
    and naval battle (`Player.naval_combact`). In a naval battle a tied pair
    of dice costs nobody, and a round in which every pair ties ends the
    battle in parity. */
module Naval {
  import opened Dice
  import opened Territory

  /** A naval battle in progress in one sea area: the attacking player, the
      defending player, the attacker's triremes still fighting, and whether
      the last round was a parity. */
  datatype NavalBattle = NavalBattle(
    sea: SeaArea,
    attacker: PlayerId,
    adversary: PlayerId,
    committed: int,
    parity: bool)

  /** Both players have an entry in the sea area's fleet list. */
  predicate Indexed(b: NavalBattle) {
    b.attacker < |b.sea.trireme| && b.adversary < |b.sea.trireme|
  }

  function Defenders(b: NavalBattle): int
    requires Indexed(b)
  {
    b.sea.trireme[b.adversary]
  }

  /** The round loop keeps going while both fleets are afloat and the last
      round was not a parity. */
  predicate Sailing(b: NavalBattle)
    requires Indexed(b)
  {
    b.committed > 0 && Defenders(b) > 0 && !b.parity
  }

  /** Triremes still in play, plus one while no parity has happened. */
  function Measure(b: NavalBattle): nat
    requires Indexed(b)
  {
    (if b.committed > 0 then b.committed else 0)
    + (if Defenders(b) > 0 then Defenders(b) else 0)
    + (if b.parity then 0 else 1)
  }

  /** Only the attacker's and the adversary's fleet entries may differ. */
  predicate OthersUnchanged(before: seq<int>, after: seq<int>, attacker: PlayerId, adversary: PlayerId) {
    && |after| == |before|
    && forall p :: 0 <= p < |before| && p != attacker && p != adversary ==> after[p] == before[p]
  }

  /** One round with dice already thrown and sorted from highest to lowest.
      Defender losses are applied first and attacker losses to the updated
      list, so a player fighting itself loses on both counts. */
  function Round(b: NavalBattle, att: seq<int>, def: seq<int>): (r: NavalBattle)
    requires Indexed(b) && Sailing(b)
    requires |att| == DiceCount(b.committed) && |def| == DiceCount(Defenders(b))
    ensures Indexed(r)
    ensures r.attacker == b.attacker && r.adversary == b.adversary
    ensures r.sea.info == b.sea.info && r.sea.alreadyFought == b.sea.alreadyFought
    ensures OthersUnchanged(b.sea.trireme, r.sea.trireme, b.attacker, b.adversary)
    ensures r.parity <==> forall i :: 0 <= i < Pairs(att, def) ==> att[i] == def[i]
    ensures r.parity ==> r.sea == b.sea && r.committed == b.committed
    ensures r.committed >= 0 && Defenders(r) >= 0
    ensures b.committed - r.committed == |LossesBelow(att, def, Pairs(att, def))|
    ensures b.committed - r.committed <= Pairs(att, def)
    ensures b.attacker != b.adversary ==>
      && r.sea.trireme[r.attacker] - r.committed == b.sea.trireme[b.attacker] - b.committed
      && Defenders(b) - Defenders(r) == |WinsBelow(att, def, Pairs(att, def))|
      && (b.committed - r.committed) + (Defenders(b) - Defenders(r)) + |TiesBelow(att, def, Pairs(att, def))| == Pairs(att, def)
    ensures b.attacker == b.adversary ==>
      Defenders(b) - Defenders(r) == |WinsBelow(att, def, Pairs(att, def))| + |LossesBelow(att, def, Pairs(att, def))|
    ensures Measure(r) < Measure(b)
  {
    var t := TallyPairs(att, def, Pairs(att, def));
    var afterDefender := b.sea.trireme[b.adversary := Defenders(b) - t.attackerWins];
    var afterAttacker := afterDefender[b.attacker := afterDefender[b.attacker] - t.defenderWins];
    NavalBattle(b.sea.(trireme := afterAttacker), b.attacker, b.adversary,
             b.committed - t.defenderWins, t.ties == Pairs(att, def))
  }

  /** The round loop, drawing every round's dice from the generator starting
      at draw `next`: attacker dice first, then defender dice. */
  function Fight(b: NavalBattle, dice: DieStream, next: nat): (r: NavalBattle)
    requires Indexed(b)
    ensures Indexed(r) && !Sailing(r)
    ensures r.attacker == b.attacker && r.adversary == b.adversary
    ensures r.sea.info == b.sea.info && r.sea.alreadyFought == b.sea.alreadyFought
    ensures OthersUnchanged(b.sea.trireme, r.sea.trireme, b.attacker, b.adversary)
    ensures Sailing(b) ==> r.committed >= 0 && Defenders(r) >= 0
    ensures Sailing(b) && r.parity ==> r.committed > 0 && Defenders(r) > 0
    ensures Sailing(b) && !r.parity ==> r.committed == 0 || Defenders(r) == 0
    ensures b.attacker != b.adversary ==>
      r.sea.trireme[r.attacker] - r.committed == b.sea.trireme[b.attacker] - b.committed
    ensures !Sailing(b) ==> r == b
    decreases Measure(b)
  {
    if Sailing(b) then
      var nAtt := DiceCount(b.committed);
      var nDef := DiceCount(Defenders(b));
      var att := SortDesc(Roll(dice, next, nAtt));
      var def := SortDesc(Roll(dice, next + nAtt, nDef));
      var b' := Round(b, att, def);
      var r := Fight(b', dice, next + nAtt + nDef);
      OthersUnchangedTransitive(b.sea.trireme, b'.sea.trireme, r.sea.trireme, b.attacker, b.adversary);
      r
    else
      b
  }

  lemma OthersUnchangedTransitive(xs: seq<int>, ys: seq<int>, zs: seq<int>, attacker: PlayerId, adversary: PlayerId)
    requires OthersUnchanged(xs, ys, attacker, adversary) && OthersUnchanged(ys, zs, attacker, adversary)
    ensures OthersUnchanged(xs, zs, attacker, adversary)
  {
  }

  /** `Player.naval_combact`: `attacker` attacks `adversary`'s fleet in `sea`
      with `committed` of its triremes. The battle ends with one side out of
      committed triremes, or in a parity round that left both sides afloat.
      Only the two players' entries change; when they are different players
      the attacker's entry falls exactly as its committed triremes do, so
      neither entry goes negative as long as the attacker did not commit
      more triremes than it has there. */
  function NavalCombat(sea: SeaArea, attacker: PlayerId, adversary: PlayerId, committed: int, dice: DieStream): (r: NavalBattle)
    requires attacker < |sea.trireme| && adversary < |sea.trireme|
    ensures Indexed(r) && r.attacker == attacker && r.adversary == adversary
    ensures r.sea.info == sea.info && r.sea.alreadyFought == sea.alreadyFought
    ensures OthersUnchanged(sea.trireme, r.sea.trireme, attacker, adversary)
    ensures committed > 0 && sea.trireme[adversary] > 0 ==>
      && r.committed >= 0 && Defenders(r) >= 0
      && (r.parity ==> r.committed > 0 && Defenders(r) > 0)
      && (!r.parity ==> r.committed == 0 || Defenders(r) == 0)
    ensures attacker != adversary ==>
      r.sea.trireme[attacker] - r.committed == sea.trireme[attacker] - committed
    ensures attacker != adversary && 0 <= committed <= sea.trireme[attacker] && sea.trireme[adversary] >= 0 ==>
      r.sea.trireme[attacker] >= 0 && Defenders(r) >= 0
    ensures committed <= 0 || sea.trireme[adversary] <= 0 ==>
      r.sea == sea && r.committed == committed && !r.parity
  {
    Fight(NavalBattle(sea, attacker, adversary, committed, false), dice, 0)
  }

  /** `Player.naval_movement`: `player` moves `count` triremes from one sea
      area to another. Its total over the two areas is unchanged and so is
      every other player's entry. The source does not check that enough
      triremes are there, and neither does the model. */
  function NavalMovement(from: SeaArea, to: SeaArea, player: PlayerId, count: int): (r: (SeaArea, SeaArea))
    requires player < |from.trireme| && player < |to.trireme|
    ensures |r.0.trireme| == |from.trireme| && |r.1.trireme| == |to.trireme|
    ensures r.0.trireme[player] + r.1.trireme[player] == from.trireme[player] + to.trireme[player]
    ensures r.1.trireme[player] - to.trireme[player] == count
    ensures OthersUnchanged(from.trireme, r.0.trireme, player, player)
    ensures OthersUnchanged(to.trireme, r.1.trireme, player, player)
    ensures r.0.info == from.info && r.0.alreadyFought == from.alreadyFought
    ensures r.1.info == to.info && r.1.alreadyFought == to.alreadyFought
  {
    (from.(trireme := from.trireme[player := from.trireme[player] - count]),
     to.(trireme := to.trireme[player := to.trireme[player] + count]))
  }

  /** Moving triremes keeps the fleet total of the two areas together. */
  lemma {:induction false} MovementKeepsTotal(from: SeaArea, to: SeaArea, player: PlayerId, count: int)
    requires player < |from.trireme| && player < |to.trireme|
    ensures var r := NavalMovement(from, to, player, count);
      FleetTotal(r.0.trireme) + FleetTotal(r.1.trireme) == FleetTotal(from.trireme) + FleetTotal(to.trireme)
  {
    var r := NavalMovement(from, to, player, count);
    UpdateTotal(from.trireme, player, from.trireme[player] - count);
    UpdateTotal(to.trireme, player, to.trireme[player] + count);
  }

  /** Changing one fleet entry changes the total by the same amount. */
  lemma {:induction false} UpdateTotal(fleets: seq<int>, p: nat, v: int)
    requires p < |fleets|
    ensures FleetTotal(fleets[p := v]) == FleetTotal(fleets) - fleets[p] + v
    decreases |fleets|
  {
    var n := |fleets| - 1;
    var updated := fleets[p := v];
    assert updated[..n] == if p == n then fleets[..n] else fleets[..n][p := v];
    if p < n {
      UpdateTotal(fleets[..n], p, v);
    }
  }
}
