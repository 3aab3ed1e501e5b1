/** Ground combat between two land areas (`Player.combact_by_sea`): the
    attacker commits armies, both sides throw up to three dice per round, a
    strictly higher attacker die kills one defending army and any other
    comparison (a tie included) kills one committed attacker. When the
    defender is wiped out the area changes hands. */
module GroundCombat {
  import opened Dice
  import opened Territory

  /** A battle in progress: the area attacked from, the area under attack,
      and how many of the committed attacking armies are still alive. */
  datatype GroundBattle = GroundBattle(origin: GroundArea, target: GroundArea, committed: int)

  /** The round loop keeps going while both sides have armies. */
  predicate Fighting(s: GroundBattle) {
    s.committed > 0 && s.target.armies > 0
  }

  /** What the caller gets back: both areas after the battle, and whether
      the defender was wiped out (and so the area conquered). */
  datatype GroundOutcome = GroundOutcome(origin: GroundArea, target: GroundArea, conquered: bool)

  /** Armies still in play; every round lowers it. */
  function Strength(s: GroundBattle): nat {
    (if s.committed > 0 then s.committed else 0) + (if s.target.armies > 0 then s.target.armies else 0)
  }

  /** One round with dice already thrown and sorted from highest to lowest. */
  function Round(s: GroundBattle, att: seq<int>, def: seq<int>): (r: GroundBattle)
    requires Fighting(s)
    requires |att| == DiceCount(s.committed) && |def| == DiceCount(s.target.armies)
    ensures var defenderLosses := s.target.armies - r.target.armies;
            var attackerLosses := s.committed - r.committed;
            && defenderLosses == |WinsBelow(att, def, Pairs(att, def))|
            && attackerLosses + defenderLosses == Pairs(att, def)
            && attackerLosses >= 0 && defenderLosses >= 0
    ensures r.origin.armies - r.committed == s.origin.armies - s.committed
    ensures r.committed >= 0 && r.target.armies >= 0
    ensures Strength(r) < Strength(s)
    ensures r.origin == s.origin.(armies := r.origin.armies)
    ensures r.target == s.target.(armies := r.target.armies)
  {
    var t := TallyPairs(att, def, Pairs(att, def));
    var attackerLosses := t.defenderWins + t.ties;
    GroundBattle(s.origin.(armies := s.origin.armies - attackerLosses),
          s.target.(armies := s.target.armies - t.attackerWins),
          s.committed - attackerLosses)
  }

  /** A tie costs the attacker: when no attacker die beats the defender's at
      its position, the defender keeps all its armies and the attacker loses
      one army per compared pair. */
  lemma TiesFavourDefender(s: GroundBattle, att: seq<int>, def: seq<int>)
    requires Fighting(s)
    requires |att| == DiceCount(s.committed) && |def| == DiceCount(s.target.armies)
    requires forall i :: 0 <= i < Pairs(att, def) ==> att[i] <= def[i]
    ensures Round(s, att, def).target.armies == s.target.armies
    ensures Round(s, att, def).committed == s.committed - Pairs(att, def)
  {
    assert WinsBelow(att, def, Pairs(att, def)) == {};
  }

  /** The round loop, drawing every round's dice from the generator starting
      at draw `next`: attacker dice first, then defender dice. */
  function Fight(s: GroundBattle, dice: DieStream, next: nat): (r: GroundBattle)
    ensures !Fighting(r)
    ensures r.origin.armies - r.committed == s.origin.armies - s.committed
    ensures r.origin == s.origin.(armies := r.origin.armies)
    ensures r.target == s.target.(armies := r.target.armies)
    ensures Fighting(s) ==> r.committed >= 0 && r.target.armies >= 0
    ensures Fighting(s) ==> r.committed <= s.committed && r.target.armies <= s.target.armies
    ensures Fighting(s) ==> (r.committed == 0) != (r.target.armies == 0)
    ensures !Fighting(s) ==> r == s
    decreases Strength(s)
  {
    if Fighting(s) then
      var nAtt := DiceCount(s.committed);
      var nDef := DiceCount(s.target.armies);
      var att := SortDesc(Roll(dice, next, nAtt));
      var def := SortDesc(Roll(dice, next + nAtt, nDef));
      var s' := Round(s, att, def);
      NotBothWipedOut(s, s', Pairs(att, def));
      Fight(s', dice, next + nAtt + nDef)
    else
      s
  }

  /** A round never wipes out both sides: it removes at most as many armies
      as dice pairs, and that is at most the smaller side. */
  lemma NotBothWipedOut(s: GroundBattle, r: GroundBattle, pairs: nat)
    requires Fighting(s)
    requires pairs <= DiceCount(s.committed) && pairs <= DiceCount(s.target.armies)
    requires (s.committed - r.committed) + (s.target.armies - r.target.armies) == pairs
    requires r.committed >= 0 && r.target.armies >= 0
    ensures r.committed > 0 || r.target.armies > 0
  {
  }

  /** After the loop: a wiped-out defender hands its area to the attacker,
      which moves the surviving committed armies in. */
  function Settle(s: GroundBattle): (r: GroundOutcome)
    ensures r.conquered <==> s.target.armies == 0
    ensures r.conquered ==> && r.target == s.target.(owner := s.origin.owner, armies := s.committed)
                            && r.origin == s.origin.(armies := s.origin.armies - s.committed)
    ensures !r.conquered ==> r.origin == s.origin && r.target == s.target
  {
    if s.target.armies == 0 then
      GroundOutcome(s.origin.(armies := s.origin.armies - s.committed),
                    s.target.(owner := s.origin.owner, armies := s.committed),
                    true)
    else
      GroundOutcome(s.origin, s.target, false)
  }

  /** `Player.combact_by_sea`: `origin` attacks `target` with `committed` of
      its armies. For a battle that starts with armies on both sides the
      origin ends with exactly its armies minus the committed ones, win or
      lose; a conquered area takes the attacker's owner and its survivors; a
      defended area keeps its owner and some of its armies. */
  function CombatBySea(origin: GroundArea, target: GroundArea, committed: int, dice: DieStream): (r: GroundOutcome)
    ensures committed > 0 && target.armies > 0 ==>
      && r.origin.armies == origin.armies - committed
      && (r.conquered ==> r.target.owner == origin.owner && 1 <= r.target.armies <= committed)
      && (!r.conquered ==> r.target.owner == target.owner && 1 <= r.target.armies <= target.armies)
    ensures target.armies == 0 ==>
      r.conquered && r.target.armies == committed && r.target.owner == origin.owner
      && r.origin.armies == origin.armies - committed
    ensures (committed <= 0 && target.armies != 0) || target.armies < 0 ==>
      !r.conquered && r.origin == origin && r.target == target
    ensures r.origin == origin.(armies := r.origin.armies)
    ensures r.target == target.(owner := r.target.owner, armies := r.target.armies)
  {
    Settle(Fight(GroundBattle(origin, target, committed), dice, 0))
  }
}
