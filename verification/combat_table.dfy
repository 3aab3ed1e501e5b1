/** The fixed table of one-round outcomes (`probs`): for an attacker
    throwing `i` dice against a defender throwing `j`, entry `k` is the
    probability that the defender loses exactly `k` armies. Only the keys
    with `i >= j` exist. Values are exact rationals. */
module CombatTable {
  import opened Dice

  const Probs: map<(int, int), seq<real>> := map[
    (1, 1) := [21.0 / 36.0, 5.0 / 12.0],
    (2, 1) := [91.0 / 216.0, 125.0 / 216.0],
    (2, 2) := [581.0 / 1296.0, 35.0 / 108.0, 295.0 / 1296.0],
    (3, 1) := [441.0 / 1296.0, 855.0 / 1296.0],
    (3, 2) := [2275.0 / 7776.0, 2611.0 / 7776.0, 2890.0 / 7776.0],
    (3, 3) := [17871.0 / 46656.0, 12348.0 / 46656.0, 10017.0 / 46656.0, 6420.0 / 46656.0]
  ]

  function Sum(s: seq<real>): real {
    if s == [] then 0.0 else Sum(s[..|s| - 1]) + s[|s| - 1]
  }

  /** A probability distribution over outcomes 0, 1, ... */
  predicate Distribution(s: seq<real>) {
    && (forall k :: 0 <= k < |s| ==> 0.0 <= s[k] <= 1.0)
    && Sum(s) == 1.0
  }

  /** A key names a real pair of dice counts: the attacker throws at least
      as many dice as the defender, three at most. */
  predicate Throws(key: (int, int)) {
    1 <= key.1 <= key.0 <= 3
  }

  /** The table has exactly the keys with `i >= j`, each row has one entry
      per possible number of defender losses, `0` to `min(i, j)`, and every
      row is a probability distribution. */
  lemma TableRowsAreDistributions()
    ensures forall key :: key in Probs <==> Throws(key)
    ensures forall key :: key in Probs ==> |Probs[key]| == Min(key.0, key.1) + 1
    ensures forall key :: key in Probs ==> Distribution(Probs[key])
  {
    forall key | Throws(key)
      ensures key in Probs
    {
      assert key == (1, 1) || key == (2, 1) || key == (2, 2) || key == (3, 1) || key == (3, 2) || key == (3, 3);
    }
    assert Sum(Probs[(1, 1)]) == 1.0;
    assert Sum(Probs[(2, 1)]) == 1.0;
    assert Sum(Probs[(2, 2)]) == 1.0;
    assert Sum(Probs[(3, 1)]) == 1.0;
    assert Sum(Probs[(3, 2)]) == 1.0;
    SumOfFour(17871.0 / 46656.0, 12348.0 / 46656.0, 10017.0 / 46656.0, 6420.0 / 46656.0);
  }

  lemma SumOfFour(a: real, b: real, c: real, d: real)
    ensures Sum([a, b, c, d]) == a + b + c + d
  {
    assert [a, b, c, d][..3] == [a, b, c];
    assert [a, b, c][..2] == [a, b];
    assert [a, b][..1] == [a];
    assert [a][..0] == [];
    assert Sum([a]) == a;
    assert Sum([a, b]) == a + b;
    assert Sum([a, b, c]) == a + b + c;
  }

  /** With one die each, a ground round costs the defender its army exactly
      when the attacker's die is strictly higher. */
  lemma SingleDiceTally(x: int, y: int)
    ensures TallyPairs([x], [y], 1).attackerWins == (if x > y then 1 else 0)
  {
    assert WinsBelow([x], [y], 1) == (if x > y then {0} else {});
  }

  /** Defender losses when die `x` meets die `y`, one die each. */
  function SingleDiceLoss(x: int, y: int): nat {
    if x > y then 1 else 0
  }

  /** Throws `(x, y)` of one die each, `x` from 1 to `maxX` and `y` from 1
      to `maxY`, that cost the defender `k` armies. */
  function OneOnOne(maxX: nat, maxY: nat, k: nat): nat {
    if maxX == 0 then 0
    else OneOnOne(maxX - 1, maxY, k) + AgainstEachDefender(maxX, maxY, k)
  }

  function AgainstEachDefender(x: int, maxY: nat, k: nat): nat {
    if maxY == 0 then 0
    else AgainstEachDefender(x, maxY - 1, k) + (if SingleDiceLoss(x, maxY) == k then 1 else 0)
  }

  /** Of the 36 equally likely throws of one die each, 21 cost the defender
      nothing and 15 cost it one army. */
  lemma OneOnOneThrows()
    ensures OneOnOne(6, 6, 0) == 21 && OneOnOne(6, 6, 1) == 15
  {
    AgainstEachDefenderCount(1, 6);
    AgainstEachDefenderCount(2, 6);
    AgainstEachDefenderCount(3, 6);
    AgainstEachDefenderCount(4, 6);
    AgainstEachDefenderCount(5, 6);
    AgainstEachDefenderCount(6, 6);
    assert OneOnOne(1, 6, 0) == 6 && OneOnOne(1, 6, 1) == 0;
    assert OneOnOne(2, 6, 0) == 11 && OneOnOne(2, 6, 1) == 1;
    assert OneOnOne(3, 6, 0) == 15 && OneOnOne(3, 6, 1) == 3;
    assert OneOnOne(4, 6, 0) == 18 && OneOnOne(4, 6, 1) == 6;
    assert OneOnOne(5, 6, 0) == 20 && OneOnOne(5, 6, 1) == 10;
  }

  /** Die `x` beats exactly the defender dice below it. */
  lemma {:induction false} AgainstEachDefenderCount(x: int, maxY: nat)
    requires x >= 1
    ensures AgainstEachDefender(x, maxY, 1) == Min(x - 1, maxY)
    ensures AgainstEachDefender(x, maxY, 0) == maxY - Min(x - 1, maxY)
  {
    if maxY > 0 {
      AgainstEachDefenderCount(x, maxY - 1);
    }
  }

  /** The one-die-each row of the table is what the dice give.
      `DiceCounts.OneDefenderRowsMatchDice` derives the same row, with one
      to three attacker dice, from the list of every throw; this one counts
      the 36 pairs of one die each directly, as a small cross-check of that
      general derivation that does not depend on it. */
  lemma OneOnOneRowMatchesDice()
    ensures Probs[(1, 1)][0] == OneOnOne(6, 6, 0) as real / 36.0
    ensures Probs[(1, 1)][1] == OneOnOne(6, 6, 1) as real / 36.0
  {
    OneOnOneThrows();
    var row := Probs[(1, 1)];
    assert row[0] == 21.0 / 36.0 && row[1] == 15.0 / 36.0;
  }
}
