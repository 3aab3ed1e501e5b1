/** Dice as both combat loops use them: each side throws up to three
    six-sided dice, sorts them from highest to lowest, and the two lists are
    compared position by position for as many positions as the shorter has. */
module Dice {

  /** One face of a six-sided die. */
  type Die = x: int | 1 <= x <= 6 witness 1

  /** The future draws of the game's single pseudorandom generator, one die
      value per draw. */
  type DieStream = nat -> Die

  function Min(a: int, b: int): int {
    if a <= b then a else b
  }

  /** Number of dice thrown by a side that still has `units` units. */
  function DiceCount(units: int): int {
    Min(3, units)
  }

  predicate SortedDesc(s: seq<int>) {
    forall i, j :: 0 <= i < j < |s| ==> s[i] >= s[j]
  }

  /** `count` consecutive draws of the generator, starting at draw `from`. */
  function Roll(dice: DieStream, from: nat, count: nat): (r: seq<int>)
    ensures |r| == count
    ensures forall i :: 0 <= i < count ==> r[i] == dice(from + i)
  {
    seq(count, i requires 0 <= i < count => dice(from + i) as int)
  }

  /** Consecutive draws: throwing `m` dice and then `n` more reads the same
      draws as throwing `m + n` at once, so the defender's dice of a round
      are the draws right after the attacker's. */
  lemma RollConcat(dice: DieStream, from: nat, m: nat, n: nat)
    ensures Roll(dice, from, m + n) == Roll(dice, from, m) + Roll(dice, from + m, n)
  {
    var whole := Roll(dice, from, m + n);
    var parts := Roll(dice, from, m) + Roll(dice, from + m, n);
    assert forall i :: 0 <= i < m + n ==> whole[i] == parts[i];
  }

  /** Places `x` into a list sorted from highest to lowest. */
  function Insert(x: int, s: seq<int>): (r: seq<int>)
    requires SortedDesc(s)
    ensures SortedDesc(r)
    ensures multiset(r) == multiset(s) + multiset{x}
    ensures |r| == |s| + 1
  {
    if s == [] || x >= s[0] then
      ConsSorted(x, s);
      [x] + s
    else
      var rest := Insert(x, s[1..]);
      assert s == [s[0]] + s[1..];
      BoundedByContents(rest, s[1..], x, s[0]);
      ConsSorted(s[0], rest);
      [s[0]] + rest
  }

  /** A die no lower than every die of a sorted list can go in front. */
  lemma ConsSorted(h: int, s: seq<int>)
    requires SortedDesc(s)
    requires forall i :: 0 <= i < |s| ==> s[i] <= h
    ensures SortedDesc([h] + s)
  {
    forall i, j | 0 <= i < j < |[h] + s|
      ensures ([h] + s)[i] >= ([h] + s)[j]
    {
      if i > 0 {
        assert ([h] + s)[i] == s[i - 1];
      }
      assert ([h] + s)[j] == s[j - 1];
    }
  }

  /** A list holding the dice of `s` and one more, `x`, is bounded by any
      bound of both. */
  lemma BoundedByContents(r: seq<int>, s: seq<int>, x: int, bound: int)
    requires multiset(r) == multiset(s) + multiset{x}
    requires x <= bound
    requires forall i :: 0 <= i < |s| ==> s[i] <= bound
    ensures forall i :: 0 <= i < |r| ==> r[i] <= bound
  {
    forall i | 0 <= i < |r|
      ensures r[i] <= bound
    {
      assert r[i] in multiset(r);
      if r[i] != x {
        assert r[i] in multiset(s);
        var j :| 0 <= j < |s| && s[j] == r[i];
      }
    }
  }

  /** Sorting from highest to lowest, as `sorted(..., reverse=True)` does. */
  function SortDesc(s: seq<int>): (r: seq<int>)
    ensures SortedDesc(r)
    ensures multiset(r) == multiset(s)
    ensures |r| == |s|
  {
    if s == [] then []
    else
      assert s == [s[0]] + s[1..];
      Insert(s[0], SortDesc(s[1..]))
  }

  /** Two lists sorted from highest to lowest that hold the same dice are
      equal, so `SortDesc` agrees with any other descending sort. */
  lemma {:induction false} SortedIsUnique(a: seq<int>, b: seq<int>)
    requires SortedDesc(a) && SortedDesc(b)
    requires multiset(a) == multiset(b)
    ensures a == b
  {
    assert |a| == |multiset(a)| == |multiset(b)| == |b|;
    if a != [] {
      SortedHeadsAgree(a, b);
      TailMultiset(a);
      TailMultiset(b);
      SortedIsUnique(a[1..], b[1..]);
      assert a == [a[0]] + a[1..];
      assert b == [b[0]] + b[1..];
    }
  }

  /** The first die of a list sorted from highest to lowest is its
      largest, so two such lists with the same dice start alike. */
  lemma SortedHeadsAgree(a: seq<int>, b: seq<int>)
    requires SortedDesc(a) && SortedDesc(b)
    requires multiset(a) == multiset(b) && |a| > 0 && |b| > 0
    ensures a[0] == b[0]
  {
    assert a[0] in multiset(b);
    assert b[0] in multiset(a);
    var i :| 0 <= i < |b| && b[i] == a[0];
    var j :| 0 <= j < |a| && a[j] == b[0];
    assert a[0] >= a[j] && b[0] >= b[i];
  }

  lemma TailMultiset(a: seq<int>)
    requires |a| > 0
    ensures multiset(a[1..]) == multiset(a) - multiset{a[0]}
  {
    assert a == [a[0]] + a[1..];
  }

  /** Outcome of comparing the first `pairs` dice of each side. */
  datatype Tally = Tally(attackerWins: nat, defenderWins: nat, ties: nat)

  /** How the attacker's die at one position compares with the defender's. */
  datatype Comparison = Higher | Lower | Same

  function Compare(x: int, y: int): Comparison {
    if x > y then Higher else if x < y then Lower else Same
  }

  /** Compares the dice of the two sides position by position: each
      position is an attacker win, a defender win or a tie. */
  function TallyPairs(att: seq<int>, def: seq<int>, pairs: nat): (t: Tally)
    requires pairs <= |att| && pairs <= |def|
    ensures t.attackerWins + t.defenderWins + t.ties == pairs
    ensures t.attackerWins == |WinsBelow(att, def, pairs)|
    ensures t.defenderWins == |LossesBelow(att, def, pairs)|
    ensures t.ties == |TiesBelow(att, def, pairs)|
    ensures t.ties == 0 <==> forall i :: 0 <= i < pairs ==> att[i] != def[i]
    ensures t.ties == pairs <==> forall i :: 0 <= i < pairs ==> att[i] == def[i]
  {
    if pairs == 0 then
      Tally(0, 0, 0)
    else
      var t := TallyPairs(att, def, pairs - 1);
      var i := pairs - 1;
      PositionsCountStep(att, def, pairs, Higher);
      PositionsCountStep(att, def, pairs, Lower);
      PositionsCountStep(att, def, pairs, Same);
      TiesCount(att, def, pairs);
      if att[i] > def[i] then t.(attackerWins := t.attackerWins + 1)
      else if att[i] < def[i] then t.(defenderWins := t.defenderWins + 1)
      else t.(ties := t.ties + 1)
  }

  /** Positions, among the first `pairs`, where the two dice compare as `c`. */
  function Positions(att: seq<int>, def: seq<int>, pairs: nat, c: Comparison): set<nat>
    requires pairs <= |att| && pairs <= |def|
  {
    set i: nat | i < pairs && Compare(att[i], def[i]) == c
  }

  /** Positions where the attacker's die is strictly higher. */
  function WinsBelow(att: seq<int>, def: seq<int>, pairs: nat): set<nat>
    requires pairs <= |att| && pairs <= |def|
  {
    Positions(att, def, pairs, Higher)
  }

  /** Positions where the defender's die is strictly higher. */
  function LossesBelow(att: seq<int>, def: seq<int>, pairs: nat): set<nat>
    requires pairs <= |att| && pairs <= |def|
  {
    Positions(att, def, pairs, Lower)
  }

  /** Positions where the two dice are equal. */
  function TiesBelow(att: seq<int>, def: seq<int>, pairs: nat): set<nat>
    requires pairs <= |att| && pairs <= |def|
  {
    Positions(att, def, pairs, Same)
  }

  /** One more position joins exactly the set of its own comparison. */
  lemma PositionsStep(att: seq<int>, def: seq<int>, pairs: nat, c: Comparison)
    requires 0 < pairs <= |att| && pairs <= |def|
    ensures pairs - 1 !in Positions(att, def, pairs - 1, c)
    ensures Positions(att, def, pairs, c) ==
      Positions(att, def, pairs - 1, c) + (if Compare(att[pairs - 1], def[pairs - 1]) == c then {pairs - 1} else {})
  {
  }

  /** So one more position adds one to the count of its own comparison. */
  lemma PositionsCountStep(att: seq<int>, def: seq<int>, pairs: nat, c: Comparison)
    requires 0 < pairs <= |att| && pairs <= |def|
    ensures |Positions(att, def, pairs, c)| ==
      |Positions(att, def, pairs - 1, c)| + (if Compare(att[pairs - 1], def[pairs - 1]) == c then 1 else 0)
  {
    PositionsStep(att, def, pairs, c);
  }

  /** No ties exactly when every pair differs, and all ties exactly when
      every pair is equal. */
  lemma {:induction false} TiesCount(att: seq<int>, def: seq<int>, pairs: nat)
    requires pairs <= |att| && pairs <= |def|
    ensures |TiesBelow(att, def, pairs)| <= pairs
    ensures |TiesBelow(att, def, pairs)| == 0 <==> forall i :: 0 <= i < pairs ==> att[i] != def[i]
    ensures |TiesBelow(att, def, pairs)| == pairs <==> forall i :: 0 <= i < pairs ==> att[i] == def[i]
  {
    if pairs > 0 {
      TiesCount(att, def, pairs - 1);
      PositionsCountStep(att, def, pairs, Same);
    }
  }

  lemma WinsBelowStep(att: seq<int>, def: seq<int>, pairs: nat)
    requires 0 < pairs <= |att| && pairs <= |def|
    ensures att[pairs - 1] > def[pairs - 1] ==>
      WinsBelow(att, def, pairs) == WinsBelow(att, def, pairs - 1) + {pairs - 1}
    ensures att[pairs - 1] <= def[pairs - 1] ==>
      WinsBelow(att, def, pairs) == WinsBelow(att, def, pairs - 1)
  {
    PositionsStep(att, def, pairs, Higher);
  }

  /** The number of positions the two lists are compared at: Python's `map`
      and the explicit index loops both stop at the shorter list. */
  function Pairs(att: seq<int>, def: seq<int>): (n: nat)
    ensures n <= |att| && n <= |def|
    ensures n == |att| || n == |def|
  {
    if |att| <= |def| then |att| else |def|
  }
}
