/** The rows of the outcome table where the defender throws one die,
    counted from the dice themselves: the attacker throws `n` six-sided
    dice and the defender one, the attacker's dice are sorted from highest
    to lowest and the first pair is compared as a ground round compares it.
    Every one of the `6^(n + 1)` throws is equally likely. */
module DiceCounts {
  import opened Dice
  import opened CombatTable

  function Pow(b: nat, e: nat): (p: nat)
    ensures b > 0 ==> p > 0
  {
    if e == 0 then 1 else b * Pow(b, e - 1)
  }

  /** Every throw of `n` six-sided dice, each as its faces in throw order. */
  function AllThrows(n: nat): seq<seq<int>> {
    if n == 0 then [[]] else WithFirstDie(6, AllThrows(n - 1))
  }

  /** The throws whose first die shows 1 to `f`, each followed by one of
      the throws `rest` of the other dice. */
  function WithFirstDie(f: nat, rest: seq<seq<int>>): seq<seq<int>> {
    if f == 0 then [] else WithFirstDie(f - 1, rest) + Prefix(f, rest)
  }

  /** The throws of `rest`, each preceded by a first die showing `f`. */
  function Prefix(f: int, rest: seq<seq<int>>): seq<seq<int>> {
    if rest == [] then [] else Prefix(f, rest[..|rest| - 1]) + [[f] + rest[|rest| - 1]]
  }

  predicate AllAtMost(t: seq<int>, y: int) {
    forall i :: 0 <= i < |t| ==> t[i] <= y
  }

  /** The throws among `ts` in which no die shows more than `y`. */
  function CountAtMost(ts: seq<seq<int>>, y: int): nat {
    if ts == [] then 0
    else CountAtMost(ts[..|ts| - 1], y) + (if AllAtMost(ts[|ts| - 1], y) then 1 else 0)
  }

  /** Defender losses when the attacker throws `t` against one defender
      die `y`: the throw is sorted and its first die must beat `y`. */
  function LossAgainstOne(t: seq<int>, y: int): nat
    requires |t| >= 1
  {
    if SortDesc(t)[0] > y then 1 else 0
  }

  /** That is the tally of a one-pair ground round. */
  lemma LossAgainstOneIsTally(t: seq<int>, y: int)
    requires |t| >= 1
    ensures LossAgainstOne(t, y) == TallyPairs(SortDesc(t), [y], 1).attackerWins
    ensures var tally := TallyPairs(SortDesc(t), [y], 1);
            LossAgainstOne(t, y) + tally.defenderWins + tally.ties == 1
  {
    OnePairTally(SortDesc(t), [y]);
  }

  /** A round of one pair: the attacker wins it only with the higher die. */
  lemma OnePairTally(att: seq<int>, def: seq<int>)
    requires |att| >= 1 && |def| >= 1
    ensures var tally := TallyPairs(att, def, 1);
            && tally.attackerWins == (if att[0] > def[0] then 1 else 0)
            && tally.defenderWins + tally.ties == (if att[0] > def[0] then 0 else 1)
  {
    assert TallyPairs(att, def, 0) == Tally(0, 0, 0);
  }

  /** The throws among `ts` that cost the defender's die `y` exactly `k`
      armies. */
  function CountLosing(ts: seq<seq<int>>, y: int, k: nat): nat {
    if ts == [] then 0
    else
      var t := ts[|ts| - 1];
      CountLosing(ts[..|ts| - 1], y, k) + (if |t| >= 1 && LossAgainstOne(t, y) == k then 1 else 0)
  }

  /** Pairs of an attacker throw among `ts` and a defender die showing 1 to
      `maxY` that cost the defender `k` armies. */
  function AgainstOneDie(ts: seq<seq<int>>, maxY: nat, k: nat): nat {
    if maxY == 0 then 0 else AgainstOneDie(ts, maxY - 1, k) + CountLosing(ts, maxY, k)
  }

  /** `1^n + 2^n + ... + maxY^n`. */
  function SumOfPowers(maxY: nat, n: nat): nat {
    if maxY == 0 then 0 else SumOfPowers(maxY - 1, n) + Pow(maxY, n)
  }

  /** Against one die the defender loses its army exactly when some
      attacker die is higher, because the sorted throw starts with its
      highest die. */
  lemma LossAgainstOneIff(t: seq<int>, y: int)
    requires |t| >= 1
    ensures LossAgainstOne(t, y) == (if AllAtMost(t, y) then 0 else 1)
  {
    var r := SortDesc(t);
    assert r[0] in multiset(t);
    var i :| 0 <= i < |t| && t[i] == r[0];
    forall j | 0 <= j < |t|
      ensures t[j] <= r[0]
    {
      assert t[j] in multiset(r);
      var k :| 0 <= k < |r| && r[k] == t[j];
    }
  }

  /** Among throws of at least one die, those that cost nothing are those
      with no die above `y`, and the others cost one army. */
  lemma {:induction false} CountLosingSplit(ts: seq<seq<int>>, y: int)
    requires forall t :: t in ts ==> |t| >= 1
    ensures CountLosing(ts, y, 0) == CountAtMost(ts, y)
    ensures CountLosing(ts, y, 1) == |ts| - CountAtMost(ts, y)
  {
    if ts != [] {
      var n := |ts| - 1;
      assert forall t :: t in ts[..n] ==> t in ts;
      CountLosingSplit(ts[..n], y);
      LossAgainstOneIff(ts[n], y);
    }
  }

  lemma {:induction false} CountAtMostConcat(xs: seq<seq<int>>, ys: seq<seq<int>>, y: int)
    ensures CountAtMost(xs + ys, y) == CountAtMost(xs, y) + CountAtMost(ys, y)
    decreases |ys|
  {
    if ys == [] {
      assert xs + ys == xs;
    } else {
      var n := |ys| - 1;
      assert (xs + ys)[..|xs + ys| - 1] == xs + ys[..n];
      CountAtMostConcat(xs, ys[..n], y);
    }
  }

  lemma AllAtMostCons(f: int, u: seq<int>, y: int)
    ensures AllAtMost([f] + u, y) <==> f <= y && AllAtMost(u, y)
  {
    var t := [f] + u;
    assert t[0] == f;
    assert forall i :: 0 <= i < |u| ==> t[i + 1] == u[i];
    if f <= y && AllAtMost(u, y) {
      forall i | 0 <= i < |t|
        ensures t[i] <= y
      {
        if i > 0 {
          assert t[i] == u[i - 1];
        }
      }
    }
  }

  /** A first die showing `f` keeps a throw within `y` only when `f <= y`. */
  lemma {:induction false} CountAtMostPrefix(f: int, rest: seq<seq<int>>, y: int)
    ensures CountAtMost(Prefix(f, rest), y) == if f <= y then CountAtMost(rest, y) else 0
    ensures |Prefix(f, rest)| == |rest|
  {
    if rest != [] {
      var n := |rest| - 1;
      var shorter := Prefix(f, rest[..n]);
      CountAtMostPrefix(f, rest[..n], y);
      assert (shorter + [[f] + rest[n]])[..|shorter|] == shorter;
      AllAtMostCons(f, rest[n], y);
    }
  }

  /** First dice showing 1 to `f`: `min(f, y)` of them keep a throw within
      `y`. */
  lemma {:induction false} CountAtMostFirstDie(f: nat, rest: seq<seq<int>>, y: int)
    requires y >= 0
    ensures CountAtMost(WithFirstDie(f, rest), y) == Min(f, y) * CountAtMost(rest, y)
  {
    if f > 0 {
      var c := CountAtMost(rest, y);
      var before := WithFirstDie(f - 1, rest);
      CountAtMostFirstDie(f - 1, rest, y);
      CountAtMostPrefix(f, rest, y);
      CountAtMostConcat(before, Prefix(f, rest), y);
      MinStep(f, y, c);
    }
  }

  lemma MinStep(f: nat, y: int, c: nat)
    requires f > 0 && y >= 0
    ensures Min(f, y) * c == Min(f - 1, y) * c + (if f <= y then c else 0)
  {
    if f <= y {
      MulStep(f - 1, c);
    }
  }

  lemma MulStep(a: nat, c: nat)
    ensures (a + 1) * c == a * c + c
  {
  }

  /** `f` first dice over `rest` give `f` times as many throws. */
  lemma {:induction false} FirstDieCount(f: nat, rest: seq<seq<int>>)
    ensures |WithFirstDie(f, rest)| == f * |rest|
  {
    if f > 0 {
      FirstDieCount(f - 1, rest);
      CountAtMostPrefix(f, rest, 0);
      MulStep(f - 1, |rest|);
    }
  }

  /** Every prefixed throw has one die more than the throw it extends. */
  lemma {:induction false} PrefixLengths(f: int, rest: seq<seq<int>>, n: nat)
    requires forall t :: t in rest ==> |t| == n
    ensures forall t :: t in Prefix(f, rest) ==> |t| == n + 1
  {
    if rest != [] {
      var m := |rest| - 1;
      assert forall t :: t in rest[..m] ==> t in rest;
      PrefixLengths(f, rest[..m], n);
    }
  }

  lemma {:induction false} FirstDieLengths(f: nat, rest: seq<seq<int>>, n: nat)
    requires forall t :: t in rest ==> |t| == n
    ensures forall t :: t in WithFirstDie(f, rest) ==> |t| == n + 1
  {
    if f > 0 {
      FirstDieLengths(f - 1, rest, n);
      PrefixLengths(f, rest, n);
    }
  }

  /** There are `6^n` throws of `n` dice. */
  lemma {:induction false} AllThrowsSize(n: nat)
    ensures |AllThrows(n)| == Pow(6, n)
  {
    if n > 0 {
      var rest := AllThrows(n - 1);
      AllThrowsSize(n - 1);
      FirstDieCount(6, rest);
    }
  }

  /** Each throw of `n` dice has `n` dice. */
  lemma {:induction false} AllThrowsLengths(n: nat)
    ensures forall t :: t in AllThrows(n) ==> |t| == n
  {
    if n > 0 {
      AllThrowsLengths(n - 1);
      FirstDieLengths(6, AllThrows(n - 1), n - 1);
    }
  }

  /** `y^n` of the throws of `n` dice show no die above `y`. */
  lemma {:induction false} AllThrowsWithin(n: nat, y: int)
    requires 0 <= y <= 6
    ensures CountAtMost(AllThrows(n), y) == Pow(y, n)
  {
    if n == 0 {
      var none: seq<int> := [];
      assert AllThrows(0) == [none];
      assert [none][..0] == [];
    } else {
      var rest := AllThrows(n - 1);
      AllThrowsWithin(n - 1, y);
      CountAtMostFirstDie(6, rest, y);
      assert Min(6, y) == y;
      assert CountAtMost(AllThrows(n), y) == y * CountAtMost(rest, y);
    }
  }

  /** Against defender dice 1 to `maxY`, throws `ts` of which `y^n` show
      no die above `y` spare the defender `1^n + ... + maxY^n` times. */
  lemma {:induction false} AgainstOneDieSpared(ts: seq<seq<int>>, n: nat, maxY: nat)
    requires maxY <= 6
    requires forall t :: t in ts ==> |t| >= 1
    requires forall y :: 0 <= y <= 6 ==> CountAtMost(ts, y) == Pow(y, n)
    ensures AgainstOneDie(ts, maxY, 0) == SumOfPowers(maxY, n)
  {
    if maxY > 0 {
      AgainstOneDieSpared(ts, n, maxY - 1);
      CountLosingSplit(ts, maxY);
    }
  }

  /** Every pair of a throw of at least one die and a defender die costs
      the defender nothing or one army. */
  lemma {:induction false} AgainstOneDieTotal(ts: seq<seq<int>>, maxY: nat)
    requires forall t :: t in ts ==> |t| >= 1
    ensures AgainstOneDie(ts, maxY, 0) + AgainstOneDie(ts, maxY, 1) == maxY * |ts|
  {
    if maxY > 0 {
      var spared, lost := CountLosing(ts, maxY, 0), CountLosing(ts, maxY, 1);
      AgainstOneDieTotal(ts, maxY - 1);
      CountLosingSplit(ts, maxY);
      MulStep(maxY - 1, spared + lost);
    }
  }

  /** The table's rows for one, two and three attacker dice against one
      defender die: entry `k` is the share of the `6^(n + 1)` throws that
      cost the defender `k` armies when the highest attacker die must beat
      the defender's. */
  lemma OneDefenderRowsMatchDice(n: nat, k: nat)
    requires 1 <= n <= 3 && k <= 1
    ensures (n, 1) in Probs && |Probs[(n, 1)]| == 2
    ensures Probs[(n, 1)][k] == AgainstOneDie(AllThrows(n), 6, k) as real / Pow(6, n + 1) as real
  {
    DiceAgainstOne(n, k);
    RowShare(n, k, AgainstOneDie(AllThrows(n), 6, k), Pow(6, n + 1));
  }

  /** The table's row `(n, 1)` holds `lost` of `throws` in column `k` when
      those are the counts the dice give. */
  lemma RowShare(n: nat, k: nat, lost: nat, throws: nat)
    requires 1 <= n <= 3 && k <= 1
    requires lost == DefenderLosses(n)[k] && throws == ThrowCount(n)
    ensures (n, 1) in Probs && |Probs[(n, 1)]| == 2
    ensures Probs[(n, 1)][k] == lost as real / throws as real
  {
    var row := Probs[(n, 1)];
    if n == 1 {
      assert row == [21.0 / 36.0, 15.0 / 36.0];
    } else if n == 2 {
      assert row == [91.0 / 216.0, 125.0 / 216.0];
    } else {
      assert row == [441.0 / 1296.0, 855.0 / 1296.0];
    }
  }

  /** How many of the throws of `n` attacker dice and one defender die cost
      the defender nothing and one army, and how many throws there are. */
  function DefenderLosses(n: nat): seq<nat> {
    if n == 1 then [21, 15] else if n == 2 then [91, 125] else [441, 855]
  }

  function ThrowCount(n: nat): nat {
    if n == 1 then 36 else if n == 2 then 216 else 1296
  }

  /** The counts behind the rows: of the `6^(n + 1)` throws of `n` attacker
      dice and one defender die, 21, 91 and 441 cost the defender nothing. */
  lemma DiceAgainstOne(n: nat, k: nat)
    requires 1 <= n <= 3 && k <= 1
    ensures AgainstOneDie(AllThrows(n), 6, k) == DefenderLosses(n)[k]
    ensures Pow(6, n + 1) == ThrowCount(n)
  {
    AllThrowsSpared(n);
    AllThrowsLengths(n);
    AllThrowsSize(n);
    CountsOfThrows(AllThrows(n), n, k);
  }

  /** The step from the spared throws and the number of throws to both
      entries of the row. */
  lemma CountsOfThrows(ts: seq<seq<int>>, n: nat, k: nat)
    requires 1 <= n <= 3 && k <= 1
    requires forall t :: t in ts ==> |t| >= 1
    requires |ts| == Pow(6, n) && AgainstOneDie(ts, 6, 0) == SumOfPowers(6, n)
    ensures AgainstOneDie(ts, 6, k) == DefenderLosses(n)[k]
    ensures Pow(6, n + 1) == ThrowCount(n)
  {
    AgainstOneDieTotal(ts, 6);
    SixSidedSums(n);
  }

  /** Against defender dice 1 to 6, the throws of `n` dice that cost
      nothing are `1^n + ... + 6^n`. */
  lemma AllThrowsSpared(n: nat)
    requires n >= 1
    ensures AgainstOneDie(AllThrows(n), 6, 0) == SumOfPowers(6, n)
  {
    AllThrowsLengths(n);
    forall y | 0 <= y <= 6
      ensures CountAtMost(AllThrows(n), y) == Pow(y, n)
    {
      AllThrowsWithin(n, y);
    }
    AgainstOneDieSpared(AllThrows(n), n, 6);
  }


  /** `6^n`, `6^(n + 1)` and `1^n + ... + 6^n` for one to three dice. */
  lemma SixSidedSums(n: nat)
    requires 1 <= n <= 3
    ensures n == 1 ==> Pow(6, n) == 6 && Pow(6, n + 1) == 36 && SumOfPowers(6, n) == 21
    ensures n == 2 ==> Pow(6, n) == 36 && Pow(6, n + 1) == 216 && SumOfPowers(6, n) == 91
    ensures n == 3 ==> Pow(6, n) == 216 && Pow(6, n + 1) == 1296 && SumOfPowers(6, n) == 441
  {
    if n == 2 {
      assert Pow(1, 2) == 1 && Pow(2, 2) == 4 && Pow(3, 2) == 9;
      assert Pow(4, 2) == 16 && Pow(5, 2) == 25 && Pow(6, 2) == 36;
    } else if n == 3 {
      assert Pow(1, 3) == 1 && Pow(2, 3) == 8 && Pow(3, 3) == 27;
      assert Pow(4, 3) == 64 && Pow(5, 3) == 125 && Pow(6, 3) == 216;
    }
  }
}
