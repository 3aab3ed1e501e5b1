/** The one-step transitions of the battle chain: from a transient state
    `(a, d)` the table row for `min(3, a)` against `min(3, d)` dice gives,
    for each `k`, the probability that the defender loses `k` armies; the
    chain moves to a target state with that probability. The entries are
    written into `Q` (targets that are transient) or `R` (the rest). */
module MarkovTransitions {
  import opened Dice
  import opened CombatTable
  import opened MarkovStates
  import GroundCombat

  /** `AsWritten`: the target `(a - d + k, d - k)`, which charges the
      attacker `d - k` armies. `Corrected`: the target
      `(a - (m - k), d - k)` with `m = min(3, d)` compared dice pairs. */
  datatype Rule = AsWritten | Corrected

  /** The table key of a transient state: the dice each side throws. */
  function Key(s: State): (int, int) {
    (Min(3, s.a), Min(3, s.d))
  }

  /** The table row of a transient state: a distribution with one entry
      for each possible number of defender losses, `0` to `min(3, d)`. */
  function Outcomes(s: State): (row: seq<real>)
    requires KindOf(s) == Transient
    ensures Distribution(row) && |row| == Min(3, s.d) + 1
  {
    TableRowsAreDistributions();
    Probs[Key(s)]
  }

  /** The state the chain moves to when the defender loses `k` armies. It
      stays in the grid below `s`, the defender has lost exactly `k`, and it
      is never the deleted state `(0, 0)`. */
  function Target(rule: Rule, s: State, k: int): (t: State)
    requires KindOf(s) == Transient && 0 <= k <= Min(3, s.d)
    ensures s.d - t.d == k
    ensures 0 <= t.a <= s.a && 0 <= t.d <= s.d && t != State(0, 0)
  {
    match rule
    case AsWritten => State(s.a - s.d + k, s.d - k)
    case Corrected => State(s.a - (Min(3, s.d) - k), s.d - k)
  }

  /** Different outcomes of one row lead to different states, so writing
      them one after another never overwrites an earlier entry. */
  lemma TargetsAreDistinct(rule: Rule, s: State, j: int, k: int)
    requires KindOf(s) == Transient && 0 <= j <= Min(3, s.d) && 0 <= k <= Min(3, s.d)
    ensures Target(rule, s, j) == Target(rule, s, k) <==> j == k
  {
  }

  /** The corrected target is where a ground round actually leads: from a
      ground battle with `a` committed attackers against `d <= a` defenders, the
      round's defender losses `k` take the battle to
      `Target(Corrected, (a, d), k)`. */
  lemma CorrectedFollowsGroundRound(g: GroundCombat.GroundBattle, att: seq<int>, def: seq<int>)
    requires GroundCombat.Fighting(g) && g.committed >= g.target.armies
    requires |att| == DiceCount(g.committed) && |def| == DiceCount(g.target.armies)
    ensures var s := State(g.committed, g.target.armies);
            var k := |WinsBelow(att, def, Pairs(att, def))|;
            var r := GroundCombat.Round(g, att, def);
            && KindOf(s) == Transient && 0 <= k <= Min(3, s.d)
            && State(r.committed, r.target.armies) == Target(Corrected, s, k)
  {
    var k := |WinsBelow(att, def, Pairs(att, def))|;
    var r := GroundCombat.Round(g, att, def);
    assert Pairs(att, def) == Min(3, g.target.armies);
    assert r.target.armies == g.target.armies - k;
  }

  /** With at most three defenders both rules give the same target. */
  lemma RulesAgreeUpToThreeDefenders(s: State, k: int)
    requires KindOf(s) == Transient && 0 <= k <= Min(3, s.d) && s.d <= 3
    ensures Target(AsWritten, s, k) == Target(Corrected, s, k)
  {
  }

  /** With more than three defenders the written rule charges the attacker
      `d - k` armies although only three pairs of dice were compared. */
  lemma AsWrittenOvercharges(s: State, k: int)
    requires KindOf(s) == Transient && 0 <= k <= Min(3, s.d) && s.d > 3
    ensures s.a - Target(AsWritten, s, k).a == s.d - k
    ensures s.a - Target(Corrected, s, k).a == 3 - k
    ensures Target(AsWritten, s, k).a < Target(Corrected, s, k).a
  {
  }

  /** The counterexample: four attackers against four defenders, a round in
      which the defender loses nothing. The round ends at `(1, 4)`; the
      written rule sends the chain to `(0, 4)`. */
  lemma AsWrittenMissesGroundRound(g: GroundCombat.GroundBattle, att: seq<int>, def: seq<int>)
    requires g.committed == 4 && g.target.armies == 4
    requires |att| == DiceCount(g.committed) && |def| == DiceCount(g.target.armies)
    requires WinsBelow(att, def, Pairs(att, def)) == {}
    ensures GroundCombat.Fighting(g)
    ensures GroundCombat.Round(g, att, def).committed == 1
    ensures GroundCombat.Round(g, att, def).target.armies == 4
    ensures Target(AsWritten, State(4, 4), 0) == State(0, 4)
  {
    CorrectedFollowsGroundRound(g, att, def);
  }

  /** The map value at `t`, `0.0` when absent: unwritten cells are zero. */
  function Get(m: map<State, real>, t: State): real {
    if t in m then m[t] else 0.0
  }

  /** The row of `s` after the first `n` entries of `row` are written: it
      holds the `k`-th entry at the `k`-th target, for each `k < n`, and has
      exactly `n` cells. */
  function Fill(rule: Rule, s: State, row: seq<real>, n: nat): (m: map<State, real>)
    requires KindOf(s) == Transient && |row| == Min(3, s.d) + 1 && n <= |row|
    ensures forall k :: 0 <= k < n ==> Target(rule, s, k) in m && m[Target(rule, s, k)] == row[k]
    ensures forall t :: t in m ==> 0 <= s.d - t.d < n
    ensures |m| == n
  {
    if n == 0 then map[]
    else Fill(rule, s, row, n - 1)[Target(rule, s, n - 1) := row[n - 1]]
  }

  /** Writing the `n`-th entry sets one cell and leaves the others. */
  lemma FillStep(rule: Rule, s: State, row: seq<real>, n: nat)
    requires KindOf(s) == Transient && |row| == Min(3, s.d) + 1 && 0 < n <= |row|
    ensures forall t :: Get(Fill(rule, s, row, n), t) ==
                        (if t == Target(rule, s, n - 1) then row[n - 1] else Get(Fill(rule, s, row, n - 1), t))
  {
    GetUpdate(Fill(rule, s, row, n - 1), Target(rule, s, n - 1), row[n - 1]);
  }

  /** Setting a cell changes that cell and no other. */
  lemma GetUpdate(m: map<State, real>, u: State, v: real)
    ensures forall t :: Get(m[u := v], t) == (if t == u then v else Get(m, t))
  {
    forall t
      ensures Get(m[u := v], t) == (if t == u then v else Get(m, t))
    {
      if t == u {
        assert u in m[u := v];
      } else {
        assert t in m[u := v] <==> t in m;
      }
    }
  }

  /** The complete row of a transient state. */
  function RowOf(rule: Rule, s: State): map<State, real>
    requires KindOf(s) == Transient
  {
    var row := Outcomes(s);
    Fill(rule, s, row, |row|)
  }

  /** The sum of a row over a list of columns. */
  function SumRow(cols: seq<State>, m: map<State, real>): real {
    if cols == [] then 0.0 else SumRow(cols[..|cols| - 1], m) + Get(m, cols[|cols| - 1])
  }

  /** Writing `p` into a new cell adds `p` once per occurrence of the cell
      among the columns. */
  lemma {:induction false} SumRowUpdate(cols: seq<State>, m: map<State, real>, t: State, p: real)
    requires t !in m
    ensures SumRow(cols, m[t := p]) == SumRow(cols, m) + p * Count(cols, t) as real
  {
    if cols != [] {
      SumRowUpdate(cols[..|cols| - 1], m, t, p);
    }
  }

  lemma {:induction false} SumRowConcat(xs: seq<State>, ys: seq<State>, m: map<State, real>)
    ensures SumRow(xs + ys, m) == SumRow(xs, m) + SumRow(ys, m)
    decreases |ys|
  {
    if ys == [] {
      assert xs + ys == xs;
    } else {
      var n := |ys| - 1;
      assert (xs + ys)[..|xs + ys| - 1] == xs + ys[..n];
      SumRowConcat(xs, ys[..n], m);
    }
  }

  /** Over columns that list every target once, the first `n` written
      cells add up to the first `n` entries of the row. */
  lemma {:induction false} FillSum(cols: seq<State>, rule: Rule, s: State, row: seq<real>, n: nat)
    requires KindOf(s) == Transient && |row| == Min(3, s.d) + 1 && n <= |row|
    requires forall k :: 0 <= k < |row| ==> Count(cols, Target(rule, s, k)) == 1
    ensures SumRow(cols, Fill(rule, s, row, n)) == Sum(row[..n])
  {
    if n == 0 {
      SumRowEmpty(cols);
      assert row[..0] == [];
    } else {
      FillSum(cols, rule, s, row, n - 1);
      SumRowUpdate(cols, Fill(rule, s, row, n - 1), Target(rule, s, n - 1), row[n - 1]);
      assert row[..n][..n - 1] == row[..n - 1];
    }
  }

  lemma {:induction false} SumRowEmpty(cols: seq<State>)
    ensures SumRow(cols, map[]) == 0.0
  {
    if cols != [] {
      SumRowEmpty(cols[..|cols| - 1]);
    }
  }

  /** Every row of the chain is a probability distribution over the
      chain's states: its cells over the transient states followed by the
      absorbing states add up to one, whichever rule places them. */
  lemma RowSumsToOne(A: nat, D: nat, rule: Rule, s: State)
    requires InGrid(s, A, D) && KindOf(s) == Transient
    ensures FirstIsOrigin(A, D)
    ensures SumRow(TransientStates(A, D) + AbsorbingStates(A, D), RowOf(rule, s)) == 1.0
  {
    OriginComesFirst(A, D);
    var row := Outcomes(s);
    forall k | 0 <= k < |row|
      ensures Count(TransientStates(A, D) + AbsorbingStates(A, D), Target(rule, s, k)) == 1
    {
      ColumnsListEachStateOnce(A, D, Target(rule, s, k));
    }
    FillSum(TransientStates(A, D) + AbsorbingStates(A, D), rule, s, row, |row|);
    assert row[..|row|] == row;
  }

  /** A matrix by rows: `m[s][t]` is the cell `(s, t)`. Cells never
      written are zero, as in the zero-filled frames the program starts
      from. */
  type Matrix = map<State, map<State, real>>

  function Entry(m: Matrix, s: State, t: State): real {
    if s in m then Get(m[s], t) else 0.0
  }

  /** The sum of the row of `s` of a matrix over a list of columns. */
  function SumEntries(cols: seq<State>, m: Matrix, s: State): real {
    if cols == [] then 0.0 else SumEntries(cols[..|cols| - 1], m, s) + Entry(m, s, cols[|cols| - 1])
  }

  lemma {:induction false} SumEntriesMatch(cols: seq<State>, m: Matrix, s: State, row: map<State, real>)
    requires forall t :: t in cols ==> Entry(m, s, t) == Get(row, t)
    ensures SumEntries(cols, m, s) == SumRow(cols, row)
  {
    if cols != [] {
      SumEntriesMatch(cols[..|cols| - 1], m, s, row);
    }
  }

  /** The rows the filling loops have written before reaching `next`. */
  predicate Written(s: State, A: nat, D: nat, next: State) {
    InGrid(s, A, D) && KindOf(s) == Transient && Before(s, next)
  }

  /** The cell `(s, t)` of the chain's row of `s` when it belongs in `Q`
      (`toQ`, the column is one of `columns`) or in `R`, zero otherwise. */
  function Part(rule: Rule, s: State, columns: seq<State>, toQ: bool, t: State): real
    requires KindOf(s) == Transient
  {
    if (t in columns) == toQ then Get(RowOf(rule, s), t) else 0.0
  }

  /** `Q` and `R` hold the rows written before `next`, each split between
      them by column. */
  ghost predicate FilledBefore(q: Matrix, r: Matrix, rule: Rule, columns: seq<State>, A: nat, D: nat, next: State) {
    && (forall s :: s in q <==> Written(s, A, D, next))
    && (forall s :: s in r <==> Written(s, A, D, next))
    && (forall s, t :: s in q ==> Get(q[s], t) == Part(rule, s, columns, true, t))
    && (forall s, t :: s in r ==> Get(r[s], t) == Part(rule, s, columns, false, t))
  }

  /** The filling loops: for every transient state `(a, d)`, in loop order,
      each outcome's probability goes into `Q` when its target is one of
      `Q`'s columns and into `R` otherwise. */
  method FillMatrices(A: nat, D: nat, rule: Rule, columns: seq<State>) returns (q: Matrix, r: Matrix)
    ensures forall s, t :: Entry(q, s, t) ==
                           (if InGrid(s, A, D) && KindOf(s) == Transient && t in columns then Get(RowOf(rule, s), t) else 0.0)
    ensures forall s, t :: Entry(r, s, t) ==
                           (if InGrid(s, A, D) && KindOf(s) == Transient && t !in columns then Get(RowOf(rule, s), t) else 0.0)
  {
    q, r := map[], map[];
    var a := 1;
    while a <= A
      invariant 1 <= a <= A + 1
      invariant FilledBefore(q, r, rule, columns, A, D, State(a, 1))
    {
      q, r := FillRows(A, D, rule, columns, a, q, r);
      a := a + 1;
    }
    forall s | InGrid(s, A, D) && KindOf(s) == Transient
      ensures Written(s, A, D, State(a, 1))
    {
    }
  }

  /** The loop over `d` for one `a`. */
  method FillRows(A: nat, D: nat, rule: Rule, columns: seq<State>, a: nat, q: Matrix, r: Matrix)
    returns (q': Matrix, r': Matrix)
    requires 1 <= a <= A
    requires FilledBefore(q, r, rule, columns, A, D, State(a, 1))
    ensures FilledBefore(q', r', rule, columns, A, D, State(a + 1, 1))
  {
    q', r' := q, r;
    var d := 1;
    while d != D + 1
      invariant 1 <= d <= D + 1
      invariant FilledBefore(q', r', rule, columns, A, D, State(a, d))
    {
      if a >= d {
        var s := State(a, d);
        var qRow, rRow := WriteRow(rule, columns, s, Outcomes(s));
        assert Split(qRow, rRow, columns, RowOf(rule, s));
        WriteState(q', r', rule, columns, A, D, s, qRow, rRow);
        q', r' := q'[s := qRow], r'[s := rRow];
      } else {
        SkipState(q', r', rule, columns, A, D, State(a, d));
      }
      d := d + 1;
    }
    NextRow(q', r', rule, columns, A, D, a);
  }

  /** Writing the rows of transient state `s` moves the filled part past
      `s`. */
  lemma WriteState(q: Matrix, r: Matrix, rule: Rule, columns: seq<State>, A: nat, D: nat,
                   s: State, qRow: map<State, real>, rRow: map<State, real>)
    requires 1 <= s.d <= D && 1 <= s.a <= A && s.a >= s.d
    requires FilledBefore(q, r, rule, columns, A, D, s)
    requires Split(qRow, rRow, columns, RowOf(rule, s))
    ensures FilledBefore(q[s := qRow], r[s := rRow], rule, columns, A, D, State(s.a, s.d + 1))
  {
    WrittenStep(A, D, s);
    var q', r' := q[s := qRow], r[s := rRow];
    forall x, t | x in q'
      ensures Get(q'[x], t) == Part(rule, x, columns, true, t)
    {
      if x == s {
        assert Get(qRow, t) == (if t in columns then Get(RowOf(rule, s), t) else 0.0);
      } else {
        assert x in q && q'[x] == q[x];
      }
    }
    forall x, t | x in r'
      ensures Get(r'[x], t) == Part(rule, x, columns, false, t)
    {
      if x == s {
        assert Get(rRow, t) == (if t !in columns then Get(RowOf(rule, s), t) else 0.0);
      } else {
        assert x in r && r'[x] == r[x];
      }
    }
  }

  lemma WrittenStep(A: nat, D: nat, s: State)
    requires 1 <= s.d <= D && 1 <= s.a <= A && s.a >= s.d
    ensures forall x :: Written(x, A, D, State(s.a, s.d + 1)) <==> Written(x, A, D, s) || x == s
  {
    forall x
      ensures Written(x, A, D, State(s.a, s.d + 1)) <==> Written(x, A, D, s) || x == s
    {
      if x.a == s.a && x.d == s.d {
        assert x == s;
      }
    }
  }

  /** A state with more defenders than attackers is not transient, so
      nothing is written for it. */
  lemma SkipState(q: Matrix, r: Matrix, rule: Rule, columns: seq<State>, A: nat, D: nat, s: State)
    requires s.a < s.d
    requires FilledBefore(q, r, rule, columns, A, D, s)
    ensures FilledBefore(q, r, rule, columns, A, D, State(s.a, s.d + 1))
  {
    forall x
      ensures Written(x, A, D, State(s.a, s.d + 1)) <==> Written(x, A, D, s)
    {
      if x.a == s.a && x.d == s.d {
        assert x == s;
      }
    }
  }

  /** Past the last column of row `a` comes the first state of row `a + 1`. */
  lemma NextRow(q: Matrix, r: Matrix, rule: Rule, columns: seq<State>, A: nat, D: nat, a: nat)
    requires FilledBefore(q, r, rule, columns, A, D, State(a, D + 1))
    ensures FilledBefore(q, r, rule, columns, A, D, State(a + 1, 1))
  {
    forall x | KindOf(x) == Transient
      ensures Written(x, A, D, State(a + 1, 1)) <==> Written(x, A, D, State(a, D + 1))
    {
    }
  }

  /** `qRow` holds the cells of `m` whose column is one of `columns`,
      `rRow` the others. */
  ghost predicate Split(qRow: map<State, real>, rRow: map<State, real>, columns: seq<State>, m: map<State, real>) {
    forall t :: && Get(qRow, t) == (if t in columns then Get(m, t) else 0.0)
                && Get(rRow, t) == (if t !in columns then Get(m, t) else 0.0)
  }

  /** The loop over the outcomes of one transient state `s`: the cell of
      each target is set in the row of `Q` when the target is a column of
      `Q`, in the row of `R` otherwise. */
  method WriteRow(rule: Rule, columns: seq<State>, s: State, row: seq<real>)
    returns (qRow: map<State, real>, rRow: map<State, real>)
    requires KindOf(s) == Transient && |row| == Min(3, s.d) + 1
    ensures Split(qRow, rRow, columns, Fill(rule, s, row, |row|))
  {
    qRow, rRow := map[], map[];
    var k := 0;
    while k < |row|
      invariant 0 <= k <= |row|
      invariant Split(qRow, rRow, columns, Fill(rule, s, row, k))
    {
      var t := Target(rule, s, k);
      WriteStep(rule, columns, s, row, k + 1, qRow, rRow);
      if t in columns {
        qRow := qRow[t := row[k]];
      } else {
        rRow := rRow[t := row[k]];
      }
      k := k + 1;
    }
  }

  /** One iteration of the outcome loop keeps the split. */
  lemma WriteStep(rule: Rule, columns: seq<State>, s: State, row: seq<real>, n: nat,
                  qRow: map<State, real>, rRow: map<State, real>)
    requires KindOf(s) == Transient && |row| == Min(3, s.d) + 1 && 0 < n <= |row|
    requires Split(qRow, rRow, columns, Fill(rule, s, row, n - 1))
    ensures var t := Target(rule, s, n - 1);
            if t in columns then Split(qRow[t := row[n - 1]], rRow, columns, Fill(rule, s, row, n))
            else Split(qRow, rRow[t := row[n - 1]], columns, Fill(rule, s, row, n))
  {
    var t := Target(rule, s, n - 1);
    FillStep(rule, s, row, n);
    GetUpdate(qRow, t, row[n - 1]);
    GetUpdate(rRow, t, row[n - 1]);
  }

  /** The chain as the program builds it: the states, then the filled
      matrices. `Q` holds each transient row's probabilities towards the
      transient states and `R` the rest; every row of `Q` together with the
      same row of `R` adds up to one. */
  method BuildChain(A: nat, D: nat, rule: Rule)
    returns (transient: seq<State>, absorbing: seq<State>, q: Matrix, r: Matrix)
    ensures transient == TransientStates(A, D)
    ensures FirstIsOrigin(A, D) && absorbing == AbsorbingStates(A, D)
    ensures forall s :: s in transient <==> InGrid(s, A, D) && KindOf(s) == Transient
    ensures forall s, t :: Entry(q, s, t) ==
                           (if s in transient && t in transient then Get(RowOf(rule, s), t) else 0.0)
    ensures forall s, t :: Entry(r, s, t) ==
                           (if s in transient && t !in transient then Get(RowOf(rule, s), t) else 0.0)
    ensures forall s :: s in transient ==> SumEntries(transient, q, s) + SumEntries(absorbing, r, s) == 1.0
  {
    absorbing, transient := EnumerateStates(A, D);
    q, r := FillMatrices(A, D, rule, transient);
    forall s | s in transient
      ensures SumEntries(transient, q, s) + SumEntries(absorbing, r, s) == 1.0
    {
      RowSumsToOne(A, D, rule, s);
      SumEntriesMatch(transient, q, s, RowOf(rule, s));
      SumEntriesMatch(absorbing, r, s, RowOf(rule, s));
      SumRowConcat(transient, absorbing, RowOf(rule, s));
    }
  }
}
