/** The state space of the absorbing Markov chain of a battle: every
    `(a, d)` with `0 <= a <= A` and `0 <= d <= D`, where `a` and `d` are the
    attacker's and the defender's armies. A state is transient when
    `a >= d >= 1`; every other state except `(0, 0)` is absorbing, the ones
    with `0 < a < d` listed first. */
module MarkovStates {

  datatype State = State(a: int, d: int)

  /** Transient: `a >= d >= 1`. Inner: absorbing with `0 < a < d`.
      Boundary: absorbing with `a == 0` or `d == 0`. */
  datatype Kind = Transient | Inner | Boundary

  function KindOf(s: State): Kind {
    if 1 <= s.d <= s.a then Transient
    else if 0 < s.a < s.d then Inner
    else Boundary
  }

  predicate InGrid(s: State, A: int, D: int) {
    0 <= s.a <= A && 0 <= s.d <= D
  }

  /** The order the nested loops visit states in: by `a`, then by `d`. */
  predicate Before(s: State, t: State) {
    s.a < t.a || (s.a == t.a && s.d < t.d)
  }

  predicate Increasing(xs: seq<State>) {
    forall i, j :: 0 <= i < j < |xs| ==> Before(xs[i], xs[j])
  }

  /** `(a, 0), (a, 1), ..., (a, count - 1)`. */
  function Row(a: int, count: nat): seq<State> {
    if count == 0 then [] else Row(a, count - 1) + [State(a, count - 1)]
  }

  /** The rows `a = 0, ..., rows - 1`, each from `d = 0` to `d = D`. */
  function Rows(rows: nat, D: nat): seq<State> {
    if rows == 0 then [] else Rows(rows - 1, D) + Row(rows - 1, D + 1)
  }

  /** Every state of the grid, in loop order. */
  function Grid(A: nat, D: nat): seq<State> {
    Rows(A + 1, D)
  }

  /** The states of `xs` of kind `k`, in the order of `xs`. */
  function Select(xs: seq<State>, k: Kind): seq<State> {
    if xs == [] then []
    else
      var last := xs[|xs| - 1];
      Select(xs[..|xs| - 1], k) + (if KindOf(last) == k then [last] else [])
  }

  /** The transient states in loop order: the reference definition of the
      source's `transient_states`. */
  function TransientStates(A: nat, D: nat): seq<State> {
    Select(Grid(A, D), Transient)
  }

  /** The absorbing states: those with `0 < a < d` in loop order, then the
      boundary states in loop order without their first, `(0, 0)`. */
  function AbsorbingStates(A: nat, D: nat): seq<State>
    requires |Select(Grid(A, D), Boundary)| > 0
  {
    Select(Grid(A, D), Inner) + Select(Grid(A, D), Boundary)[1..]
  }

  /** The enumeration loop of the chain's states, with the final deletion of
      `(0, 0)`. States with `0 < a < d` are inserted at position `idx`, in
      front of every boundary state; the rest are appended. */
  method EnumerateStates(A: nat, D: nat) returns (absorbing: seq<State>, transient: seq<State>)
    ensures transient == TransientStates(A, D)
    ensures FirstIsOrigin(A, D) && absorbing == AbsorbingStates(A, D)
    ensures forall s :: s in transient <==> InGrid(s, A, D) && KindOf(s) == Transient
    ensures forall s :: s in absorbing <==> InGrid(s, A, D) && KindOf(s) != Transient && s != State(0, 0)
    ensures Increasing(transient)
  {
    var idx;
    absorbing, transient, idx := VisitGrid(A, D);
    absorbing := DeleteOrigin(A, D, absorbing, idx);
    StatesPartitionGrid(A, D);
  }

  /** The outer loop: the rows `a = 0, ..., A`. */
  method VisitGrid(A: nat, D: nat) returns (absorbing: seq<State>, transient: seq<State>, idx: nat)
    ensures Classified(Rows(A + 1, D), absorbing, transient, idx)
  {
    absorbing, transient, idx := [], [], 0;
    var a := 0;
    while a != A + 1
      invariant 0 <= a <= A + 1
      invariant Classified(Rows(a, D), absorbing, transient, idx)
    {
      absorbing, transient, idx := VisitGridRow(a, D, absorbing, transient, idx);
      a := a + 1;
    }
  }

  /** The inner loop for row `a`, after the rows before it. */
  method VisitGridRow(a: nat, D: nat, absorbing: seq<State>, transient: seq<State>, idx: nat)
    returns (absorbing': seq<State>, transient': seq<State>, idx': nat)
    requires Classified(Rows(a, D), absorbing, transient, idx)
    ensures Classified(Rows(a + 1, D), absorbing', transient', idx')
  {
    absorbing', transient', idx' := VisitRow(Rows(a, D), a, D, absorbing, transient, idx);
    assert Rows(a + 1, D) == Rows(a, D) + Row(a, D + 1);
  }

  /** The inner loop: the states `(a, 0), ..., (a, D)` of one row. */
  method VisitRow(ghost before: seq<State>, a: nat, D: nat, absorbing: seq<State>, transient: seq<State>, idx: nat)
    returns (absorbing': seq<State>, transient': seq<State>, idx': nat)
    requires Classified(before, absorbing, transient, idx)
    ensures Classified(before + Row(a, D + 1), absorbing', transient', idx')
  {
    absorbing', transient', idx' := absorbing, transient, idx;
    var d := 0;
    ghost var visited := before;
    assert before + Row(a, 0) == before;
    while d <= D
      invariant 0 <= d <= D + 1
      invariant visited == before + Row(a, d)
      invariant Classified(visited, absorbing', transient', idx')
    {
      absorbing', transient', idx' := Visit(visited, State(a, d), absorbing', transient', idx');
      visited := visited + [State(a, d)];
      d := d + 1;
    }
  }

  /** `del absorbing_states[idx_col]`: the entry at `idx` is `(0, 0)`. */
  function DeleteOrigin(A: nat, D: nat, absorbing: seq<State>, idx: nat): (r: seq<State>)
    requires absorbing == Select(Grid(A, D), Inner) + Select(Grid(A, D), Boundary)
    requires idx == |Select(Grid(A, D), Inner)|
    ensures FirstIsOrigin(A, D) && r == AbsorbingStates(A, D)
    ensures |r| + 1 == |absorbing| && absorbing[idx] == State(0, 0)
  {
    OriginComesFirst(A, D);
    var inner, boundary := Select(Grid(A, D), Inner), Select(Grid(A, D), Boundary);
    assert absorbing[..idx] == inner;
    assert absorbing[idx + 1..] == boundary[1..];
    absorbing[..idx] + absorbing[idx + 1..]
  }

  /** The lists the loops have built after visiting the states `visited`:
      transient states in visiting order; absorbing states with `0 < a < d`
      in visiting order, then the other absorbing states in visiting order;
      `idx` marks where the second group starts. */
  predicate Classified(visited: seq<State>, absorbing: seq<State>, transient: seq<State>, idx: nat) {
    && transient == Select(visited, Transient)
    && absorbing == Select(visited, Inner) + Select(visited, Boundary)
    && idx == |Select(visited, Inner)|
  }

  /** The body of the nested loops for one state `s`, after the states
      `visited`: insert it at `idx` when `0 < a < d`, append it to the
      absorbing states when `a == 0` or `d == 0`, to the transient states
      otherwise. */
  method Visit(ghost visited: seq<State>, s: State, absorbing: seq<State>, transient: seq<State>, idx: nat)
    returns (absorbing': seq<State>, transient': seq<State>, idx': nat)
    requires s.a >= 0 && s.d >= 0
    requires Classified(visited, absorbing, transient, idx)
    ensures Classified(visited + [s], absorbing', transient', idx')
  {
    SelectSnoc(visited, s, Transient);
    SelectSnoc(visited, s, Inner);
    SelectSnoc(visited, s, Boundary);
    absorbing', transient', idx' := absorbing, transient, idx;
    if s.a == 0 || s.d == 0 || s.a < s.d {
      if s.a < s.d && s.a > 0 && s.d > 0 {
        absorbing' := absorbing[..idx] + [s] + absorbing[idx..];
        idx' := idx + 1;
      } else {
        absorbing' := absorbing + [s];
      }
    } else {
      transient' := transient + [s];
    }
  }

  lemma SelectSnoc(xs: seq<State>, x: State, k: Kind)
    ensures Select(xs + [x], k) == Select(xs, k) + (if KindOf(x) == k then [x] else [])
  {
    assert (xs + [x])[..|xs|] == xs;
  }

  predicate FirstIsOrigin(A: nat, D: nat) {
    |Select(Grid(A, D), Boundary)| > 0 && Select(Grid(A, D), Boundary)[0] == State(0, 0)
  }

  /** `(0, 0)` is the first boundary state the loops meet, so deleting at
      position `idx` deletes it. */
  lemma OriginComesFirst(A: nat, D: nat)
    ensures FirstIsOrigin(A, D)
  {
    GridStartsAtOrigin(A + 1, D);
    SelectKeepsFirst(Grid(A, D), Boundary);
  }

  lemma {:induction false} GridStartsAtOrigin(rows: nat, D: nat)
    requires rows > 0
    ensures |Rows(rows, D)| > 0 && Rows(rows, D)[0] == State(0, 0)
  {
    if rows == 1 {
      RowStartsAtZero(0, D + 1);
      assert Rows(1, D) == Row(0, D + 1);
    } else {
      GridStartsAtOrigin(rows - 1, D);
    }
  }

  lemma {:induction false} RowStartsAtZero(a: int, count: nat)
    requires count > 0
    ensures Row(a, count)[0] == State(a, 0)
  {
    if count > 1 {
      RowStartsAtZero(a, count - 1);
    }
  }

  lemma {:induction false} SelectKeepsFirst(xs: seq<State>, k: Kind)
    requires |xs| > 0 && KindOf(xs[0]) == k
    ensures |Select(xs, k)| > 0 && Select(xs, k)[0] == xs[0]
  {
    if |xs| > 1 {
      SelectKeepsFirst(xs[..|xs| - 1], k);
    }
  }

  /** A state is selected exactly when it is in the list and of the kind;
      selecting keeps the loop order. */
  lemma {:induction false} SelectContents(xs: seq<State>, k: Kind)
    ensures forall s :: s in Select(xs, k) <==> s in xs && KindOf(s) == k
    ensures Increasing(xs) ==> Increasing(Select(xs, k))
  {
    if xs != [] {
      var n := |xs| - 1;
      assert xs == xs[..n] + [xs[n]];
      SelectContents(xs[..n], k);
      if Increasing(xs) {
        assert Increasing(xs[..n]);
        forall s | s in Select(xs[..n], k)
          ensures Before(s, xs[n])
        {
          var i :| 0 <= i < n && xs[i] == s;
        }
      }
    }
  }

  lemma {:induction false} RowContents(a: int, count: nat)
    ensures forall s :: s in Row(a, count) <==> s.a == a && 0 <= s.d < count
    ensures Increasing(Row(a, count))
  {
    if count > 0 {
      RowContents(a, count - 1);
    }
  }

  lemma {:induction false} RowsContents(rows: nat, D: nat)
    ensures forall s :: s in Rows(rows, D) <==> 0 <= s.a < rows && 0 <= s.d <= D
    ensures Increasing(Rows(rows, D))
  {
    if rows > 0 {
      var before, last := Rows(rows - 1, D), Row(rows - 1, D + 1);
      RowsContents(rows - 1, D);
      RowContents(rows - 1, D + 1);
      assert Rows(rows, D) == before + last;
      forall x, y | x in before && y in last
        ensures Before(x, y)
      {
      }
      ConcatIncreasing(before, last);
    }
  }

  lemma ConcatIncreasing(xs: seq<State>, ys: seq<State>)
    requires Increasing(xs) && Increasing(ys)
    requires forall x, y :: x in xs && y in ys ==> Before(x, y)
    ensures Increasing(xs + ys)
  {
    forall i, j | 0 <= i < j < |xs + ys|
      ensures Before((xs + ys)[i], (xs + ys)[j])
    {
      if j < |xs| {
      } else if i >= |xs| {
        assert (xs + ys)[i] == ys[i - |xs|];
        assert (xs + ys)[j] == ys[j - |xs|];
      } else {
        assert (xs + ys)[i] in xs;
        assert (xs + ys)[j] in ys;
      }
    }
  }

  /** The boundary states after `(0, 0)`, in loop order. */
  lemma BoundaryTailContents(A: nat, D: nat)
    ensures FirstIsOrigin(A, D)
    ensures forall s :: s in Select(Grid(A, D), Boundary)[1..] <==>
      InGrid(s, A, D) && KindOf(s) == Boundary && s != State(0, 0)
    ensures Increasing(Select(Grid(A, D), Boundary)[1..])
  {
    OriginComesFirst(A, D);
    RowsContents(A + 1, D);
    var boundary := Select(Grid(A, D), Boundary);
    SelectContents(Grid(A, D), Boundary);
    forall s
      ensures s in boundary[1..] <==> s in boundary && s != State(0, 0)
    {
      if s in boundary[1..] {
        var i :| 1 <= i < |boundary| && boundary[i] == s;
        assert Before(boundary[0], boundary[i]);
      }
      if s in boundary && s != State(0, 0) {
        var i :| 0 <= i < |boundary| && boundary[i] == s;
        assert boundary[i] == boundary[1..][i - 1];
      }
    }
  }

  /** Every state of the grid but `(0, 0)` is in exactly one of the two
      lists, neither list repeats a state, and `(0, 0)` is in neither. */
  lemma StatesPartitionGrid(A: nat, D: nat)
    ensures FirstIsOrigin(A, D)
    ensures forall s :: s in TransientStates(A, D) <==> InGrid(s, A, D) && KindOf(s) == Transient
    ensures forall s :: s in AbsorbingStates(A, D) <==> InGrid(s, A, D) && KindOf(s) != Transient && s != State(0, 0)
    ensures Increasing(TransientStates(A, D))
  {
    BoundaryTailContents(A, D);
    RowsContents(A + 1, D);
    SelectContents(Grid(A, D), Transient);
    SelectContents(Grid(A, D), Inner);
  }

  /** How many times `t` occurs in `xs`. */
  function Count(xs: seq<State>, t: State): nat {
    if xs == [] then 0
    else Count(xs[..|xs| - 1], t) + (if xs[|xs| - 1] == t then 1 else 0)
  }

  lemma {:induction false} CountConcat(xs: seq<State>, ys: seq<State>, t: State)
    ensures Count(xs + ys, t) == Count(xs, t) + Count(ys, t)
    decreases |ys|
  {
    if ys == [] {
      assert xs + ys == xs;
    } else {
      var n := |ys| - 1;
      assert (xs + ys)[..|xs + ys| - 1] == xs + ys[..n];
      CountConcat(xs, ys[..n], t);
    }
  }

  /** A list in loop order holds each of its states once. */
  lemma {:induction false} CountIncreasing(xs: seq<State>, t: State)
    requires Increasing(xs)
    ensures Count(xs, t) == if t in xs then 1 else 0
  {
    if xs != [] {
      var n := |xs| - 1;
      assert xs == xs[..n] + [xs[n]];
      assert Increasing(xs[..n]);
      CountIncreasing(xs[..n], t);
      forall i | 0 <= i < n
        ensures xs[i] != xs[n]
      {
        assert Before(xs[i], xs[n]);
      }
    }
  }

  /** The columns of `[Q | R]`, transient states then absorbing states, list
      every state of the grid but `(0, 0)` exactly once. */
  lemma ColumnsListEachStateOnce(A: nat, D: nat, t: State)
    requires InGrid(t, A, D) && t != State(0, 0)
    ensures FirstIsOrigin(A, D)
    ensures Count(TransientStates(A, D) + AbsorbingStates(A, D), t) == 1
  {
    StatesPartitionGrid(A, D);
    BoundaryTailContents(A, D);
    RowsContents(A + 1, D);
    var grid := Grid(A, D);
    var inner, rest := Select(grid, Inner), Select(grid, Boundary)[1..];
    SelectContents(grid, Inner);
    CountConcat(TransientStates(A, D), AbsorbingStates(A, D), t);
    CountConcat(inner, rest, t);
    CountIncreasing(TransientStates(A, D), t);
    CountIncreasing(inner, t);
    CountIncreasing(rest, t);
    match KindOf(t) {
      case Transient =>
        assert t in TransientStates(A, D) && t !in inner && t !in rest;
      case Inner =>
        assert t !in TransientStates(A, D) && t in inner && t !in rest;
      case Boundary =>
        assert t !in TransientStates(A, D) && t !in inner && t in rest;
    }
  }
}
