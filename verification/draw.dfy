/** The weighted roulette draw of `spinSlots`: a running sum over the odds
    table is compared with a random number `r` in `[0, total)`, and the
    first row whose running sum reaches `r` wins. The random number is a
    parameter; its long-run frequencies are not modelled. */
module WeightedDraw {
  import opened PrizeCatalog

  /** One row of the odds table. */
  datatype Odds = Odds(prizeIndex: nat, weight: nat)

  /** The odds table inside `spinSlots`. */
  const PrizeOdds: seq<Odds> :=
    [Odds(0, 1), Odds(1, 2), Odds(2, 5), Odds(3, 90), Odds(4, 2)]

  /** The index the draw keeps when no running sum reaches `r`. */
  const DefaultIndex: nat := 3

  /** The total weight, as the `reduce` over the table computes it. */
  function TotalWeight(odds: seq<Odds>): nat {
    if odds == [] then 0 else odds[0].weight + TotalWeight(odds[1..])
  }

  /** The sum of the first `n` weights. */
  function RunningSum(odds: seq<Odds>, n: nat): nat
    requires n <= |odds|
  {
    if n == 0 then 0 else RunningSum(odds, n - 1) + odds[n - 1].weight
  }

  /** `currentWeight` once row `k` has been added. */
  function Cumulative(odds: seq<Odds>, k: nat): nat
    requires k < |odds|
  {
    RunningSum(odds, k + 1)
  }

  /** The `for ... break` loop, resumed at row `k`. */
  function Scan(odds: seq<Odds>, r: real, k: nat): nat
    requires k <= |odds|
    decreases |odds| - k
  {
    if k == |odds| then DefaultIndex
    else if r <= Cumulative(odds, k) as real then odds[k].prizeIndex
    else Scan(odds, r, k + 1)
  }

  /** The winning index for the random number `r`. */
  function Draw(odds: seq<Odds>, r: real): nat {
    Scan(odds, r, 0)
  }

  /** Row `m` is the first row whose running sum reaches `r`. */
  ghost predicate FirstReach(odds: seq<Odds>, r: real, m: nat) {
    && m < |odds|
    && r <= Cumulative(odds, m) as real
    && forall j :: 0 <= j < m ==> (Cumulative(odds, j) as real) < r
  }

  /** No row's running sum reaches `r`. */
  ghost predicate NoReach(odds: seq<Odds>, r: real) {
    forall j :: 0 <= j < |odds| ==> (Cumulative(odds, j) as real) < r
  }

  /** The running sum over the whole table is the total weight. */
  lemma {:induction false} RunningSumIsTotal(odds: seq<Odds>)
    ensures RunningSum(odds, |odds|) == TotalWeight(odds)
  {
    SplitTotal(odds, |odds|);
    assert odds[|odds|..] == [];
  }

  lemma {:induction false} SplitTotal(odds: seq<Odds>, n: nat)
    requires n <= |odds|
    ensures RunningSum(odds, n) + TotalWeight(odds[n..]) == TotalWeight(odds)
  {
    if n > 0 {
      SplitTotal(odds, n - 1);
      assert odds[n - 1..][1..] == odds[n..];
    } else {
      assert odds[0..] == odds;
    }
  }

  lemma {:induction false} ScanFirstReach(odds: seq<Odds>, r: real, k: nat, m: nat)
    requires k <= m < |odds|
    requires r <= Cumulative(odds, m) as real
    requires forall j :: k <= j < m ==> (Cumulative(odds, j) as real) < r
    ensures Scan(odds, r, k) == odds[m].prizeIndex
    decreases m - k
  {
    if k < m {
      ScanFirstReach(odds, r, k + 1, m);
    }
  }

  lemma {:induction false} ScanNoReach(odds: seq<Odds>, r: real, k: nat)
    requires k <= |odds|
    requires forall j :: k <= j < |odds| ==> (Cumulative(odds, j) as real) < r
    ensures Scan(odds, r, k) == DefaultIndex
    decreases |odds| - k
  {
    if k < |odds| {
      ScanNoReach(odds, r, k + 1);
    }
  }

  /** The draw returns the index of the first row whose running sum is at
      least `r`, every earlier running sum being below `r`; when no row
      reaches `r` it keeps the default index. */
  lemma DrawIsFirstReach(odds: seq<Odds>, r: real)
    ensures forall m: nat :: FirstReach(odds, r, m) ==> Draw(odds, r) == odds[m].prizeIndex
    ensures NoReach(odds, r) ==> Draw(odds, r) == DefaultIndex
    ensures NoReach(odds, r) || exists m: nat :: FirstReach(odds, r, m)
  {
    forall m: nat | FirstReach(odds, r, m)
      ensures Draw(odds, r) == odds[m].prizeIndex
    {
      ScanFirstReach(odds, r, 0, m);
    }
    if NoReach(odds, r) {
      ScanNoReach(odds, r, 0);
    } else {
      var m :| 0 <= m < |odds| && r <= Cumulative(odds, m) as real;
      LeastReach(odds, r, m);
    }
  }

  lemma {:induction false} LeastReach(odds: seq<Odds>, r: real, m: nat)
    requires m < |odds| && r <= Cumulative(odds, m) as real
    ensures exists k: nat :: FirstReach(odds, r, k)
    decreases m
  {
    if forall j :: 0 <= j < m ==> (Cumulative(odds, j) as real) < r {
      assert FirstReach(odds, r, m);
    } else {
      var j :| 0 <= j < m && r <= Cumulative(odds, j) as real;
      LeastReach(odds, r, j);
    }
  }

  /** For `r` no larger than the total weight of a non-empty table the
      loop always breaks: the last running sum is the total. */
  lemma DrawBreaksWithinTotal(odds: seq<Odds>, r: real)
    requires |odds| > 0
    requires r <= TotalWeight(odds) as real
    ensures exists m: nat :: FirstReach(odds, r, m) && Draw(odds, r) == odds[m].prizeIndex
  {
    RunningSumIsTotal(odds);
    assert Cumulative(odds, |odds| - 1) == TotalWeight(odds);
    DrawIsFirstReach(odds, r);
  }

  // ---------------------------------------------------------------------
  // The concrete 1/2/5/90/2 table.

  /** The running sum after each row of the concrete table. */
  const UpperBounds: seq<nat> := [1, 3, 8, 98, 100]

  lemma PrizeOddsFacts()
    ensures |PrizeOdds| == |Prizes| == 5
    ensures forall k :: 0 <= k < |PrizeOdds| ==> PrizeOdds[k].weight > 0
    ensures forall k :: 0 <= k < |PrizeOdds| ==> PrizeOdds[k].prizeIndex == k
    ensures forall k :: 0 <= k < |PrizeOdds| ==> Cumulative(PrizeOdds, k) == UpperBounds[k]
    ensures TotalWeight(PrizeOdds) == 100
  {
    assert RunningSum(PrizeOdds, 1) == 1;
    assert RunningSum(PrizeOdds, 2) == 3;
    assert RunningSum(PrizeOdds, 3) == 8;
    assert RunningSum(PrizeOdds, 4) == 98;
    assert RunningSum(PrizeOdds, 5) == 100;
    RunningSumIsTotal(PrizeOdds);
  }

  /** The lower end of prize `i`'s slice of `[0, 100)`. */
  function LowerBound(i: nat): nat
    requires i < 5
  {
    if i == 0 then 0 else UpperBounds[i - 1]
  }

  /** `r` falls into prize `i`'s slice: the first slice is closed at both
      ends, the others are open below and closed above. */
  predicate InSlice(i: nat, r: real)
    requires i < 5
  {
    (i == 0 || LowerBound(i) as real < r) && r <= UpperBounds[i] as real
  }

  /** The draw of `spinSlots` with random number `r`. Its result is always
      a valid index into the catalogue; up to the total it is the prize
      whose slice holds `r`, and beyond the total it is the default. */
  function DrawPrize(r: real): (i: nat)
    ensures i < |Prizes|
    ensures r <= 100.0 ==> InSlice(i, r)
    ensures r > 100.0 ==> i == DefaultIndex
  {
    PrizeOddsFacts();
    DrawIsFirstReach(PrizeOdds, r);
    Draw(PrizeOdds, r)
  }

  /** Each slice's length equals the prize's weight, and the slices tile
      `(0, 100]`. */
  lemma SliceLengthIsWeight(i: nat)
    requires i < 5
    ensures UpperBounds[i] - LowerBound(i) == PrizeOdds[i].weight
    ensures i + 1 < 5 ==> LowerBound(i + 1) == UpperBounds[i]
    ensures UpperBounds[4] == TotalWeight(PrizeOdds)
  {
    PrizeOddsFacts();
  }

  /** For `0 <= r < 100` the draw picks `i` exactly when `r` lies in
      prize `i`'s slice. */
  lemma DrawPrizeIffSlice(r: real, i: nat)
    requires 0.0 <= r < 100.0
    requires i < 5
    ensures DrawPrize(r) == i <==> InSlice(i, r)
  {
  }

  /** Worked values: equality with a running sum selects that row. */
  lemma DrawPrizeExamples()
    ensures DrawPrize(0.5) == 0 && DrawPrize(1.0) == 0
    ensures DrawPrize(8.0) == 2 && DrawPrize(50.0) == 3
    ensures DrawPrize(98.0) == 3 && DrawPrize(99.9) == 4
    ensures DrawPrize(100.5) == DefaultIndex
  {
  }
}
