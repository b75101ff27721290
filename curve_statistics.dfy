/**
 * Curve statistics: for each course block, the sum over consecutive sample
 * pairs of |change in value| / (change in elapsed days), for the enrollment,
 * waitlist and interest curves; and the sum of these triples over the course
 * blocks of a sheet. Both scans stop at the first empty cell.
 */
module CurveStatistics {
  import opened Sheets

  /** (enrollment, waitlist, interest): the statistic of a course or of a whole sheet. */
  datatype Triple = Triple(enrollment: real, waitlist: real, interest: real)

  const Zero := Triple(0.0, 0.0, 0.0)

  /** Element-wise sum. */
  function Plus(a: Triple, b: Triple): Triple {
    Triple(a.enrollment + b.enrollment, a.waitlist + b.waitlist, a.interest + b.interest)
  }

  /** One data row of a course block: elapsed days and the three head counts. */
  datatype Sample = Sample(days: real, enrollment: real, waitlist: real, interest: real)

  function Abs(x: real): real {
    if x < 0.0 then -x else x
  }

  /** No two consecutive samples share a time, so every quotient is defined. */
  predicate DistinctTimes(b: seq<Sample>) {
    forall i :: 0 <= i < |b| - 1 ==> b[i].days != b[i + 1].days
  }

  /** Time strictly increases from sample to sample. */
  predicate IncreasingTimes(b: seq<Sample>) {
    forall i :: 0 <= i < |b| - 1 ==> b[i].days < b[i + 1].days
  }

  /** |dv| / dt: the rate of change of one curve over one pair of samples. */
  function Rate(dv: real, dt: real): real
    requires dt != 0.0
  {
    Abs(dv) / dt
  }

  /** The contribution of the consecutive pair (p, q). */
  function Step(p: Sample, q: Sample): Triple
    requires p.days != q.days
  {
    var dt := q.days - p.days;
    Triple(Rate(q.enrollment - p.enrollment, dt),
           Rate(q.waitlist - p.waitlist, dt),
           Rate(q.interest - p.interest, dt))
  }

  /** A rate times its time step gives back the size of the change, and it is non-negative when time advances. */
  lemma RateTimesStep(dv: real, dt: real)
    requires dt != 0.0
    ensures Rate(dv, dt) * dt == Abs(dv)
    ensures dt > 0.0 ==> Rate(dv, dt) >= 0.0
  {
  }

  /** Each component of a step is the size of that curve's change over the time between the two samples. */
  lemma StepIsRate(p: Sample, q: Sample)
    requires p.days != q.days
    ensures Step(p, q).enrollment * (q.days - p.days) == Abs(q.enrollment - p.enrollment)
    ensures Step(p, q).waitlist * (q.days - p.days) == Abs(q.waitlist - p.waitlist)
    ensures Step(p, q).interest * (q.days - p.days) == Abs(q.interest - p.interest)
    ensures p.days < q.days ==> Step(p, q).enrollment >= 0.0 && Step(p, q).waitlist >= 0.0 && Step(p, q).interest >= 0.0
  {
    var dt := q.days - p.days;
    RateTimesStep(q.enrollment - p.enrollment, dt);
    RateTimesStep(q.waitlist - p.waitlist, dt);
    RateTimesStep(q.interest - p.interest, dt);
  }

  /** The sum of Step over all consecutive pairs of b, in order. */
  function Volatility(b: seq<Sample>): (t: Triple)
    requires DistinctTimes(b)
    ensures |b| < 2 ==> t == Zero
    decreases |b|
  {
    if |b| < 2 then Zero
    else Plus(Volatility(b[..|b| - 1]), Step(b[|b| - 2], b[|b| - 1]))
  }

  /** With time increasing, no component is negative. */
  lemma {:induction false} VolatilityNonNegative(b: seq<Sample>)
    requires IncreasingTimes(b)
    ensures DistinctTimes(b)
    ensures Volatility(b).enrollment >= 0.0 && Volatility(b).waitlist >= 0.0 && Volatility(b).interest >= 0.0
    decreases |b|
  {
    if |b| >= 2 {
      VolatilityNonNegative(b[..|b| - 1]);
      StepIsRate(b[|b| - 2], b[|b| - 1]);
    }
  }

  /** Where interest is enrollment plus waitlist, its component is at most the sum of the other two. */
  lemma {:induction false} InterestTriangle(b: seq<Sample>)
    requires IncreasingTimes(b)
    requires forall i :: 0 <= i < |b| ==> b[i].interest == b[i].enrollment + b[i].waitlist
    ensures DistinctTimes(b)
    ensures Volatility(b).interest <= Volatility(b).enrollment + Volatility(b).waitlist
    decreases |b|
  {
    if |b| >= 2 {
      InterestTriangle(b[..|b| - 1]);
      StepTriangle(b[|b| - 2], b[|b| - 1]);
    }
  }

  /** The triangle inequality for one pair. */
  lemma StepTriangle(p: Sample, q: Sample)
    requires p.days < q.days
    requires p.interest == p.enrollment + p.waitlist && q.interest == q.enrollment + q.waitlist
    ensures Step(p, q).interest <= Step(p, q).enrollment + Step(p, q).waitlist
  {
    var dt := q.days - p.days;
    var de, dw := q.enrollment - p.enrollment, q.waitlist - p.waitlist;
    assert q.interest - p.interest == de + dw;
    QuotientBound(Abs(de + dw), Abs(de) + Abs(dw), dt);
    assert (Abs(de) + Abs(dw)) / dt == Rate(de, dt) + Rate(dw, dt);
  }

  /** Dividing by a positive number keeps order. */
  lemma QuotientBound(x: real, y: real, dt: real)
    requires x <= y && dt > 0.0
    ensures x / dt <= y / dt
  {
    assert y / dt - x / dt == (y - x) / dt;
  }

  /** The samples b with every time multiplied by k. */
  function ScaleTime(b: seq<Sample>, k: real): (r: seq<Sample>)
    ensures |r| == |b|
  {
    seq(|b|, i requires 0 <= i < |b| => b[i].(days := b[i].days * k))
  }

  /** Multiplying the times by k > 0 keeps consecutive times distinct. */
  lemma ScaleTimeDistinct(b: seq<Sample>, k: real)
    requires DistinctTimes(b) && k > 0.0
    ensures DistinctTimes(ScaleTime(b, k))
  {
    var s := ScaleTime(b, k);
    forall i | 0 <= i < |s| - 1
      ensures s[i].days != s[i + 1].days
    {
      ScaleDifference(b[i].days, b[i + 1].days, k);
    }
  }

  /** (y * k) - (x * k) == (y - x) * k, which is non-zero when x != y and k > 0. */
  lemma ScaleDifference(x: real, y: real, k: real)
    requires x != y && k > 0.0
    ensures y * k - x * k == (y - x) * k
    ensures (y - x) * k != 0.0
  {
  }

  /** Divides every component by k. */
  function DivideBy(t: Triple, k: real): Triple
    requires k != 0.0
  {
    Triple(t.enrollment / k, t.waitlist / k, t.interest / k)
  }

  /** One pair with its times multiplied by k contributes 1 / k as much. */
  lemma ScaleStep(p: Sample, q: Sample, k: real)
    requires p.days != q.days && k > 0.0
    ensures p.days * k != q.days * k
    ensures Step(p.(days := p.days * k), q.(days := q.days * k)) == DivideBy(Step(p, q), k)
  {
    var dt := q.days - p.days;
    ScaleDifference(p.days, q.days, k);
    var p2, q2 := p.(days := p.days * k), q.(days := q.days * k);
    assert q2.days - p2.days == dt * k;
    ScaleRate(q.enrollment - p.enrollment, dt, k);
    ScaleRate(q.waitlist - p.waitlist, dt, k);
    ScaleRate(q.interest - p.interest, dt, k);
  }

  /** A rate over a time span k times as long is 1 / k as large. */
  lemma ScaleRate(dv: real, dt: real, k: real)
    requires dt != 0.0 && k > 0.0
    ensures dt * k != 0.0
    ensures Rate(dv, dt * k) == Rate(dv, dt) / k
  {
  }

  /** Dividing by k distributes over the element-wise sum. */
  lemma DivideSum(a: Triple, b: Triple, k: real)
    requires k != 0.0
    ensures Plus(DivideBy(a, k), DivideBy(b, k)) == DivideBy(Plus(a, b), k)
  {
  }

  /** Stretching time by k > 0 divides every component by k: the statistic is per day, not per sample. */
  lemma {:induction false} VolatilityTimeScale(b: seq<Sample>, k: real)
    requires DistinctTimes(b) && k > 0.0
    ensures DistinctTimes(ScaleTime(b, k))
    ensures Volatility(ScaleTime(b, k)) == DivideBy(Volatility(b), k)
    decreases |b|
  {
    ScaleTimeDistinct(b, k);
    if |b| >= 2 {
      var init := b[..|b| - 1];
      VolatilityTimeScale(init, k);
      ScaleTimeLast(b, k);
    }
  }

  /** The induction step of VolatilityTimeScale: scaling commutes with dropping the last sample. */
  lemma ScaleTimeLast(b: seq<Sample>, k: real)
    requires DistinctTimes(b) && k > 0.0 && |b| >= 2
    requires DistinctTimes(ScaleTime(b[..|b| - 1], k))
    requires Volatility(ScaleTime(b[..|b| - 1], k)) == DivideBy(Volatility(b[..|b| - 1]), k)
    ensures DistinctTimes(ScaleTime(b, k))
    ensures Volatility(ScaleTime(b, k)) == DivideBy(Volatility(b), k)
  {
    ScaleTimeDistinct(b, k);
    ScaleTimePrefix(b, k);
    ScaledLastStep(b, k);
    VolatilityDivided(ScaleTime(b, k), b, k);
  }

  /** The last step of the scaled samples is the last step of b divided by k. */
  lemma ScaledLastStep(b: seq<Sample>, k: real)
    requires DistinctTimes(b) && k > 0.0 && |b| >= 2
    ensures ScaleTime(b, k)[|b| - 2].days != ScaleTime(b, k)[|b| - 1].days
    ensures Step(ScaleTime(b, k)[|b| - 2], ScaleTime(b, k)[|b| - 1]) == DivideBy(Step(b[|b| - 2], b[|b| - 1]), k)
  {
    var p, q := b[|b| - 2], b[|b| - 1];
    ScaleTimePrefix(b, k);
    ScaleStep(p, q, k);
    var p2, q2 := p.(days := p.days * k), q.(days := q.days * k);
    assert ScaleTime(b, k)[|b| - 2] == p2 && ScaleTime(b, k)[|b| - 1] == q2;
  }

  /** Scaling b and dropping its last sample is scaling the prefix; the last two samples are the scaled ones. */
  lemma ScaleTimePrefix(b: seq<Sample>, k: real)
    requires |b| >= 2
    ensures ScaleTime(b, k)[..|b| - 1] == ScaleTime(b[..|b| - 1], k)
    ensures ScaleTime(b, k)[|b| - 2] == b[|b| - 2].(days := b[|b| - 2].days * k)
    ensures ScaleTime(b, k)[|b| - 1] == b[|b| - 1].(days := b[|b| - 1].days * k)
  {
    var s, init := ScaleTime(b, k), b[..|b| - 1];
    assert forall i :: 0 <= i < |init| ==> s[..|s| - 1][i] == ScaleTime(init, k)[i];
  }

  /** If the statistic of the prefix and the last step of s are those of b divided by k, so is the whole. */
  lemma VolatilityDivided(s: seq<Sample>, b: seq<Sample>, k: real)
    requires DistinctTimes(s) && DistinctTimes(b) && k != 0.0
    requires |s| == |b| >= 2
    requires Volatility(s[..|s| - 1]) == DivideBy(Volatility(b[..|b| - 1]), k)
    requires Step(s[|s| - 2], s[|s| - 1]) == DivideBy(Step(b[|b| - 2], b[|b| - 1]), k)
    ensures Volatility(s) == DivideBy(Volatility(b), k)
  {
    DivideSum(Volatility(b[..|b| - 1]), Step(b[|b| - 2], b[|b| - 1]), k);
  }

  /** Three samples contribute their two steps. */
  lemma VolatilityOfThree(p: Sample, q: Sample, r: Sample)
    requires p.days != q.days && q.days != r.days
    ensures DistinctTimes([p, q, r])
    ensures Volatility([p, q, r]) == Plus(Plus(Zero, Step(p, q)), Step(q, r))
  {
    var b := [p, q, r];
    assert b[..2] == [p, q];
    assert b[..2][..1] == [p];
    assert Volatility([p]) == Zero;
    assert Volatility([p, q]) == Plus(Zero, Step(p, q));
  }

  /** Days 0, 1, 2 with enrollment 10, 15, 12 score 5 + 3 = 8; days 0, 2, 4 score half of that. */
  lemma WorkedExample()
    ensures Volatility([Sample(0.0, 10.0, 0.0, 10.0), Sample(1.0, 15.0, 0.0, 15.0), Sample(2.0, 12.0, 0.0, 12.0)]).enrollment == 8.0
    ensures Volatility([Sample(0.0, 10.0, 0.0, 10.0), Sample(2.0, 15.0, 0.0, 15.0), Sample(4.0, 12.0, 0.0, 12.0)]).enrollment == 4.0
  {
    VolatilityOfThree(Sample(0.0, 10.0, 0.0, 10.0), Sample(1.0, 15.0, 0.0, 15.0), Sample(2.0, 12.0, 0.0, 12.0));
    assert Step(Sample(0.0, 10.0, 0.0, 10.0), Sample(1.0, 15.0, 0.0, 15.0)).enrollment == 5.0;
    assert Step(Sample(1.0, 15.0, 0.0, 15.0), Sample(2.0, 12.0, 0.0, 12.0)).enrollment == 3.0;
    VolatilityOfThree(Sample(0.0, 10.0, 0.0, 10.0), Sample(2.0, 15.0, 0.0, 15.0), Sample(4.0, 12.0, 0.0, 12.0));
    assert Step(Sample(0.0, 10.0, 0.0, 10.0), Sample(2.0, 15.0, 0.0, 15.0)).enrollment == 2.5;
    assert Step(Sample(2.0, 15.0, 0.0, 15.0), Sample(4.0, 12.0, 0.0, 12.0)).enrollment == 1.5;
  }

  // ----- reading course blocks back from the sheet -----

  /** The cells of `cells` at row `row` or below. */
  function KeysFrom(cells: Cells, row: nat): set<(nat, nat)> {
    set a | a in cells.Keys && a.1 >= row
  }

  /** The cells of `cells` in column `col` or to its right. */
  function KeysRightOf(cells: Cells, col: nat): set<(nat, nat)> {
    set a | a in cells.Keys && a.0 >= col
  }

  /** The number of consecutive non-empty cells in column `col` from row `row` down. */
  function RunLength(cells: Cells, col: nat, row: nat): (n: nat)
    ensures n > 0 <==> (col, row) in cells
    decreases KeysFrom(cells, row)
  {
    if (col, row) in cells then
      assert (col, row) in KeysFrom(cells, row) - KeysFrom(cells, row + 1);
      1 + RunLength(cells, col, row + 1)
    else 0
  }

  /** The number of consecutive course blocks, from block `colset` on, whose header cell is not empty. */
  function CourseCount(cells: Cells, colset: nat): (n: nat)
    ensures n > 0 <==> (colset * 4, 1) in cells
    decreases KeysRightOf(cells, colset * 4)
  {
    if (colset * 4, 1) in cells then
      assert (colset * 4, 1) in KeysRightOf(cells, colset * 4) - KeysRightOf(cells, (colset + 1) * 4);
      1 + CourseCount(cells, colset + 1)
    else 0
  }

  /** RunLength is the distance to the first empty cell of the column. */
  lemma {:induction false} RunLengthIsFirstGap(cells: Cells, col: nat, row: nat, n: nat)
    ensures RunLength(cells, col, row) == n <==>
      (forall r :: row <= r < row + n ==> (col, r) in cells) && (col, row + n) !in cells
    decreases n
  {
    if n > 0 && (col, row) in cells {
      RunLengthIsFirstGap(cells, col, row + 1, n - 1);
    }
  }

  /** CourseCount is the index of the first block, from `colset` on, whose header cell is empty. */
  lemma {:induction false} CourseCountIsFirstGap(cells: Cells, colset: nat, n: nat)
    ensures CourseCount(cells, colset) == n <==>
      (forall c :: colset <= c < colset + n ==> (c * 4, 1) in cells) && ((colset + n) * 4, 1) !in cells
    decreases n
  {
    if n > 0 && (colset * 4, 1) in cells {
      CourseCountIsFirstGap(cells, colset + 1, n - 1);
    }
  }

  /** The cell at (col, row) holds a number. */
  predicate IsNumber(cells: Cells, col: nat, row: nat) {
    (col, row) in cells && cells[(col, row)].Number?
  }

  /** All four cells of block `colset` at row `row` hold numbers. */
  predicate NumericRow(cells: Cells, colset: nat, row: nat) {
    IsNumber(cells, colset * 4, row) && IsNumber(cells, colset * 4 + 1, row) &&
    IsNumber(cells, colset * 4 + 2, row) && IsNumber(cells, colset * 4 + 3, row)
  }

  /** The sample stored in block `colset` at row `row`. */
  function SampleAt(cells: Cells, colset: nat, row: nat): Sample
    requires NumericRow(cells, colset, row)
  {
    Sample(cells[(colset * 4, row)].value, cells[(colset * 4 + 1, row)].value,
           cells[(colset * 4 + 2, row)].value, cells[(colset * 4 + 3, row)].value)
  }

  /** The samples of block `colset` in rows 2 .. n + 1. */
  function Rows(cells: Cells, colset: nat, n: nat): seq<Sample>
    requires forall r :: 2 <= r < n + 2 ==> NumericRow(cells, colset, r)
  {
    seq(n, i requires 0 <= i < n => SampleAt(cells, colset, i + 2))
  }

  /**
   * What the scan of block `colset` needs: once it sees two rows or more, every
   * cell of the rows it sees is a number and consecutive elapsed days differ.
   */
  predicate Scannable(cells: Cells, colset: nat) {
    var n := RunLength(cells, colset * 4, 2);
    n >= 2 ==>
      (forall r :: 2 <= r < n + 2 ==> NumericRow(cells, colset, r)) &&
      DistinctTimes(Rows(cells, colset, n))
  }

  /** Every prefix of at least two rows of a scannable block is numeric with distinct times. */
  lemma ScannedPrefix(cells: Cells, colset: nat, m: nat)
    requires Scannable(cells, colset)
    requires 2 <= m <= RunLength(cells, colset * 4, 2)
    ensures forall r :: 2 <= r < m + 2 ==> NumericRow(cells, colset, r)
    ensures DistinctTimes(Rows(cells, colset, m))
  {
    var b := Rows(cells, colset, RunLength(cells, colset * 4, 2));
    assert forall i :: 0 <= i < m ==> Rows(cells, colset, m)[i] == b[i];
  }

  /** The statistic of block `colset`: Volatility of its samples, zero when it has fewer than two. */
  function ColumnTotal(cells: Cells, colset: nat): Triple
    requires Scannable(cells, colset)
  {
    var n := RunLength(cells, colset * 4, 2);
    if n < 2 then Zero else Volatility(Rows(cells, colset, n))
  }

  /** The sum of ColumnTotal over blocks 0 .. k - 1. */
  function SheetTotal(cells: Cells, k: nat): (t: Triple)
    requires forall c :: 0 <= c < k ==> Scannable(cells, c)
    ensures k == 0 ==> t == Zero
  {
    if k == 0 then Zero else Plus(SheetTotal(cells, k - 1), ColumnTotal(cells, k - 1))
  }

  /**
   * The scan of `getColumnStatistics` over block `colset`: from row 2, while the elapsed-days
   * cells of this row and the next are both non-empty, add the pair's quotients.
   */
  method ColumnStatistics(sheet: Worksheet, colset: nat) returns (stats: Triple)
    requires Scannable(sheet.cells, colset)
    ensures stats == ColumnTotal(sheet.cells, colset)
    ensures RunLength(sheet.cells, colset * 4, 2) < 2 ==> stats == Zero
  {
    var cells := sheet.cells;
    var x := colset * 4;
    ghost var n := RunLength(cells, x, 2);
    var row := 2;
    stats := Zero;
    while Get(cells, x, row).Some? && Get(cells, x, row + 1).Some?
      invariant 2 <= row && (row == 2 || row <= n + 1)
      invariant n == row - 2 + RunLength(cells, x, row)
      invariant row > 2 ==>
        (forall r :: 2 <= r < row + 1 ==> NumericRow(cells, colset, r)) && DistinctTimes(Rows(cells, colset, row - 1))
      invariant stats == if row == 2 then Zero else Volatility(Rows(cells, colset, row - 1))
      decreases RunLength(cells, x, row)
    {
      ScannedPrefix(cells, colset, row);
      assert NumericRow(cells, colset, row) && NumericRow(cells, colset, row + 1);
      ghost var b := Rows(cells, colset, row);
      assert b[row - 2] == SampleAt(cells, colset, row) && b[row - 1] == SampleAt(cells, colset, row + 1);
      assert b[row - 2].days != b[row - 1].days;
      var dx := cells[(x, row + 1)].value - cells[(x, row)].value;
      var de := Abs(cells[(x + 1, row + 1)].value - cells[(x + 1, row)].value) / dx;
      var dw := Abs(cells[(x + 2, row + 1)].value - cells[(x + 2, row)].value) / dx;
      var di := Abs(cells[(x + 3, row + 1)].value - cells[(x + 3, row)].value) / dx;
      assert b[..row - 1] == Rows(cells, colset, row - 1);
      assert Triple(de, dw, di) == Step(b[row - 2], b[row - 1]);
      stats := Triple(stats.enrollment + de, stats.waitlist + dw, stats.interest + di);
      row := row + 1;
    }
  }

  /**
   * The scan of `getSheetStatistics`: from block 0, while the header cell of the block is
   * not empty, add the block's statistic.
   */
  method SheetStatistics(sheet: Worksheet) returns (stats: Triple)
    requires forall c :: 0 <= c < CourseCount(sheet.cells, 0) ==> Scannable(sheet.cells, c)
    ensures stats == SheetTotal(sheet.cells, CourseCount(sheet.cells, 0))
    ensures Get(sheet.cells, 0, 1).None? ==> stats == Zero
  {
    var colset := 0;
    stats := Zero;
    while Get(sheet.cells, colset * 4, 1).Some?
      invariant CourseCount(sheet.cells, 0) == colset + CourseCount(sheet.cells, colset)
      invariant stats == SheetTotal(sheet.cells, colset)
      decreases CourseCount(sheet.cells, colset)
    {
      var colStats := ColumnStatistics(sheet, colset);
      stats := Triple(stats.enrollment + colStats.enrollment,
                      stats.waitlist + colStats.waitlist,
                      stats.interest + colStats.interest);
      colset := colset + 1;
    }
  }
}
