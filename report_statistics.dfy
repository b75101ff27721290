/**
 * The statistics of a sheet the report writer has filled: each course block
 * reads back as the samples of its series, so the sheet scan sums the
 * statistic of every course, in order.
 */
module ReportStatistics {
  import opened Sheets
  import opened ReportWriter
  import opened CurveStatistics

  /** The samples the writer lays down for course c, time measured from `origin`. */
  function CourseSamples(c: Course, origin: int): (b: seq<Sample>)
    requires CoIndexed(c)
    ensures |b| == |c.data.enrollment|
  {
    var e, w := c.data.enrollment, c.data.waitlist;
    seq(|e|, i requires 0 <= i < |e| =>
      Sample(Elapsed(e[i].time, origin), e[i].count as real, w[i].count as real, (e[i].count + w[i].count) as real))
  }

  /** No two consecutive enrollment samples of the feed share a timestamp. */
  predicate DistinctFeed(c: Course) {
    forall i :: 0 <= i < |c.data.enrollment| - 1 ==> c.data.enrollment[i].time != c.data.enrollment[i + 1].time
  }

  /** The feed's enrollment timestamps strictly increase. */
  predicate IncreasingFeed(c: Course) {
    forall i :: 0 <= i < |c.data.enrollment| - 1 ==> c.data.enrollment[i].time < c.data.enrollment[i + 1].time
  }

  /** Elapsed days keep the order of the timestamps, and equal days mean equal timestamps. */
  lemma ElapsedOrder(t1: int, t2: int, origin: int)
    ensures Elapsed(t1, origin) < Elapsed(t2, origin) <==> t1 < t2
    ensures Elapsed(t1, origin) == Elapsed(t2, origin) <==> t1 == t2
  {
  }

  /** The samples of a course inherit the order of its timestamps, and interest is enrollment plus waitlist. */
  lemma CourseSamplesShape(c: Course, origin: int)
    requires CoIndexed(c)
    ensures DistinctFeed(c) ==> DistinctTimes(CourseSamples(c, origin))
    ensures IncreasingFeed(c) ==> IncreasingTimes(CourseSamples(c, origin))
    ensures forall i :: 0 <= i < |c.data.enrollment| ==>
      CourseSamples(c, origin)[i].interest == CourseSamples(c, origin)[i].enrollment + CourseSamples(c, origin)[i].waitlist
  {
    var e := c.data.enrollment;
    forall i | 0 <= i < |e| - 1
      ensures CourseSamples(c, origin)[i].days < CourseSamples(c, origin)[i + 1].days <==> e[i].time < e[i + 1].time
      ensures CourseSamples(c, origin)[i].days == CourseSamples(c, origin)[i + 1].days <==> e[i].time == e[i + 1].time
    {
      ElapsedOrder(e[i].time, e[i + 1].time, origin);
    }
  }

  /** The statistic of one course's samples. */
  function CourseTotal(c: Course, origin: int): Triple
    requires CoIndexed(c) && DistinctFeed(c)
  {
    CourseSamplesShape(c, origin);
    Volatility(CourseSamples(c, origin))
  }

  /** The sum, in order, of the statistics of `courses`. */
  function CoursesTotal(courses: seq<Course>, origin: int): Triple
    requires forall j :: 0 <= j < |courses| ==> CoIndexed(courses[j]) && DistinctFeed(courses[j])
  {
    if courses == [] then Zero
    else Plus(CoursesTotal(courses[..|courses| - 1], origin), CourseTotal(courses[|courses| - 1], origin))
  }

  /** With increasing timestamps, the group total has no negative component and interest is at most enrollment plus waitlist. */
  lemma {:induction false} CoursesTotalBounds(courses: seq<Course>, origin: int)
    requires forall j :: 0 <= j < |courses| ==> CoIndexed(courses[j]) && IncreasingFeed(courses[j])
    ensures forall j :: 0 <= j < |courses| ==> DistinctFeed(courses[j])
    ensures CoursesTotal(courses, origin).enrollment >= 0.0
    ensures CoursesTotal(courses, origin).waitlist >= 0.0
    ensures CoursesTotal(courses, origin).interest >= 0.0
    ensures CoursesTotal(courses, origin).interest <=
      CoursesTotal(courses, origin).enrollment + CoursesTotal(courses, origin).waitlist
    decreases |courses|
  {
    if courses != [] {
      var last := courses[|courses| - 1];
      CoursesTotalBounds(courses[..|courses| - 1], origin);
      CourseSamplesShape(last, origin);
      VolatilityNonNegative(CourseSamples(last, origin));
      InterestTriangle(CourseSamples(last, origin));
    }
  }

  /** The cells a layout of `courses` leaves on a sheet that was empty. */
  ghost predicate LaidOut(cells: Cells, courses: seq<Course>, origin: int)
    requires forall j :: 0 <= j < |courses| ==> CoIndexed(courses[j])
  {
    forall cl: nat, row: nat :: Get(cells, cl, row) == LayoutCell(courses, origin, cl, row)
  }

  /** The elapsed-days column of course j runs without a gap from `row` to the end of its data. */
  lemma {:induction false} LaidOutRunLength(cells: Cells, courses: seq<Course>, origin: int, j: nat, row: nat)
    requires forall i :: 0 <= i < |courses| ==> CoIndexed(courses[i])
    requires LaidOut(cells, courses, origin)
    requires j < |courses| && 2 <= row <= |courses[j].data.enrollment| + 2
    ensures RunLength(cells, j * 4, row) == |courses[j].data.enrollment| + 2 - row
    decreases |courses[j].data.enrollment| + 2 - row
  {
    assert Get(cells, j * 4, row) == LayoutCell(courses, origin, j * 4, row);
    if row < |courses[j].data.enrollment| + 2 {
      LaidOutRunLength(cells, courses, origin, j, row + 1);
    }
  }

  /** Course j's block reads back, row by row, as the samples of course j. */
  lemma LaidOutRows(cells: Cells, courses: seq<Course>, origin: int, j: nat)
    requires forall i :: 0 <= i < |courses| ==> CoIndexed(courses[i])
    requires LaidOut(cells, courses, origin)
    requires j < |courses|
    ensures forall r :: 2 <= r < |courses[j].data.enrollment| + 2 ==> NumericRow(cells, j, r)
    ensures Rows(cells, j, |courses[j].data.enrollment|) == CourseSamples(courses[j], origin)
  {
    var c := courses[j];
    var n := |c.data.enrollment|;
    forall r | 2 <= r < n + 2
      ensures NumericRow(cells, j, r)
      ensures SampleAt(cells, j, r) == CourseSamples(c, origin)[r - 2]
    {
      assert Get(cells, j * 4, r) == LayoutCell(courses, origin, j * 4, r);
      assert Get(cells, j * 4 + 1, r) == LayoutCell(courses, origin, j * 4 + 1, r);
      assert Get(cells, j * 4 + 2, r) == LayoutCell(courses, origin, j * 4 + 2, r);
      assert Get(cells, j * 4 + 3, r) == LayoutCell(courses, origin, j * 4 + 3, r);
    }
  }

  /** The header scan sees exactly the blocks from j on. */
  lemma {:induction false} LaidOutCourseCount(cells: Cells, courses: seq<Course>, origin: int, j: nat)
    requires forall i :: 0 <= i < |courses| ==> CoIndexed(courses[i])
    requires LaidOut(cells, courses, origin)
    requires j <= |courses|
    ensures CourseCount(cells, j) == |courses| - j
    decreases |courses| - j
  {
    assert Get(cells, j * 4, 1) == LayoutCell(courses, origin, j * 4, 1);
    if j < |courses| {
      LaidOutCourseCount(cells, courses, origin, j + 1);
    }
  }

  /** Each block the writer lays down can be scanned, and its statistic is that of its course's samples. */
  lemma LaidOutColumnTotal(cells: Cells, courses: seq<Course>, origin: int, j: nat)
    requires forall i :: 0 <= i < |courses| ==> CoIndexed(courses[i]) && DistinctFeed(courses[i])
    requires LaidOut(cells, courses, origin)
    requires j < |courses|
    ensures Scannable(cells, j)
    ensures DistinctTimes(CourseSamples(courses[j], origin))
    ensures ColumnTotal(cells, j) == CourseTotal(courses[j], origin)
  {
    LaidOutRunLength(cells, courses, origin, j, 2);
    LaidOutRows(cells, courses, origin, j);
    CourseSamplesShape(courses[j], origin);
  }

  /** The sum over the first k blocks is the total of the first k courses. */
  lemma {:induction false} LaidOutSheetTotal(cells: Cells, courses: seq<Course>, origin: int, k: nat)
    requires forall i :: 0 <= i < |courses| ==> CoIndexed(courses[i]) && DistinctFeed(courses[i])
    requires LaidOut(cells, courses, origin)
    requires k <= |courses|
    ensures forall c :: 0 <= c < k ==> Scannable(cells, c)
    ensures SheetTotal(cells, k) == CoursesTotal(courses[..k], origin)
    decreases k
  {
    if k > 0 {
      LaidOutSheetTotal(cells, courses, origin, k - 1);
      LaidOutColumnTotal(cells, courses, origin, k - 1);
      CoursesTotalPrefix(courses, origin, k);
      assert SheetTotal(cells, k) == Plus(SheetTotal(cells, k - 1), ColumnTotal(cells, k - 1));
    }
  }

  /** The total of the first k courses is that of the first k - 1 plus course k - 1. */
  lemma CoursesTotalPrefix(courses: seq<Course>, origin: int, k: nat)
    requires forall i :: 0 <= i < |courses| ==> CoIndexed(courses[i]) && DistinctFeed(courses[i])
    requires 0 < k <= |courses|
    ensures CoursesTotal(courses[..k], origin) == Plus(CoursesTotal(courses[..k - 1], origin), CourseTotal(courses[k - 1], origin))
  {
    assert courses[..k][..k - 1] == courses[..k - 1];
  }

  /** The prefix of all the courses is the courses. */
  lemma CoursesTotalWhole(courses: seq<Course>, origin: int)
    requires forall i :: 0 <= i < |courses| ==> CoIndexed(courses[i]) && DistinctFeed(courses[i])
    ensures CoursesTotal(courses[..|courses|], origin) == CoursesTotal(courses, origin)
  {
    assert courses[..|courses|] == courses;
  }

  /** On a sheet that was empty, the layout's cells are all there is. */
  lemma LayoutOnEmptySheet(cells: Cells, courses: seq<Course>, origin: int)
    requires forall j :: 0 <= j < |courses| ==> CoIndexed(courses[j])
    requires forall cl: nat, row: nat :: (Get(cells, cl, row) ==
      Overlay(Get(map[], cl, row), LayoutCell(courses, origin, cl, row)))
    ensures LaidOut(cells, courses, origin)
  {
  }

  /** The sheet scan over a laid-out sheet sees every course block, and only those, and sums the courses' statistics. */
  lemma LaidOutTotals(cells: Cells, courses: seq<Course>, origin: int)
    requires forall i :: 0 <= i < |courses| ==> CoIndexed(courses[i]) && DistinctFeed(courses[i])
    requires LaidOut(cells, courses, origin)
    ensures CourseCount(cells, 0) == |courses|
    ensures forall c :: 0 <= c < CourseCount(cells, 0) ==> Scannable(cells, c)
    ensures SheetTotal(cells, CourseCount(cells, 0)) == CoursesTotal(courses, origin)
  {
    LaidOutCourseCount(cells, courses, origin, 0);
    LaidOutSheetTotal(cells, courses, origin, |courses|);
    CoursesTotalWhole(courses, origin);
  }

  /**
   * One group's statistics: a fresh sheet, the course blocks written into it,
   * and the sheet scan over it. The result is the sum of the courses' statistics.
   */
  method GroupStatistics(courses: seq<Course>) returns (stats: Triple)
    requires forall j :: 0 <= j < |courses| ==> CoIndexed(courses[j]) && DistinctFeed(courses[j])
    requires |courses| > 0 ==> |courses[0].data.enrollment| > 0
    ensures stats == CoursesTotal(courses, Origin(courses))
    ensures courses == [] ==> stats == Zero
    ensures (forall j :: 0 <= j < |courses| ==> IncreasingFeed(courses[j])) ==>
      stats.enrollment >= 0.0 && stats.waitlist >= 0.0 && stats.interest >= 0.0 &&
      stats.interest <= stats.enrollment + stats.waitlist
  {
    var sheet := new Worksheet();
    EwCourses(sheet, courses);
    LayoutOnEmptySheet(sheet.cells, courses, Origin(courses));
    LaidOutTotals(sheet.cells, courses, Origin(courses));
    stats := SheetStatistics(sheet);
    if forall j :: 0 <= j < |courses| ==> IncreasingFeed(courses[j]) {
      CoursesTotalBounds(courses, Origin(courses));
    }
  }
}
