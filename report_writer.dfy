/**
 * The report writer: lays the fetched series of each course out as a block of
 * four columns (elapsed days, enrollment, waitlist, interest) with a header
 * row, all courses of a sheet sharing one time origin.
 */
module ReportWriter {
  import opened Sheets

  /** One sample of the data feed: [timestamp in epoch milliseconds, head count]. */
  datatype Point = Point(time: nat, count: int)

  /** The decoded feed of one course: its enrollment and waitlist series. */
  datatype Series = Series(enrollment: seq<Point>, waitlist: seq<Point>)

  /** A course id with its series. */
  datatype Course = Course(id: string, data: Series)

  /** The writer reads the waitlist at every enrollment row, so the waitlist must be at least as long. */
  predicate CoIndexed(c: Course) {
    |c.data.waitlist| >= |c.data.enrollment|
  }

  /** Milliseconds since the origin, in days. */
  function Elapsed(time: int, origin: int): (days: real)
    ensures days == 0.0 <==> time == origin
    ensures time > origin ==> days > 0.0
  {
    (time - origin) as real / 1000.0 / 60.0 / 60.0 / 24.0
  }

  /** The header of column k of a course block. */
  function Header(id: string, k: nat): (h: Cell)
    requires k < 4
    ensures h.Text? && |h.text| >= |id| && h.text[..|id|] == id
    ensures k == 0 <==> h.text == id
  {
    if k == 0 then Text(id)
    else if k == 1 then Text(id + " Enrollment")
    else if k == 2 then Text(id + " Waitlist")
    else Text(id + " Interest")
  }

  /** Column k of data row r of a course block. */
  function DataCell(s: Series, origin: int, r: nat, k: nat): (d: Cell)
    requires r < |s.enrollment| && r < |s.waitlist| && k < 4
    ensures d.Number?
    ensures k == 0 && s.enrollment[r].time == origin ==> d.value == 0.0
    ensures k == 3 ==> d.value == s.enrollment[r].count as real + s.waitlist[r].count as real
  {
    if k == 0 then Number(Elapsed(s.enrollment[r].time, origin))
    else if k == 1 then Number(s.enrollment[r].count as real)
    else if k == 2 then Number(s.waitlist[r].count as real)
    else Number((s.enrollment[r].count + s.waitlist[r].count) as real)
  }

  /** What a course block holds in its column k at sheet row `row`: header on row 1, data row r on row r + 2. */
  function BlockCell(c: Course, origin: int, k: nat, row: nat): (b: Option<Cell>)
    requires CoIndexed(c) && k < 4
    ensures b.Some? <==> 1 <= row < |c.data.enrollment| + 2
    ensures b.Some? ==> (b.value.Text? <==> row == 1)
  {
    if row == 1 then Some(Header(c.id, k))
    else if 2 <= row < |c.data.enrollment| + 2 then Some(DataCell(c.data, origin, row - 2, k))
    else None
  }

  /** What the layout of `courses` writes at (col, row): course j owns columns 4j .. 4j + 3. */
  function LayoutCell(courses: seq<Course>, origin: int, col: nat, row: nat): (l: Option<Cell>)
    requires forall j :: 0 <= j < |courses| ==> CoIndexed(courses[j])
    ensures l.Some? <==> col / 4 < |courses| && 1 <= row < |courses[col / 4].data.enrollment| + 2
  {
    if col / 4 < |courses| then BlockCell(courses[col / 4], origin, col % 4, row) else None
  }

  /** A written cell hides what was there; an unwritten one keeps it. */
  function Overlay(under: Option<Cell>, over: Option<Cell>): Option<Cell> {
    if over.Some? then over else under
  }

  /** Day zero of a sheet: the first timestamp of the first course (-1, the unset marker, when there is none). */
  function Origin(courses: seq<Course>): (t: int)
    ensures t == -1 <==> |courses| == 0 || |courses[0].data.enrollment| == 0
    ensures t != -1 ==> t == courses[0].data.enrollment[0].time
  {
    if |courses| > 0 && |courses[0].data.enrollment| > 0 then courses[0].data.enrollment[0].time else -1
  }

  /** The course `c` with only its first n enrollment samples. */
  function Truncate(c: Course, n: nat): (t: Course)
    requires n <= |c.data.enrollment|
  {
    Course(c.id, Series(c.data.enrollment[..n], c.data.waitlist))
  }

  /** Writes the header and data rows of course c into column set `col`, measuring time from `origin`. */
  method WriteCourseBlock(sheet: Worksheet, col: nat, c: Course, origin: int)
    requires CoIndexed(c)
    modifies sheet
    ensures forall cl: nat, row: nat :: (Get(sheet.cells, cl, row) ==
      if cl / 4 == col then Overlay(Get(old(sheet.cells), cl, row), BlockCell(c, origin, cl % 4, row))
      else Get(old(sheet.cells), cl, row))
  {
    sheet.cells := sheet.cells[(col * 4, 1) := Text(c.id)];
    sheet.cells := sheet.cells[(col * 4 + 1, 1) := Text(c.id + " Enrollment")];
    sheet.cells := sheet.cells[(col * 4 + 2, 1) := Text(c.id + " Waitlist")];
    sheet.cells := sheet.cells[(col * 4 + 3, 1) := Text(c.id + " Interest")];
    var e, w := c.data.enrollment, c.data.waitlist;
    for row := 0 to |e|
      invariant forall cl: nat, rw: nat :: (Get(sheet.cells, cl, rw) ==
        if cl / 4 == col then Overlay(Get(old(sheet.cells), cl, rw), BlockCell(Truncate(c, row), origin, cl % 4, rw))
        else Get(old(sheet.cells), cl, rw))
    {
      sheet.cells := sheet.cells[(col * 4, row + 2) := Number(Elapsed(e[row].time, origin))];
      sheet.cells := sheet.cells[(col * 4 + 1, row + 2) := Number(e[row].count as real)];
      sheet.cells := sheet.cells[(col * 4 + 2, row + 2) := Number(w[row].count as real)];
      sheet.cells := sheet.cells[(col * 4 + 3, row + 2) := Number((e[row].count + w[row].count) as real)];
    }
    assert Truncate(c, |e|) == c;
  }

  /**
   * Lays out every course of `courses` in order, course j in columns 4j .. 4j + 3;
   * the first timestamp of the first course is day zero for all of them.
   */
  method EwCourses(sheet: Worksheet, courses: seq<Course>)
    requires forall j :: 0 <= j < |courses| ==> CoIndexed(courses[j])
    requires |courses| > 0 ==> |courses[0].data.enrollment| > 0
    modifies sheet
    ensures forall cl: nat, row: nat :: (Get(sheet.cells, cl, row) ==
      Overlay(Get(old(sheet.cells), cl, row), LayoutCell(courses, Origin(courses), cl, row)))
  {
    var initTime: int := -1;
    for col := 0 to |courses|
      invariant initTime == if col == 0 then -1 else Origin(courses)
      invariant forall cl: nat, row: nat :: (Get(sheet.cells, cl, row) ==
        Overlay(Get(old(sheet.cells), cl, row), LayoutCell(courses[..col], Origin(courses), cl, row)))
    {
      if initTime == -1 {
        initTime := courses[col].data.enrollment[0].time;
      }
      WriteCourseBlock(sheet, col, courses[col], initTime);
    }
    assert courses[..|courses|] == courses;
  }

  /** The first course's first sample is at day zero. */
  lemma FirstSampleAtDayZero(courses: seq<Course>)
    requires forall j :: 0 <= j < |courses| ==> CoIndexed(courses[j])
    requires |courses| > 0 && |courses[0].data.enrollment| > 0
    ensures LayoutCell(courses, Origin(courses), 0, 2) == Some(Number(0.0))
  {
  }
}
