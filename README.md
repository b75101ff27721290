# Course enrollment report: a verified model

`scraper.py` builds a spreadsheet of course enrollment history. It does four things:

- It lays out each course of a group as a block of four columns: elapsed days, enrollment, waitlist and interest (enrollment plus waitlist). A header row comes first, then one row per sample of the course's feed.
- It measures elapsed days from one origin per sheet: the first timestamp of the first course.
- It scores each block by summing, over consecutive rows, |change in value| / (change in elapsed days) for each of the three curves.
- It sums these scores over the blocks of a sheet.

Cells are addressed by spreadsheet column labels (A … Z, AA, …), which `convert10to26` produces from a zero-based column index.

The model has five modules:

- `Sheets` (`sheets.dfy`): the worksheet. It is a class whose `cells` map goes from (zero-based column index, one-based row) to a text or number cell. An absent key is an empty cell, which openpyxl reports as `None`.
- `ColumnCodec` (`column_codec.dfy`): `convert10to26` as a method with its loop, proved to produce the bijective base-26 numeral of `index + 1`. The module also proves the following:
  - labels are non-empty upper-case strings;
  - `Decode` inverts the labelling;
  - labelling is injective;
  - labels are in strictly increasing shortlex order;
  - the labels of 0, 25, 26, 27, 701 and 702 are A, Z, AA, AB, ZZ and AAA.
- `ReportWriter` (`report_writer.dfy`): the writing loops of `ewCourses`, with the fetched feeds passed in as data. The methods update the worksheet in place. Their postconditions state, cell by cell, what the sheet holds afterwards. The statement is in terms of `LayoutCell`, a pure description of the layout.
- `CurveStatistics` (`curve_statistics.dfy`): `getColumnStatistics` and `getSheetStatistics` as methods with their sentinel-terminated loops. They are proved equal to recursive specifications: `Volatility` over a sequence of samples, and `SheetTotal` over blocks. The module proves non-negativity, the interest triangle inequality and time-scale normalisation, and computes a three-sample example together with its time-stretched copy.
- `ReportStatistics` (`report_statistics.dfy`): connects the two halves. On a sheet the writer filled, the header scan finds exactly one block per course, and each block reads back as that course's samples. The sheet statistic is therefore the in-order sum of the courses' own statistics.

Column labels and column indexes correspond one to one (`ColumnCodec.LabelOfDecode`). The worksheet is therefore keyed by index, and the writer and the scanner address cells by `colset * 4 + offset` directly rather than by a label string.

## Model

| member | source | states |
|---|---|---|
| ColumnCodec.LastDigit | scraper.py:40-42 | the digit taken off is in 1..26 and leaves a multiple of 26, so the loop's quotient is smaller than the number |
| ColumnCodec.Numeral | scraper.py:39-45 | the numeral consists of letters 'A'..'Z' only, and is empty exactly for 0 |
| ColumnCodec.Label | scraper.py:36-37 | the label of any index (the numeral of index + 1) is a non-empty string of upper-case letters |
| ColumnCodec.Decode | scraper.py:31-35 | decoding succeeds exactly on non-empty strings of upper-case letters |
| ColumnCodec.Convert10To26 | scraper.py:36-46 | the loop returns the label of `num`; the invariant is that the numeral of the remaining number followed by the letters produced so far is the label, and each division by 26 is exact |
| ColumnCodec.ValueOfNumeral | scraper.py:36-46 | reading a numeral back gives the number it was built from |
| ColumnCodec.NumeralOfValue | scraper.py:36-46 | every string of letters is the numeral of its value, so no number has two spellings |
| ColumnCodec.DecodeLabel | scraper.py:31-46 | decoding the label of an index gives that index back |
| ColumnCodec.LabelOfDecode | scraper.py:31-46 | a string decodes to an index if and only if it is that index's label |
| ColumnCodec.LabelInjective | scraper.py:31-46 | distinct column indexes have distinct labels |
| ColumnCodec.LabelExamples | scraper.py:33-34 | 0 is "A", 25 is "Z", 26 is "AA", 27 is "AB", 701 is "ZZ" and 702 is "AAA" |
| ColumnCodec.ValueRange | scraper.py:34 | a k-letter string has a value from Ones(k) (the all-'A' string) up to, but not including, Ones(k + 1) |
| ColumnCodec.LabelLength | scraper.py:34 | a later column never has a shorter label, and the length k of the label of index a satisfies Ones(k) <= a + 1 < Ones(k + 1) |
| ColumnCodec.LabelLengthExactly | scraper.py:34 | the label of index a has length k if and only if Ones(k) <= a + 1 < Ones(k + 1) |
| ColumnCodec.ValueLexLess | scraper.py:34 | of two equal-length strings of letters, the one with the smaller value comes first in dictionary order |
| ColumnCodec.LabelBefore | scraper.py:34 | a lower column index has a shortlex-earlier label |
| ColumnCodec.LabelOrder | scraper.py:34 | a < b if and only if label(a) comes before label(b) in shortlex order |
| Sheets.Worksheet.constructor | scraper.py:162 | a new sheet has no cells |
| ReportWriter.Origin | scraper.py:72-77 | day zero is the first course's first timestamp; it is the unset marker -1 only when there is no first sample |
| ReportWriter.Header | scraper.py:78-81 | header k of a block is a text cell starting with the course id: the id alone for k = 0, and the id followed by a suffix for k = 1..3 (" Enrollment", " Waitlist", " Interest") |
| ReportWriter.DataCell | scraper.py:83-86 | column k of a data row is a number: elapsed days (zero at the origin), enrollment, waitlist, and, for k = 3, enrollment plus waitlist |
| ReportWriter.BlockCell | scraper.py:78-86 | a course block fills exactly rows 1 .. n + 1 of each of its columns (n = number of samples), with text on row 1 and numbers below |
| ReportWriter.LayoutCell | scraper.py:73-86 | the layout fills a cell exactly when its column belongs to a course's block (column / 4 < number of courses) and its row is within that course's rows |
| ReportWriter.Elapsed | scraper.py:83 | elapsed days are zero exactly at the origin and positive after it |
| ReportWriter.WriteCourseBlock | scraper.py:78-86 | in the block's four columns: headers id, id + " Enrollment", id + " Waitlist" and id + " Interest" on row 1; data row r on row r + 2 as elapsed days, enrollment, waitlist, and enrollment + waitlist; every other cell unchanged |
| ReportWriter.EwCourses | scraper.py:71-86 | course j occupies columns 4j .. 4j + 3, all courses measuring time from the first course's first timestamp; cells outside the layout keep their old values |
| ReportWriter.FirstSampleAtDayZero | scraper.py:76-83 | the first course's first data row (cell A2) holds elapsed day 0 |
| CurveStatistics.RateTimesStep | scraper.py:130-131 | Rate, the quotient \|dv\| / dt, times dt gives back \|dv\|, and it is non-negative for a positive time step |
| CurveStatistics.StepIsRate | scraper.py:130-135 | Step, one consecutive pair's contribution, is per curve \|change in value\| / (later days - earlier days): each component times that difference is the size of the change, and each is non-negative when time advances |
| CurveStatistics.Volatility | scraper.py:126-136 | the sum of the steps of all consecutive pairs, added in row order; zero for fewer than two samples |
| CurveStatistics.VolatilityNonNegative | scraper.py:130-135 | with time increasing, no component of the sum of quotients is negative |
| CurveStatistics.InterestTriangle | scraper.py:130-135 | when every interest value is enrollment plus waitlist, the interest component is at most the sum of the other two |
| CurveStatistics.VolatilityTimeScale | scraper.py:130-135 | multiplying all elapsed days by k > 0 divides every component by k, so the score is per day and not per sample |
| CurveStatistics.VolatilityOfThree | scraper.py:126-136 | three samples contribute exactly their two consecutive steps, in order |
| CurveStatistics.WorkedExample | scraper.py:130-131 | days [0,1,2] with enrollment [10,15,12] score 5 + 3 = 8, and days [0,2,4] score half of that, 4 |
| CurveStatistics.RunLength | scraper.py:126 | the run from a cell is non-empty exactly when that cell is filled |
| CurveStatistics.RunLengthIsFirstGap | scraper.py:126 | the run length is n if and only if the n cells from the start are filled and the next one is empty |
| CurveStatistics.CourseCount | scraper.py:145 | the count from a block is non-empty exactly when that block's header cell is filled |
| CurveStatistics.CourseCountIsFirstGap | scraper.py:145 | the block count is n if and only if the n headers from the start are filled and the next header is empty |
| CurveStatistics.ScannedPrefix | scraper.py:126-135 | every prefix of at least two rows of a scannable block is numeric with distinct times |
| CurveStatistics.SheetTotal | scraper.py:143-151 | the element-wise sum of the block statistics of blocks 0 .. k - 1, in order; zero for no blocks |
| CurveStatistics.ColumnStatistics | scraper.py:121-137 | the row scan returns the sum of the consecutive-pair quotients over the block's rows 2 .. n + 1 (n = the run of filled elapsed-days cells from row 2), and [0, 0, 0] when fewer than two rows exist |
| CurveStatistics.SheetStatistics | scraper.py:142-151 | the block scan returns the element-wise sum of the block statistics over blocks 0 .. k - 1 (k = the first block with an empty header), and [0, 0, 0] when A1 is empty |
| ReportStatistics.CourseSamples | scraper.py:82-86 | a course yields one sample per enrollment point |
| ReportStatistics.ElapsedOrder | scraper.py:83 | elapsed days keep the order of the timestamps, and are equal only for equal timestamps |
| ReportStatistics.CourseSamplesShape | scraper.py:82-86 | distinct (increasing) timestamps give distinct (increasing) elapsed days, and every sample's interest is its enrollment plus its waitlist |
| ReportStatistics.CoursesTotalBounds | scraper.py:142-151 | with increasing timestamps, the group total has no negative component, and its interest component is at most enrollment plus waitlist |
| ReportStatistics.LaidOutRunLength | scraper.py:82-83 | on a laid-out sheet, a course's elapsed-days column is filled without a gap up to its last data row |
| ReportStatistics.LaidOutRows | scraper.py:82-86 | a laid-out block reads back, row by row, as its course's samples |
| ReportStatistics.LaidOutCourseCount | scraper.py:78 | on a laid-out sheet, the header scan from block j sees exactly the blocks of courses j .. end |
| ReportStatistics.LaidOutColumnTotal | scraper.py:121-137 | a laid-out block is scannable, and its statistic is its course's statistic |
| ReportStatistics.LaidOutSheetTotal | scraper.py:142-151 | over the first k laid-out blocks, the sheet sum is the sum of the first k courses' statistics |
| ReportStatistics.LayoutOnEmptySheet | scraper.py:162-165 | writing the layout into a fresh sheet leaves exactly the layout's cells |
| ReportStatistics.LaidOutTotals | scraper.py:165-167 | the sheet scan over a laid-out sheet counts one block per course, and its result is the in-order sum of the courses' statistics |
| ReportStatistics.GroupStatistics | scraper.py:162-167 | one group, from a fresh sheet through the writer and the scan, yields the sum of its courses' statistics: zero for no courses, and non-negative with interest <= enrollment + waitlist when every feed's timestamps increase |

## Left out

- The HTTP requests and JSON decoding in `ewCourses` (scraper.py:74-75) are network I/O. The decoded feeds are parameters (`Course`, `Series`, `Point`).
- `getLecturesFromCourse` and `getAllCoursesFromGroup` (scraper.py:94-115) are network I/O plus HTML scraping with BeautifulSoup and regular expressions. They are not part of this model. The course ids are parameters.
- `createChart` and its three calls (scraper.py:51-66, 87-89) build openpyxl chart objects, a foreign library. They are not part of this model.
- `getStatisticsForGroups` (scraper.py:156-171) loops over groups and writes the summary cells of the `Stats` sheet into an openpyxl workbook. `main` and `book.save` (scraper.py:173-181) are orchestration and file I/O. Only the per-group composition of lines 162, 165 and 167 is modelled, as `ReportStatistics.GroupStatistics`.
- The `print` calls are left out, because they have no effect on the sheet.
- Python floats are modelled as exact reals, for elapsed days and for quotients. Rounding is not modelled.
- `ColumnCodec.Convert10To26`: Python 3's `num / 26` is float division. The model uses integer division, which is the same number because the dividend is a multiple of 26 (asserted in the loop). Precision loss above 2^53 is not modelled.
- Reading a cell through openpyxl's `sheet[...]` creates an empty cell object as a side effect. The model's reads are pure, because such a cell still reads as `None`.
- Timestamps are natural numbers (epoch milliseconds), so the `initTime == -1` marker of scraper.py:72 and 76 can never collide with a real first timestamp.
- The source has no error handling, and its crash paths are preconditions:
  - `ReportWriter.EwCourses` requires a non-empty feed for the first course (line 77 raises IndexError otherwise);
  - it requires a waitlist at least as long as the enrollment series for every course (line 85 raises IndexError otherwise);
  - `CurveStatistics.ColumnStatistics` requires the cells it scans to be numbers (a header string would raise TypeError);
  - it also requires consecutive elapsed days to differ (lines 131, 133 and 135 divide by zero otherwise);
  - `CurveStatistics.SheetStatistics` requires the same of every block it reaches;
  - `ReportStatistics.GroupStatistics` requires the same of every course's feed.
- Cell addresses are unbounded in the model. openpyxl accepts at most three column letters (index 18277, so at most 4569 courses) and rows up to 1048576; beyond those limits the cell accesses in `ewCourses` and the two scans raise an error, which the model does not capture.
- Cell values are header strings or numbers. Other openpyxl value types (dates, formulas) do not occur in this report and are not modelled.
