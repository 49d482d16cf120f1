/**
 * What the listing promises, proved about the model in joblist.dfy: the
 * row buffer is never too small, every row and the header share their
 * column boundaries (and when they do not), and the Times ladder picks the
 * first rendering that fits.
 */
module JobListProperties {
  import opened Wrappers
  import opened CFormat
  import opened JobList

  /** The fixed columns of the row `JoblistLine` prints: with the result for
    * a finished job, blank otherwise. This is the dispatch of list.c:316-319,
    * which `JoblistLine` makes between `PrintResult` and `PrintNoResult`,
    * restated on the columns so the row lemmas can name them. */
  function RowColumnsOf(p: Job, stateText: string, w: nat): Columns
    requires w >= 3
  {
    if p.state == Finished then ResultColumns(p, stateText, w) else NoResultColumns(p, stateText, w)
  }

  // ---------------------------------------------------------------------
  // The Output column
  // ---------------------------------------------------------------------

  /** The stored file name is read only for a job that stores its output and
    * has left the queue; for every other job the Output column does not
    * depend on it, so a name not yet written cannot disturb the listing. */
  lemma OutputShownReadsNameOnlyWhenStarted(p: Job, name: Option<string>)
    ensures var q := p.(outputFilename := name);
            OutputShown(q) == OutputShown(p)
            || (p.storeOutput && p.state !in {Skipped, Queued} && name != p.outputFilename)
  {
  }

  // ---------------------------------------------------------------------
  // The row buffer
  // ---------------------------------------------------------------------

  /** %i of a number between -999 and 9999 fits the four-character columns. */
  lemma SmallIntWidth(n: int)
    requires -1000 < n < 10000
    ensures |IntToStr(n)| <= 4
  {
    assert Pow10(3) == 1000 && Pow10(4) == 10000;
    if n < 0 { NatToStrLength(-n, 3); } else { NatToStrLength(n, 4); }
  }

  /** The length of a row: each fixed column at least its width, then the
    * command cell. */
  lemma RowLength(p: Job, stateText: string, w: nat)
    requires w >= 3
    ensures var cells := RowColumnsOf(p, stateText, w);
            |Layout(cells)| ==
              (if |IntToStr(p.jobid)| < ColWidthId then ColWidthId else |IntToStr(p.jobid)|) + 1
              + (if |stateText| < ColWidthState then ColWidthState else |stateText|) + 1
              + w + 1
              + (if p.state == Finished && |IntToStr(p.result.errorlevel)| > ColWidthElevel
                 then |IntToStr(p.result.errorlevel)| else ColWidthElevel) + 1
              + (if p.state == Finished && |TimeText(p.result.times)| > ColWidthTimes
                 then |TimeText(p.result.times)| else ColWidthTimes) + 1
  {
  }

  /** Row buffer sufficiency: for a job number that is not negative and a
    * state text of at most 8 characters, `maxlen` leaves room for the whole
    * row and its NUL, so `snprintf` never cuts a row. The margin of 20 is
    * what the widest job number (6 more characters), exit code (7 more) and
    * times (5 more), the newline and the NUL need. */
  lemma RowBufferSuffices(p: Job, stateText: string, tmpdir: Option<string>)
    requires p.jobid >= 0 && |stateText| <= ColWidthState
    ensures var w := ColWidthOutput(tmpdir);
            var full := Layout(RowColumnsOf(p, stateText, w)) + CommandCell(p);
            |full| < RowMaxLen(p, w) && JoblistLine(p, stateText, tmpdir) == full
  {
    var w := ColWidthOutput(tmpdir);
    FixedColumnsFit(p, stateText, w);
    var full := Layout(RowColumnsOf(p, stateText, w)) + CommandCell(p);
    if p.state == Finished {
      assert JoblistLine(p, stateText, tmpdir) == Snprintf(RowMaxLen(p, w), full);
    } else {
      assert JoblistLine(p, stateText, tmpdir) == Snprintf(RowMaxLen(p, w), full);
    }
  }

  /** The fixed columns take at most 18 characters more than their widths:
    * 6 for the job number, 7 for the exit code, 5 for the times. */
  lemma FixedColumnsFit(p: Job, stateText: string, w: nat)
    requires w >= 3 && p.jobid >= 0 && |stateText| <= ColWidthState
    ensures |Layout(RowColumnsOf(p, stateText, w))| <= 35 + w + 18
  {
    RowLength(p, stateText, w);
    Int32Width(p.jobid);
    Int32Width(p.result.errorlevel);
  }

  /** The margin is exact: a finished job with the widest job number, exit
    * code and times and no dependency fills its buffer to the last byte. */
  lemma RowMarginIsTight()
    ensures var p := Job(1_000_000_000, Finished, "true", None, false, None, false, -1,
                         JobResult(-1_000_000_000, TimeRenderings("1000000000.00/100000.00/1.00",
                                                                  "1000000000.0/100000.0/1.0",
                                                                  "1000000000/100000/1")));
            var full := Layout(RowColumnsOf(p, "finished", 13)) + CommandCell(p);
            |full| + 1 == RowMaxLen(p, 13) && JoblistLine(p, "finished", None) == full
  {
    var t := TimeRenderings("1000000000.00/100000.00/1.00", "1000000000.0/100000.0/1.0", "1000000000/100000/1");
    var p := Job(1_000_000_000, Finished, "true", None, false, None, false, -1,
                 JobResult(-1_000_000_000, t));
    assert Pow10(9) == 1_000_000_000 && Pow10(10) == 10_000_000_000;
    NatToStrLength(1_000_000_000, 10);
    assert |TimeText(t)| == 19;
    RowLength(p, "finished", 13);
    RowBufferSuffices(p, "finished", None);
  }

  // ---------------------------------------------------------------------
  // Columns
  // ---------------------------------------------------------------------

  /** Where each of five consecutive pieces of `s`, and what follows them,
    * lies. */
  lemma SliceFive(s: string, a: string, b: string, c: string, d: string, e: string, rest: string)
    requires s == a + b + c + d + e + rest
    ensures var i1 := |a|;
            var i2 := i1 + |b|;
            var i3 := i2 + |c|;
            var i4 := i3 + |d|;
            var i5 := i4 + |e|;
            |s| == i5 + |rest|
            && s[0..i1] == a && s[i1..i2] == b && s[i2..i3] == c && s[i3..i4] == d
            && s[i4..i5] == e && s[i5..] == rest
  {
  }

  /** Row layout: when the job number, state, exit code and times fit their
    * columns, every row puts the id in columns 0-3, the state in 5-12, the
    * output file in the next w, the exit code and the times after it, each
    * field followed by one blank, and then the command cell: marker, label,
    * command, newline. A job that has not finished shows blank Err and Times
    * fields. */
  lemma RowColumns(p: Job, stateText: string, tmpdir: Option<string>)
    requires 0 <= p.jobid < 10000 && |stateText| <= ColWidthState
    requires p.state == Finished ==>
               -1000 < p.result.errorlevel < 10000 && |TimeText(p.result.times)| <= ColWidthTimes
    ensures var w := ColWidthOutput(tmpdir);
            var line := JoblistLine(p, stateText, tmpdir);
            var fin := p.state == Finished;
            |line| == 35 + w + |CommandCell(p)|
            && line[0..5] == Pad(IntToStr(p.jobid), ColWidthId, Left) + " "
            && line[5..14] == Pad(stateText, ColWidthState, Left) + " "
            && line[14..15 + w] == Pad(Trimmed(OutputShown(p), w), w, Left) + " "
            && line[15 + w..20 + w]
               == (if fin then Pad(IntToStr(p.result.errorlevel), ColWidthElevel, Left) else Spaces(4)) + " "
            && line[20 + w..35 + w]
               == (if fin then Pad(TimeText(p.result.times), ColWidthTimes, Left) else Spaces(14)) + " "
            && line[35 + w..] == CommandCell(p)
  {
    RowSlices(p, stateText, tmpdir);
  }

  /** The row cut at the column boundaries gives back its cells. */
  lemma RowSlices(p: Job, stateText: string, tmpdir: Option<string>)
    requires 0 <= p.jobid < 10000 && |stateText| <= ColWidthState
    requires p.state == Finished ==>
               -1000 < p.result.errorlevel < 10000 && |TimeText(p.result.times)| <= ColWidthTimes
    ensures var w := ColWidthOutput(tmpdir);
            var c := RowColumnsOf(p, stateText, w);
            var line := JoblistLine(p, stateText, tmpdir);
            |line| == 35 + w + |CommandCell(p)|
            && line[0..5] == CellText(c.id) && line[5..14] == CellText(c.state)
            && line[14..15 + w] == CellText(c.output) && line[15 + w..20 + w] == CellText(c.elevel)
            && line[20 + w..35 + w] == CellText(c.times) && line[35 + w..] == CommandCell(p)
  {
    var w := ColWidthOutput(tmpdir);
    var c := RowColumnsOf(p, stateText, w);
    RowBufferSuffices(p, stateText, tmpdir);
    RowFieldWidths(p, stateText, w);
    LayoutSlices(c, CommandCell(p), w);
  }

  /** Five fields of the row widths followed by `tail`, cut at the column
    * boundaries. */
  lemma LayoutSlices(c: Columns, tail: string, w: nat)
    requires |CellText(c.id)| == ColWidthId + 1 && |CellText(c.state)| == ColWidthState + 1
    requires |CellText(c.output)| == w + 1
    requires |CellText(c.elevel)| == ColWidthElevel + 1 && |CellText(c.times)| == ColWidthTimes + 1
    ensures var line := Layout(c) + tail;
            |line| == 35 + w + |tail|
            && line[0..5] == CellText(c.id) && line[5..14] == CellText(c.state)
            && line[14..15 + w] == CellText(c.output) && line[15 + w..20 + w] == CellText(c.elevel)
            && line[20 + w..35 + w] == CellText(c.times) && line[35 + w..] == tail
  {
    SliceFive(Layout(c) + tail, CellText(c.id), CellText(c.state), CellText(c.output),
              CellText(c.elevel), CellText(c.times), tail);
  }

  /** Fields that fit their columns take exactly their widths and a blank. */
  lemma RowFieldWidths(p: Job, stateText: string, w: nat)
    requires w >= 3 && 0 <= p.jobid < 10000 && |stateText| <= ColWidthState
    requires p.state == Finished ==>
               -1000 < p.result.errorlevel < 10000 && |TimeText(p.result.times)| <= ColWidthTimes
    ensures var c := RowColumnsOf(p, stateText, w);
            |CellText(c.id)| == ColWidthId + 1 && |CellText(c.state)| == ColWidthState + 1
            && |CellText(c.output)| == w + 1
            && |CellText(c.elevel)| == ColWidthElevel + 1 && |CellText(c.times)| == ColWidthTimes + 1
  {
    SmallIntWidth(p.jobid);
    if p.state == Finished { SmallIntWidth(p.result.errorlevel); }
  }

  /** The header line, title by title. */
  lemma HeaderText(tmpdir: Option<string>, busySlots: Int32, maxSlots: Int32)
    ensures JoblistHeaders(tmpdir, busySlots, maxSlots)
            == "ID   " + "State    " + (Pad(ColTitle, ColWidthOutput(tmpdir), Left) + " ") + "Err  "
               + "Times (r/u/s)  " + ("Command " + RunCounters(busySlots, maxSlots) + "\n")
  {
    var cells := HeaderColumnTitles(ColWidthOutput(tmpdir));
    assert CellText(cells.id) == "ID   ";
    assert CellText(cells.state) == "State    ";
    assert CellText(cells.elevel) == "Err  ";
    assert CellText(cells.times) == "Times (r/u/s)  ";
  }

  /** Header layout: when the output column is at least as wide as its
    * title, the header puts each title over its column, as RowColumns lays
    * out the rows, and ends with the live slot counters. */
  lemma HeaderColumns(tmpdir: Option<string>, busySlots: Int32, maxSlots: Int32)
    requires ColWidthOutput(tmpdir) >= |ColTitle|
    ensures var w := ColWidthOutput(tmpdir);
            var line := JoblistHeaders(tmpdir, busySlots, maxSlots);
            |line| >= 35 + w
            && line[0..5] == "ID   "
            && line[5..14] == "State    "
            && line[14..15 + w] == Pad(ColTitle, w, Left) + " "
            && line[15 + w..20 + w] == "Err  "
            && line[20 + w..35 + w] == "Times (r/u/s)  "
            && line[35 + w..] == "Command " + RunCounters(busySlots, maxSlots) + "\n"
  {
    var w := ColWidthOutput(tmpdir);
    HeaderText(tmpdir, busySlots, maxSlots);
    SliceFive(JoblistHeaders(tmpdir, busySlots, maxSlots), "ID   ", "State    ",
              Pad(ColTitle, w, Left) + " ", "Err  ", "Times (r/u/s)  ",
              "Command " + RunCounters(busySlots, maxSlots) + "\n");
  }

  /** The Err title stands over the rows' Err column exactly when the output
    * column is at least 11 wide, that is when TMPDIR has at least two
    * characters. With TMPDIR set to "" or "/", "Output File" overflows its
    * column and pushes the remaining titles right of their columns. */
  lemma HeaderAlignedIff(tmpdir: Option<string>, busySlots: Int32, maxSlots: Int32)
    ensures var w := ColWidthOutput(tmpdir);
            var line := JoblistHeaders(tmpdir, busySlots, maxSlots);
            18 + w <= |line|
            && (line[15 + w..18 + w] == "Err" <==> |TmpDir(tmpdir)| >= 2)
  {
    var w := ColWidthOutput(tmpdir);
    var line := JoblistHeaders(tmpdir, busySlots, maxSlots);
    if |TmpDir(tmpdir)| >= 2 {
      HeaderColumns(tmpdir, busySlots, maxSlots);
      assert line[15 + w..18 + w] == line[15 + w..20 + w][..3];
    } else {
      HeaderMisaligned(tmpdir, busySlots, maxSlots);
    }
  }

  /** With TMPDIR of fewer than two characters the title "Output File" is
    * wider than its column, so the Err column of the rows starts inside it. */
  lemma HeaderMisaligned(tmpdir: Option<string>, busySlots: Int32, maxSlots: Int32)
    requires |TmpDir(tmpdir)| < 2
    ensures var w := ColWidthOutput(tmpdir);
            var line := JoblistHeaders(tmpdir, busySlots, maxSlots);
            18 + w <= |line| && line[15 + w] != 'E'
  {
    var w := ColWidthOutput(tmpdir);
    var line := JoblistHeaders(tmpdir, busySlots, maxSlots);
    var c := Pad(ColTitle, w, Left) + " ";
    assert c == ColTitle + " ";
    HeaderText(tmpdir, busySlots, maxSlots);
    SliceFive(line, "ID   ", "State    ", c, "Err  ", "Times (r/u/s)  ",
              "Command " + RunCounters(busySlots, maxSlots) + "\n");
    assert line[15 + w] == line[14..26][1 + w] == c[1 + w];
  }

  // ---------------------------------------------------------------------
  // Times
  // ---------------------------------------------------------------------

  /** The Times ladder: the two-decimal text is kept when it fits the
    * column; otherwise the one-decimal text when it fits; otherwise the
    * text without decimals, fitting or not. */
  lemma TimeLadder(t: TimeRenderings)
    ensures var cs := TimeCandidates(t);
            var r := TimeText(t);
            (|cs[0]| <= ColWidthTimes ==> r == cs[0])
            && (|cs[0]| > ColWidthTimes && |cs[1]| <= ColWidthTimes ==> r == cs[1])
            && (|cs[0]| > ColWidthTimes && |cs[1]| > ColWidthTimes ==> r == cs[2])
  {
    var cs := TimeCandidates(t);
    var r := TimeText(t);
    var i :| 0 <= i < 3 && r == cs[i] && (|r| <= ColWidthTimes || i == 2)
             && forall j :: 0 <= j < i ==> |cs[j]| > ColWidthTimes;
  }

  /** The Times field fits its column exactly when one of the three
    * renderings does: nothing narrower is ever tried. */
  lemma TimeTextFitsIff(t: TimeRenderings)
    ensures |TimeText(t)| <= ColWidthTimes
            <==> exists c :: c in TimeCandidates(t) && |c| <= ColWidthTimes
  {
    TimeLadder(t);
    var cs := TimeCandidates(t);
    assert cs == [cs[0], cs[1], cs[2]];
  }

  /** The Times field can be wider than its column: large times printed
    * without decimals still exceed 14 characters, and the row grows. */
  lemma TimeTextCanOverflow()
    ensures |TimeText(TimeRenderings("100000.00/100000.00/1.00", "100000.0/100000.0/1.0",
                                     "100000/100000/1"))| > ColWidthTimes
  {
    TimeLadder(TimeRenderings("100000.00/100000.00/1.00", "100000.0/100000.0/1.0",
                              "100000/100000/1"));
  }
}
