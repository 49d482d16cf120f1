/**
 * The job-list formatter of task-spooler (list.c): from one job record it
 * builds the text of one row of the `ts` listing, the header line of that
 * listing, and the two kinds of text written to a queue dump file.
 *
 * The record is read-only here. What list.c obtains from elsewhere is a
 * parameter: the value of the TMPDIR environment variable (`tmpdir`, None
 * when unset), the text `jstate2string` gives for the job's state
 * (`stateText`), the two slot counters owned by the scheduler, and the three
 * `printf("%0.Nf/%0.Nf/%0.Nf")` renderings of the job's times.
 */
module JobList {
  import opened Wrappers
  import opened CFormat
  import CBuffers

  // Fixed column widths of the table.
  const ColWidthId: nat := 4
  const ColWidthState: nat := 8
  const ColWidthOutputMax: nat := 24
  const ColWidthElevel: nat := 4
  const ColWidthTimes: nat := 14

  /** The name pattern of an output file, as the executor creates it. */
  const OutFname := "/o.XXXXXX"
  const ColTitle := "Output File"

  // Sizes of the buffers list.c fills with snprintf.
  const DependStrSize: nat := 18
  const TimeStrSize: nat := 20
  const HeaderLineSize: nat := 100
  const DumpHeaderSize: nat := 600

  /** Job states. list.c tells apart QUEUED, FINISHED and SKIPPED only;
    * every further state of the scheduler is `OtherState` here. */
  datatype JobState = Queued | Running | Finished | Skipped | OtherState

  /** The times of a finished job printed with two, one and no decimals:
    * what "%0.2f/%0.2f/%0.2f", "%0.1f/..." and "%0.0f/..." produce. */
  datatype TimeRenderings = TimeRenderings(twoDecimals: string, oneDecimal: string, noDecimals: string)

  datatype JobResult = JobResult(errorlevel: Int32, times: TimeRenderings)

  /** The fields of `struct Job` that list.c reads. `outputFilename` is None
    * while the pointer is NULL, `jobLabel` is None when no label was given, and
    * `dependOn == -1` means "the job queued just before". */
  datatype Job = Job(
    jobid: Int32,
    state: JobState,
    command: string,
    jobLabel: Option<string>,
    storeOutput: bool,
    outputFilename: Option<string>,
    doDepend: bool,
    dependOn: Int32,
    result: JobResult)

  // ---------------------------------------------------------------------
  // Width of the output-file column
  // ---------------------------------------------------------------------

  /** The temporary directory: TMPDIR, or "/tmp" when it is unset. */
  function TmpDir(tmpdir: Option<string>): string
  {
    if tmpdir.None? then "/tmp" else tmpdir.value
  }

  /** get_col_width_output. The min and max macros are not parenthesised, so
    * `max(min(path_length, 24), strlen("Output File"))` expands to
    *   ((path_length < 24) ? path_length : 24 > 11)
    *     ? ((path_length < 24) ? path_length : 24) : 11
    * whose test is never 0: the width is min(path_length, 24), and the
    * lower bound of 11 the comment intends is not applied. */
  function ColWidthOutput(tmpdir: Option<string>): (w: nat)
    ensures w == Min(|TmpDir(tmpdir)| + |OutFname|, ColWidthOutputMax)
    ensures |OutFname| <= w <= ColWidthOutputMax
    ensures w >= |ColTitle| <==> |TmpDir(tmpdir)| >= 2
  {
    var pathLength := |TmpDir(tmpdir)| + |OutFname|;
    var test := if pathLength < ColWidthOutputMax then pathLength
                else if ColWidthOutputMax > |ColTitle| then 1 else 0;
    var width: int := if test != 0 then (if pathLength < ColWidthOutputMax then pathLength else ColWidthOutputMax)
                      else |ColTitle|;
    width
  }

  // ---------------------------------------------------------------------
  // The Output column
  // ---------------------------------------------------------------------

  /** ofilename_shown: what the Output column names. The stored file name is
    * consulted only for a job that stores its output and is past QUEUED; a
    * NULL name there (the executor has not reported it yet) shows "(...)". */
  function OutputShown(p: Job): (r: string)
    ensures p.state == Skipped ==> r == "(no output)"
    ensures p.state != Skipped && !p.storeOutput ==> r == "stdout"
    ensures p.state == Queued && p.storeOutput ==> r == "(file)"
    ensures p.state !in {Skipped, Queued} && p.storeOutput && p.outputFilename.None? ==> r == "(...)"
    ensures p.state !in {Skipped, Queued} && p.storeOutput && p.outputFilename.Some?
            ==> r == p.outputFilename.value
  {
    if p.state == Skipped then "(no output)"
    else if p.storeOutput then
      if p.state == Queued then "(file)"
      else if p.outputFilename.None? then "(...)"
      else p.outputFilename.value
    else "stdout"
  }

  predicate IsSuffix(a: string, b: string) { |a| <= |b| && b[|b| - |a|..] == a }

  /** The file name as it goes into a column of width `w`: a name longer than
    * the column loses its head, keeping "..." and as much of its tail as
    * fits, so it fills the column exactly. */
  function Trimmed(name: string, w: nat): (r: string)
    requires w >= 3
    ensures |r| <= w
    ensures r == name <==> |name| <= w
    ensures |name| > w ==> |r| == w && r[..3] == "..." && IsSuffix(r[3..], name)
  {
    if |name| > w then "..." + name[|name| - w + 3..] else name
  }

  /** The trimming as list.c performs it: `malloc(w + 1)`, then `strcpy` of
    * "..." and `strcat` of the tail, or `strcpy` of the whole name. The
    * buffer receives the trimmed name and its NUL without overflowing. */
  method TrimIntoBuffer(name: string, w: nat) returns (trimmed: array<char>)
    requires w >= 3 && '\0' !in name
    ensures fresh(trimmed) && trimmed.Length == w + 1
    ensures CBuffers.HoldsAt(trimmed, 0, Trimmed(name, w))
  {
    trimmed := new char[w + 1];
    if |name| > w {
      CBuffers.StrCpy(trimmed, 0, "...");
      var tail := name[|name| - w + 3..];
      assert forall i :: 0 <= i < |tail| ==> tail[i] == name[|name| - w + 3 + i];
      CBuffers.StrCat(trimmed, 3, "", tail);
      assert trimmed[0..3] == "...";
      assert trimmed[..w] == trimmed[0..3] + trimmed[3..3 + |tail|];
    } else {
      CBuffers.StrCpy(trimmed, 0, name);
    }
  }

  // ---------------------------------------------------------------------
  // The command cell: dependency marker, label, command
  // ---------------------------------------------------------------------

  /** The text written into `dependstr[18]`: nothing without a dependency,
    * "&& " after the previous job, "[N]&& " after job N, N written as `%i`
    * writes it. Even for the longest `int` the text fits the buffer, so it is
    * never cut, and the number between the brackets reads back as N. */
  function DependMarker(doDepend: bool, dependOn: Int32): (m: string)
    ensures |m| < DependStrSize
    ensures !doDepend ==> m == ""
    ensures doDepend && dependOn == -1 ==> m == "&& "
    ensures doDepend && dependOn != -1 ==>
              m == "[" + IntToStr(dependOn) + "]&& "
              && ParseInt(m[1..|m| - 4]) == Some(dependOn as int)
  {
    if !doDepend then ""
    else
      var full := if dependOn == -1 then "&& " else "[" + IntToStr(dependOn) + "]&& ";
      Int32Width(dependOn);
      IntToStrRoundTrip(dependOn);
      assert dependOn != -1 ==> full[1..|full| - 4] == IntToStr(dependOn);
      Snprintf(DependStrSize, full)
  }

  /** "[label] " when the job has a label. */
  function LabelPart(jobLabel: Option<string>): string
  {
    if jobLabel.Some? then "[" + jobLabel.value + "] " else ""
  }

  /** Everything after the fixed columns: the dependency marker, then the
    * label, then the command, then the end of the line. Something stands
    * before the command exactly when the job has a dependency or a label, and
    * the cell fits the room `maxlen` keeps for it. */
  function CommandCell(p: Job): (r: string)
    ensures var m := DependMarker(p.doDepend, p.dependOn);
            var l := LabelPart(p.jobLabel);
            |r| == |m| + |l| + |p.command| + 1
            && r[..|m|] == m && r[|m|..|m| + |l|] == l
            && r[|m| + |l|..|r| - 1] == p.command && r[|r| - 1] == '\n'
    ensures r[..|r| - 1 - |p.command|] == "" <==> !p.doDepend && p.jobLabel.None?
    ensures |r| <= |LabelPart(p.jobLabel)| + |p.command| + 1
                   + (if p.doDepend then DependStrSize - 1 else 0)
  {
    DependMarker(p.doDepend, p.dependOn) + LabelPart(p.jobLabel) + p.command + "\n"
  }

  // ---------------------------------------------------------------------
  // Elapsed times of a finished job
  // ---------------------------------------------------------------------

  /** The first candidate no longer than `limit`, or the last candidate when
    * none is. */
  function FirstFitting(cs: seq<string>, limit: nat): (r: string)
    requires |cs| >= 1
    ensures exists i :: 0 <= i < |cs| && r == cs[i] && (|r| <= limit || i == |cs| - 1)
                        && forall j :: 0 <= j < i ==> |cs[j]| > limit
  {
    if |cs| == 1 || |cs[0]| <= limit then cs[0]
    else
      var r := FirstFitting(cs[1..], limit);
      var i :| 0 <= i < |cs[1..]| && r == cs[1..][i] && (|r| <= limit || i == |cs[1..]| - 1)
               && forall j :: 0 <= j < i ==> |cs[1..][j]| > limit;
      assert r == cs[i + 1];
      r
  }

  /** The three renderings as the 20-byte `time_str` receives them. */
  function TimeCandidates(t: TimeRenderings): seq<string>
  {
    [Snprintf(TimeStrSize, t.twoDecimals), Snprintf(TimeStrSize, t.oneDecimal),
     Snprintf(TimeStrSize, t.noDecimals)]
  }

  /** The Times field: two decimals if that fits the column, else one, else
    * none. The last is kept even if it is too wide; every candidate is at
    * most 19 characters. */
  function TimeText(t: TimeRenderings): (r: string)
    ensures |r| < TimeStrSize
    ensures r in TimeCandidates(t)
  {
    FirstFitting(TimeCandidates(t), ColWidthTimes)
  }

  predicate NoNul(t: TimeRenderings)
  {
    '\0' !in t.twoDecimals && '\0' !in t.oneDecimal && '\0' !in t.noDecimals
  }

  /** The Times field as print_result builds it: `time_str = malloc(20)`
    * overwritten by up to three `snprintf` calls, each made when `strlen`
    * of the previous text exceeds the column width. */
  method FormatTimes(t: TimeRenderings) returns (s: string)
    requires NoNul(t)
    ensures s == TimeText(t)
  {
    var cs := TimeCandidates(t);
    var timeStr := new char[TimeStrSize];
    CBuffers.SnprintfInto(timeStr, TimeStrSize, t.twoDecimals);
    ghost var held := cs[0];
    var n := CBuffers.StrLenOf(timeStr, 0, held);
    if n > ColWidthTimes {
      CBuffers.SnprintfInto(timeStr, TimeStrSize, t.oneDecimal);
      held := cs[1];
    }
    n := CBuffers.StrLenOf(timeStr, 0, held);
    if n > ColWidthTimes {
      CBuffers.SnprintfInto(timeStr, TimeStrSize, t.noDecimals);
      held := cs[2];
    }
    n := CBuffers.StrLenOf(timeStr, 0, held);
    s := timeStr[..n];
    assert held == TimeText(t) by {
      var r := TimeText(t);
      var i :| 0 <= i < 3 && r == cs[i] && (|r| <= ColWidthTimes || i == 2)
               && forall j :: 0 <= j < i ==> |cs[j]| > ColWidthTimes;
    }
  }

  // ---------------------------------------------------------------------
  // Rows
  // ---------------------------------------------------------------------

  /** The five fixed columns of the table, as the run-time format strings
    * "%-4i %-8s %-Ws %-4s %14s " (no result) and "%-4i %-8s %-Ws %-4i %-14s "
    * (with result) describe them. */
  datatype Columns = Columns(id: Cell, state: Cell, output: Cell, elevel: Cell, times: Cell)

  /** The fixed columns printed one after another, each followed by a blank. */
  function Layout(c: Columns): string
  {
    CellText(c.id) + CellText(c.state) + CellText(c.output) + CellText(c.elevel) + CellText(c.times)
  }

  /** The fixed columns of a job without a result, as "%-4i %-8s %-Ws %-4s
    * %14s " prints them: the `%i` text of the job number, the state text and
    * the trimmed name, each at the left of its field and followed by blanks,
    * and blank Err and Times fields. The Output field never grows past its
    * column. */
  function NoResultColumns(p: Job, stateText: string, w: nat): (c: Columns)
    requires w >= 3
    ensures c.id.text == IntToStr(p.jobid) && ParseInt(c.id.text) == Some(p.jobid as int)
    ensures LeftField(CellText(c.id), IntToStr(p.jobid), ColWidthId)
    ensures LeftField(CellText(c.state), stateText, ColWidthState)
    ensures var name := Trimmed(OutputShown(p), w);
            LeftField(CellText(c.output), name, w) && |CellText(c.output)| == w + 1
    ensures CellText(c.elevel) == Spaces(ColWidthElevel) + " "
    ensures CellText(c.times) == Spaces(ColWidthTimes) + " "
  {
    var name := Trimmed(OutputShown(p), w);
    IntToStrRoundTrip(p.jobid);
    LeftCellContent(IntToStr(p.jobid), ColWidthId);
    LeftCellContent(stateText, ColWidthState);
    LeftCellContent(name, w);
    Columns(Cell(IntToStr(p.jobid), ColWidthId, Left),
            Cell(stateText, ColWidthState, Left),
            Cell(name, w, Left),
            Cell("", ColWidthElevel, Left),
            Cell("", ColWidthTimes, Right))
  }

  /** The fixed columns of a finished job, as "%-4i %-8s %-Ws %-4i %-14s "
    * prints them: the id, state and Output fields as for a job without a
    * result, then the `%i` text of the exit code and the rendering the Times
    * ladder picks, each at the left of its field and followed by blanks. The
    * exit code and times fields grow past their columns by at most 7 and 5
    * characters. */
  function ResultColumns(p: Job, stateText: string, w: nat): (c: Columns)
    requires w >= 3
    ensures c.id.text == IntToStr(p.jobid) && ParseInt(c.id.text) == Some(p.jobid as int)
    ensures LeftField(CellText(c.id), IntToStr(p.jobid), ColWidthId)
    ensures LeftField(CellText(c.state), stateText, ColWidthState)
    ensures var name := Trimmed(OutputShown(p), w);
            LeftField(CellText(c.output), name, w) && |CellText(c.output)| == w + 1
    ensures c.elevel.text == IntToStr(p.result.errorlevel)
            && ParseInt(c.elevel.text) == Some(p.result.errorlevel as int)
    ensures LeftField(CellText(c.elevel), IntToStr(p.result.errorlevel), ColWidthElevel)
    ensures |CellText(c.elevel)| <= ColWidthElevel + 8
    ensures c.times.text == TimeText(p.result.times) && c.times.text in TimeCandidates(p.result.times)
    ensures LeftField(CellText(c.times), TimeText(p.result.times), ColWidthTimes)
    ensures |CellText(c.times)| <= ColWidthTimes + 6
  {
    var name := Trimmed(OutputShown(p), w);
    IntToStrRoundTrip(p.jobid);
    IntToStrRoundTrip(p.result.errorlevel);
    Int32Width(p.result.errorlevel);
    LeftCellContent(IntToStr(p.jobid), ColWidthId);
    LeftCellContent(stateText, ColWidthState);
    LeftCellContent(name, w);
    LeftCellContent(IntToStr(p.result.errorlevel), ColWidthElevel);
    LeftCellContent(TimeText(p.result.times), ColWidthTimes);
    Columns(Cell(IntToStr(p.jobid), ColWidthId, Left),
            Cell(stateText, ColWidthState, Left),
            Cell(name, w, Left),
            Cell(IntToStr(p.result.errorlevel), ColWidthElevel, Left),
            Cell(TimeText(p.result.times), ColWidthTimes, Left))
  }

  /** `maxlen`, the size of the row buffer. Its margin of 20 is the widest
    * row's overflow of the fixed columns (6 for a job number that is not
    * negative, 7 for the exit code, 5 for the times), its newline and the
    * NUL; the dependency buffer adds one byte more than the longest marker. */
  function RowMaxLen(p: Job, w: nat): (r: nat)
    ensures r == (ColWidthId + 7) + (ColWidthState + 1) + (w + 1) + (ColWidthElevel + 8)
                 + (ColWidthTimes + 6)
                 + (|LabelPart(p.jobLabel)| + |p.command| + 1)
                 + (if p.doDepend then (DependStrSize - 1) + 1 else 0)
                 + 1
  {
    ColWidthId + 1 + ColWidthState + 1 + w + 1 + ColWidthElevel + 1 + ColWidthTimes + 1
    + |p.command| + 20
    + (if p.jobLabel.Some? then 3 + |p.jobLabel.value| else 0)
    + (if p.doDepend then DependStrSize else 0)
  }

  /** print_noresult: the row of a job that has no result, as `snprintf`
    * leaves it in the `maxlen` buffer. */
  function PrintNoResult(p: Job, stateText: string, tmpdir: Option<string>): (line: string)
    ensures |line| < RowMaxLen(p, ColWidthOutput(tmpdir))
    ensures line <= Layout(NoResultColumns(p, stateText, ColWidthOutput(tmpdir))) + CommandCell(p)
  {
    var w := ColWidthOutput(tmpdir);
    Snprintf(RowMaxLen(p, w), Layout(NoResultColumns(p, stateText, w)) + CommandCell(p))
  }

  /** print_result: the row of a finished job, as `snprintf` leaves it in the
    * `maxlen` buffer. */
  function PrintResult(p: Job, stateText: string, tmpdir: Option<string>): (line: string)
    ensures |line| < RowMaxLen(p, ColWidthOutput(tmpdir))
    ensures line <= Layout(ResultColumns(p, stateText, ColWidthOutput(tmpdir))) + CommandCell(p)
  {
    var w := ColWidthOutput(tmpdir);
    Snprintf(RowMaxLen(p, w), Layout(ResultColumns(p, stateText, w)) + CommandCell(p))
  }

  /** joblist_line: a finished job is printed with its result, any other
    * job without. */
  function JoblistLine(p: Job, stateText: string, tmpdir: Option<string>): (line: string)
    ensures |line| < RowMaxLen(p, ColWidthOutput(tmpdir))
    ensures p.state == Finished ==> line == PrintResult(p, stateText, tmpdir)
    ensures p.state != Finished ==> line == PrintNoResult(p, stateText, tmpdir)
  {
    if p.state == Finished then PrintResult(p, stateText, tmpdir)
    else PrintNoResult(p, stateText, tmpdir)
  }

  // ---------------------------------------------------------------------
  // Header line
  // ---------------------------------------------------------------------

  /** The titles of the fixed columns, in the widths of the rows. */
  function HeaderColumnTitles(w: nat): Columns
  {
    Columns(Cell("ID", ColWidthId, Left),
            Cell("State", ColWidthState, Left),
            Cell(ColTitle, w, Left),
            Cell("Err", ColWidthElevel, Left),
            Cell("Times (r/u/s)", ColWidthTimes, Left))
  }

  /** "[run=busy/max]": the slot counters at the time of the call. */
  function RunCounters(busySlots: int, maxSlots: int): string
  {
    "[run=" + IntToStr(busySlots) + "/" + IntToStr(maxSlots) + "]"
  }

  /** joblist_headers: the column titles and "Command [run=busy/max]" in a
    * buffer of 100 bytes, which is never too small. */
  function JoblistHeaders(tmpdir: Option<string>, busySlots: Int32, maxSlots: Int32): (line: string)
    ensures line == Layout(HeaderColumnTitles(ColWidthOutput(tmpdir)))
                    + "Command " + RunCounters(busySlots, maxSlots) + "\n"
    ensures |line| < HeaderLineSize
  {
    var w := ColWidthOutput(tmpdir);
    var full := Layout(HeaderColumnTitles(w)) + "Command " + RunCounters(busySlots, maxSlots) + "\n";
    Int32Width(busySlots);
    Int32Width(maxSlots);
    Snprintf(HeaderLineSize, full)
  }

  // ---------------------------------------------------------------------
  // Dump file
  // ---------------------------------------------------------------------

  const Shebang := "#!/bin/sh\n"

  /** The preamble of a dump file: a shebang line and shell comments. */
  const DumpHeaderText := Shebang + DumpHeaderComments

  const DumpHeaderComments :=
    "# - task spooler (ts) job dump\n"
    + "# This file has been created because a SIGTERM killed\n"
    + "# your queue server.\n"
    + "# The finished commands are listed first.\n"
    + "# The commands running or to be run are stored as you would\n"
    + "# probably run them. Take care - some quotes may have got"
    + " broken\n\n"

  /** joblistdump_headers: the preamble in a buffer of 600 bytes, which holds
    * it whole. */
  function JoblistDumpHeaders(): (text: string)
    ensures text == DumpHeaderText
    ensures text[..|Shebang|] == Shebang
  {
    assert (Shebang + DumpHeaderComments)[..|Shebang|] == Shebang;
    Snprintf(DumpHeaderSize, DumpHeaderText)
  }

  /** joblistdump_torun: the line of the dump file that submits the command
    * again; the buffer of 30 + |command| bytes always holds it whole. */
  function JoblistDumpTorun(p: Job): (line: string)
    ensures line == "ts " + p.command + "\n"
  {
    var maxlen := 10 + |p.command| + 20;
    Snprintf(maxlen, "ts " + p.command + "\n")
  }
}
