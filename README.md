# task-spooler job-list formatter, modelled in Dafny

task-spooler (`ts`) queues shell commands and runs them in the background.
`ts` with no arguments prints the queue as a table, one row per job. Each
row has the job id, its state, its output file, its exit code, its
real/user/system times and its command. When the server gets SIGTERM it
writes the queue to a dump file, which is a shell script that submits the
jobs again. list.c builds the rows and the dump lines from one `struct Job` at a time, and the two headers from no job at all:

- the header line;
- one row per job;
- the dump file's preamble;
- one `ts <command>` line per job in the dump.

The project models list.c in Dafny and proves what its text looks like.

| file | module | contents |
|---|---|---|
| `wrappers.dfy` | `Wrappers` | `Option`, for the pointers that may be NULL |
| `cformat.dfy` | `CFormat` | the parts of printf that list.c uses. `%i` is `IntToStr`, with its inverse `ParseInt`. `%-Ns`/`%Ns` is `Pad`. The cut `snprintf` makes is `Snprintf`. A padded field and the blank after it is `CellText` of a `Cell`. |
| `cbuffers.dfy` | `CBuffers` | `strlen`, `strcpy`, `strcat` and `snprintf` writing into an `array<char>`; each write is bounds-checked |
| `joblist.dfy` | `JobList` | the job record and every function of list.c |
| `joblist_properties.dfy` | `JobListProperties` | lemmas about row and header layout, buffer sizes and the times ladder |

Parts of list.c that work in place on heap buffers are methods over arrays:

- the trimmed file name (`malloc(w + 1)`, then `strcpy` and `strcat`);
- the times text (`malloc(20)`, then up to three `snprintf` calls).

Everything else is a pure function from the record to the text. This
includes the rows and the header, whose format strings list.c builds at run
time. A row is `Layout` of its five fixed `Columns` plus the command cell. The header is
`Layout` of the five column titles plus the command title and the slot counters.

Behaviour follows list.c as written:

- **Output column width.** The `min`/`max` macros are not parenthesised.
  `get_col_width_output` therefore returns min(|TMPDIR| + 9, 24). The lower
  bound of 11 that its comment asks for is never applied. With TMPDIR set to
  `""` or `"/"`, the column is 9 or 10 characters wide. "Output File" then
  overflows its column in the header, and the later titles stand right of
  their columns (`HeaderAlignedIff`).
- **Width from TMPDIR, not from job data.** The width depends only on TMPDIR.
  It does not look at the longest file name among the jobs.
- **Rows are one line.** There is no wrapping onto a second line, no
  "(next line)" placeholder, and no check of the command column's width.
- **Times can overflow.** The times field is not always at most 14
  characters (`TimeTextCanOverflow`).
- **Label syntax.** The label is printed as `[label] `, after the dependency
  marker.

## Model

| member | source | states |
|---|---|---|
| `JobList.ColWidthOutput` | list.c:29-43 | The macro expansion evaluates to min(strlen(TMPDIR or "/tmp") + 9, 24). The result is between 9 and 24. It is at least the 11 of "Output File" exactly when the directory name has at least 2 characters. |
| `JobList.OutputShown` | list.c:90-116 | The decision table. SKIPPED shows "(no output)" whatever `store_output` is. Otherwise, no stored output shows "stdout". Stored output shows "(file)" while QUEUED, "(...)" while the name is NULL, and the stored file name after that. |
| `JobListProperties.OutputShownReadsNameOnlyWhenStarted` | list.c:97-110 | Changing the stored file name changes the Output column only for a job that stores its output and is neither SKIPPED nor QUEUED. |
| `JobList.Trimmed` | list.c:133-140 | A name no longer than the column is kept unchanged, and only such a name is. A longer name becomes exactly w characters. Those are "..." and then a suffix of the name. |
| `JobList.TrimIntoBuffer` | list.c:133-140 | The `strcpy`/`strcat` sequence on a `malloc(w + 1)` buffer writes only inside the buffer. Afterwards the buffer holds `Trimmed(name, w)` and a NUL. |
| `JobList.DependMarker` | list.c:151-158 | `dependstr` is "" without a dependency. It is "&& " for `depend_on == -1`. Otherwise it is exactly "[" + the `%i` text of `depend_on` + "]&& ", and the number between the brackets reads back as `depend_on`. For every 32-bit value it is shorter than the 18-byte buffer, so it is never cut. |
| `JobList.CommandCell` | list.c:172-195 | The tail of a row is the marker, then "[label] " when there is a label, then the command, then a newline. Something precedes the command exactly when the job has a dependency or a label. The tail is at most the label part, the command, the newline and 17 marker bytes long. |
| `JobList.TimeText` | list.c:252-270 | The times field is one of the three renderings, each cut to the 19 characters of `time_str`. The field is therefore at most 19 characters. |
| `JobListProperties.TimeLadder` | list.c:258-270 | The 2-decimal text is kept if it is at most 14 characters. Otherwise the 1-decimal text is kept if it is at most 14. Otherwise the 0-decimal text is used. |
| `JobListProperties.TimeTextFitsIff` | list.c:259-270 | The times field fits the 14-character column exactly when one of the three renderings does. |
| `JobListProperties.TimeTextCanOverflow` | list.c:266-270 | For one set of large times (100000 / 100000 / 1 ms) all three renderings exceed 14 characters, and the times field is wider than its column. `TimeTextFitsIff` gives the general condition. |
| `JobList.FormatTimes` | list.c:251-270 | A 20-byte buffer is overwritten by up to three `snprintf` calls, each made after `strlen` finds the previous text too long. The buffer ends up holding `TimeText`. |
| `JobList.NoResultColumns` | list.c:164-170 | The fixed fields of an unfinished job, as "%-4i %-8s %-Ws %-4s %14s" lays them out. The id (`%-4i`), the state (`%-8s`) and the trimmed name (`%-Ws`) each stand at the left of their field, followed only by blanks, and each field is as wide as the larger of its text and its column, plus one blank. The id is exactly the `%i` text of the job number, which reads back as it. The Output field is exactly w+1 bytes. Err and Times are all blanks. |
| `JobList.ResultColumns` | list.c:272-279 | The fixed fields of a finished job, as "%-4i %-8s %-Ws %-4i %-14s" lays them out. The id, state and Output fields are as for an unfinished job. The exit code (`%-4i`) and `TimeText`, the rendering the ladder picks (`%-14s`), also stand at the left of their fields followed only by blanks, each field as wide as the larger of its text and its column, plus one blank. The id and the exit code are exactly the `%i` texts of their numbers, which read back as them. The Err field is at most 7 bytes wider than its column, and the Times field at most 5. |
| `JobList.RowMaxLen` | list.c:142-158 | `maxlen` equals the widest fixed fields of a row with a non-negative id (6 extra bytes for the id, 7 for the exit code, 5 for the times) plus the label part, the command, the newline, 17 marker bytes and one spare byte when there is a dependency, and the NUL. This accounts for the margin of 20. |
| `JobList.PrintNoResult` | list.c:118-201 | The row of an unfinished job never exceeds its `maxlen` buffer. It is a prefix of the id/state/output fields, blank Err and Times fields, and the command cell. |
| `JobList.PrintResult` | list.c:203-310 | The row of a finished job never exceeds its `maxlen` buffer. It is a prefix of the id/state/output/exit-code/times fields and the command cell. |
| `JobList.JoblistLine` | list.c:312-322 | FINISHED jobs are printed by `print_result`. Every other state is printed by `print_noresult`. |
| `JobListProperties.RowBufferSuffices` | list.c:142-162 | Assume `jobid >= 0` and a state text of at most 8 characters. Then `maxlen` exceeds the length of the complete row, so `snprintf` never cuts a row. This holds for every 32-bit exit code and every times text. |
| `JobListProperties.RowMarginIsTight` | list.c:229-234 | A finished job with a 10-digit id, an 11-character exit code and times printf could produce, whose times field is 19 characters, fills `maxlen` to the last byte. The margin of 20 is exactly what these need. |
| `JobListProperties.RowColumns` | list.c:164-196 | Assume every field fits its column. Then the id is in columns 0-4 and the state in 5-13. The output file takes the next w+1 columns, then Err takes 5 and Times 15. Each field ends in a blank. After them come the dependency marker, the label, the command and the newline, in that order. An unfinished job's Err and Times fields are blank. |
| `JobList.JoblistHeaders` | list.c:61-88 | The header is the five titles padded to the row widths, then "Command [run=busy/max]" and a newline. The 100-byte buffer never cuts it. |
| `JobListProperties.HeaderColumns` | list.c:67-84 | When the output column is at least 11 wide, every title starts in the same column as its field in the rows. The header ends with the live slot counters. |
| `JobListProperties.HeaderAlignedIff` | list.c:41-42 | The header's "Err" title stands over the rows' Err column exactly when TMPDIR has at least 2 characters. |
| `JobList.JoblistDumpHeaders` | list.c:45-59 | The dump preamble starts with "#!/bin/sh". The 600-byte buffer holds it in full. |
| `JobList.JoblistDumpTorun` | list.c:324-338 | A dump line is exactly "ts " + command + "\n". The buffer of 30 + strlen(command) bytes always holds it, so the command is copied unchanged. |
| `CFormat.IntToStrRoundTrip` | list.c:157 | `%i` loses nothing: the printed digits read back as the number printed. |
| `CFormat.Int32Width` | list.c:127 | `%i` of a C `int` takes at most 11 characters, and at most 10 when the value is not negative. |

## Left out

- Multibyte text and embedded NULs: `string` here is the C byte string, one `char` per byte, as `strlen` counts them (list.c:39, 134, 147). The pure functions do not require that the command, label, output file name or TMPDIR contain no NUL, which every C string does; only the array methods require it. Every width, cut and buffer size in the model is in bytes. UTF-8 text, where a cut can split a character, and the width a terminal gives a character are not modelled.
- `getenv("TMPDIR")` (list.c:33): reading the environment is I/O. The value is the parameter `tmpdir`, which is None when TMPDIR is unset.
- `jstate2string`: it is not part of this model. The text it returns for the job's state is the parameter `stateText`. The buffer lemmas assume it has at most 8 characters, as list.c:130 states.
- Floating-point formatting of `real_ms`, `user_ms` and `system_ms` with `%0.Nf`: the three renderings are input strings (`TimeRenderings`). Only the ladder between them and the 20-byte cut are modelled.
- `malloc` returning NULL and the fatal `error()` call (list.c:161-162, 248-249, 332-333): allocation is taken to succeed.
- `busy_slots` and `max_slots` are owned by jobs.c. They are parameters of `JoblistHeaders`.
- The format strings list.c builds at run time into 100-byte buffers, and the `free` calls: the model produces the padded text directly with `Pad` and `Layout`.
- The row, header and dump lines are heap buffers, each filled by one `snprintf`. The model gives their text as functions and does not model them as arrays.
- C `int` overflow of `path_length` and `maxlen` for strings longer than about 2^31 characters is not modelled.
- Which jobs reach `joblistdump_torun`, and in what order, is decided by the caller in jobs.c and is not part of this model.
