# VYSOS tools: night replication, nightly-plot parsers and the RTML writer

This project models three parts of the VYSOS observatory tools in Dafny and
proves properties of the models.

1. **Night replication and clean-up** (`data_handling/copy_data_remote.py`).
   Every image and log file of a night on the local Drobo is checked against
   the archive host by its SHA-1 sum, and copied again when it is missing or
   differs. The outcome of each file is one line of a manifest. The night then
   passes or fails three checks:
   - the local file count equals the number of files the archive host lists;
   - the local file count equals the number of manifest lines;
   - every manifest line reports success.

   A night that passes has its directories on the external USB drive renamed
   to `ok2delete_<date>`. A night that fails gets a report in the Dropbox.
   Modules `Shasum`, `Transfer`, `Completion` and `Nights`.
2. **The text logic of the nightly plots** (`scripts/MakeNightlyPlots.py`):
   - the HST to UT clock conversion;
   - the weather-condition and dome-fan fields of the environmental logs;
   - the line-driven state machine that reads the ACP logs;
   - the IQMon summary filter;
   - the telescope names and plot file names.

   Modules `AcpLog` and `NightlyPlots`.
3. **The RTML request writer** (`scheduling/convert_to_rtml.py`). Each target
   row becomes a 29-line `<Request>` block, with a project label chosen from
   its period and count. The rows are written grouped by period, and each
   priority is raised by ten for every shorter period in the table. The blocks
   sit between a fixed header and footer. Module `Rtml`.

`Text` holds the Python string and path built-ins the three scripts rely on:
- `str.replace`, `str.split`, `strip`, `int`;
- `os.path.join`, `os.path.split`, `readlines`.

Where a script changes state step by step, the model does too:
- `Transfer.Session` is the trace of remote and local commands.
- `Transfer.ManifestFile` is the open manifest.
- `Completion.LocalDisk` records the renames and the report.
- `Rtml.OutStream` is the RTML file being written.

Each loop is a `method` with invariants. It is proved against a function on
values, such as `Transfer.Pass`, `Completion.LogFailures`, `AcpLog.Scan` or
`Rtml.Document`, and the lemmas state what the source promises about those
functions.

Everything outside the scripts is a parameter:
- the SSH session's replies;
- the local `shasum` output;
- `glob`, `os.path.exists`, the directory listings;
- the clock, the YAML reader and the table readers.

For example, a file is a `Transfer.LocalFile` that carries its path, its local
hash and the two replies the archive host gives to `shasum`.

## Model

| member | source | states |
|---|---|---|
| Text.ReplaceChar | data_handling/copy_data_remote.py:21 | `str.replace` of one character: text without it is unchanged, and when the replacement does not hold the character, the result does not hold it either |
| Text.ReplaceAll | data_handling/copy_data_remote.py:189 | `str.replace` of a substring produces only characters of the text or of the replacement |
| Text.ReplaceAllAbsent | data_handling/copy_data_remote.py:189 | a path that does not contain the Drobo path is left as it is |
| Text.PrefixSubstitution | data_handling/copy_data_remote.py:189 | a local path that starts with the Drobo path, and does not contain it again, has only that prefix replaced by the archive root |
| Text.SkipSpaces | scripts/MakeNightlyPlots.py:323 | the leading `\s*` removes exactly a whitespace prefix and stops at a non-space |
| Text.FirstToken | data_handling/copy_data_remote.py:58 | `split()[0]` fails exactly on an all-whitespace line; otherwise it is a non-empty run without whitespace |
| Text.FirstTokenOf | data_handling/copy_data_remote.py:58 | the first field of `<token><spaces><rest>` is the token |
| Text.ParseIntOfIntToString | scripts/MakeNightlyPlots.py:37-38 | `int(str(i)) == i` for every integer |
| Text.ReadLinesOfConcat | data_handling/copy_data_remote.py:273-274 | reading back a file written as whole lines gives exactly those lines |
| Text.SplitOfJoin | data_handling/copy_data_remote.py:73-74 | `os.path.split` undoes `os.path.join` of a directory and a plain name |
| Text.SplitJoin | scripts/MakeNightlyPlots.py:36 | joining the fields of `split(':')` gives the string back |
| Text.JoinSplit | scripts/MakeNightlyPlots.py:36 | splitting a join of separator-free fields gives the fields back |
| Shasum.EscapeForQueryIsEscapeChars | data_handling/copy_data_remote.py:20-25 | the two `replace` steps escape each character independently: `$` when the name holds `$TGTNAME-$INTERVAL`, `+` when it holds a `+` |
| Shasum.EscapeForQueryMeaning | data_handling/copy_data_remote.py:20-25 | every `+` is escaped; every `$` is escaped when the name carries the template; a name with neither is unchanged; unescaping gives the name back |
| Shasum.UnescapeEscapeChars | data_handling/copy_data_remote.py:20-25 | escaping loses nothing: unescaping recovers any name |
| Shasum.EscapedCharsArePreceded | data_handling/copy_data_remote.py:20-25 | every escaped character of the result has a backslash right before it |
| Shasum.EscapeDollarsThenQuery | data_handling/copy_data_remote.py:82-93 | after `copy_file` escapes `$`, the escaping in `check_remote_shasum` produces the same name as for the raw name |
| Shasum.StripAnsi | data_handling/copy_data_remote.py:28 | removing colour codes adds no character |
| Shasum.StripAnsiLeavesNoRun | data_handling/copy_data_remote.py:28 | no ESC in the result is followed by an `m`, so nothing is left for the pattern to remove |
| Shasum.StripAnsiOfClean | data_handling/copy_data_remote.py:28 | text with no `ESC…m` run is unchanged |
| Shasum.StripAnsiIdempotent | data_handling/copy_data_remote.py:28 | stripping twice is stripping once |
| Shasum.StripAnsiRun | data_handling/copy_data_remote.py:28 | ESC-free text is kept and a following `ESC…m` run is dropped |
| Shasum.StripNewlines | data_handling/copy_data_remote.py:36 | `strip('\n')` leaves no newline at either end |
| Shasum.StripNewlinesKeeps | data_handling/copy_data_remote.py:36 | `strip('\n')` keeps one contiguous slice of the text, and everything it drops before and after that slice is a newline |
| Shasum.CleanLineOfPlain | data_handling/copy_data_remote.py:36 | a line without ESC or inner newline loses only its trailing newline |
| Shasum.CleanAll | data_handling/copy_data_remote.py:32-41 | a failed read gives no lines; otherwise there is one line per captured line |
| Shasum.CleanLines | data_handling/copy_data_remote.py:32-41 | the reading loop cleans every captured line, in order, and gives no lines at all when the read raises |
| Shasum.CompileEscapeChars | data_handling/copy_data_remote.py:55 | the escaped name used as a regular expression is the name with `.` as a wildcard and an unescaped `$` as end of line |
| Shasum.PlainNameQueryable | data_handling/copy_data_remote.py:55 | every name of plain characters compiles to such a pattern |
| Shasum.ClassifyMeaning | data_handling/copy_data_remote.py:54-66 | non-empty stderr never gives a hash; a hash comes exactly from empty stderr and a first stdout line matching `.*\s+<name>`, and is its first field; `IndexError` comes exactly from empty stderr with empty stdout, or a matching all-space line |
| Shasum.ClassifyEscapedName | data_handling/copy_data_remote.py:82-93 | querying the `$`-escaped name classifies any reply as querying the raw name does |
| Shasum.ShasumReplyRecognised | data_handling/copy_data_remote.py:54-58 | the reply `<hash><spaces><name>` yields exactly that hash |
| Transfer.Session.Perform | data_handling/copy_data_remote.py:30 | each remote or local command is appended to the trace |
| Transfer.ManifestFile.Create | data_handling/copy_data_remote.py:182 | `open(list_file, 'w')` leaves an existing, empty file |
| Transfer.ManifestFile.Write | data_handling/copy_data_remote.py:96 | `listFO.write` appends its text and nothing else |
| Transfer.CheckRemoteShasum | data_handling/copy_data_remote.py:18-68 | one `shasum` command is sent and the answer is the classification of the cleaned reply |
| Transfer.LineKinds | data_handling/copy_data_remote.py:96-106 | a `Success:` line is recognised as a success and a `Failed:` line is not |
| Transfer.CopyFile | data_handling/copy_data_remote.py:71-107 | two `mkdir`s and one `scp` to the `$`-escaped name, then a re-query. The result is true iff the remote hash equals the local hash. Exactly one `Success:` or `Failed:` line is appended, except when the re-query raises |
| Transfer.CopyMakesParents | data_handling/copy_data_remote.py:73-80 | the grandparent directory is made before the parent |
| Transfer.CopyActionsCopyOnce | data_handling/copy_data_remote.py:87-90 | `copy_file` copies exactly once |
| Transfer.FileStep | data_handling/copy_data_remote.py:188-210 | a file whose query raises writes no line |
| Transfer.StepOutcome | data_handling/copy_data_remote.py:188-210 | a file raises exactly as `Raises` says; otherwise its line reports success iff the file ends up on the archive host with its local hash |
| Transfer.StepActions | data_handling/copy_data_remote.py:190-210 | a file is first queried; it is copied once, with the copy's actions, iff it needs copying, and otherwise only queried |
| Transfer.Steps | data_handling/copy_data_remote.py:184-190 | one step per file, each the step of that file alone |
| Transfer.RunRaisedStays | data_handling/copy_data_remote.py:184-210 | once the loop has raised, no later file changes anything |
| Transfer.RunLines | data_handling/copy_data_remote.py:184-210 | the loop raises iff some file raises; otherwise there is one line per file, in order |
| Transfer.RunCopies | data_handling/copy_data_remote.py:184-210 | the loop copies no more often than its files do |
| Transfer.HandleFile | data_handling/copy_data_remote.py:184-210 | one turn of the loop performs that file's actions and appends that file's line |
| Transfer.HandleNext | data_handling/copy_data_remote.py:183-210 | the trace and manifest of the first `n` files become those of the first `n + 1` |
| Transfer.SyncFiles | data_handling/copy_data_remote.py:182-210 | the loop leaves the trace and the manifest of the pass over the night's files |
| Transfer.PassManifest | data_handling/copy_data_remote.py:182-210 | the pass raises iff some file raises; otherwise the manifest has one line per file, in order, and line `i` reports success iff file `i` is replicated |
| Transfer.PassCopies | data_handling/copy_data_remote.py:184-210 | each file is copied at most once; a night whose files all match is not copied at all |
| Transfer.ExistingFileAnswered | data_handling/copy_data_remote.py:54-58 | the raw reply for a readable file answers its hash |
| Transfer.MissingFileAnswered | data_handling/copy_data_remote.py:61-63 | the `No such file or directory` error answers not-found |
| Transfer.StepLineIsLine | data_handling/copy_data_remote.py:196-210 | with newline-free names and hashes, each file's line is one text line |
| Transfer.LinesAreLines | data_handling/copy_data_remote.py:96-106 | the success and failure lines are single text lines |
| Transfer.PassLinesAreLines | data_handling/copy_data_remote.py:182-210 | the manifest of a pass is made of whole lines |
| Completion.InfoIsNotWarning | data_handling/copy_data_remote.py:227-233 | `INFO:` messages are not warnings and `WARNING:` messages are |
| Completion.CheckCounts | data_handling/copy_data_remote.py:235-280 | `Fail` is set iff a count differs, and the messages are the count messages |
| Completion.CheckLog | data_handling/copy_data_remote.py:281-284 | one warning per manifest line that does not start with `Success:`; `Fail` is set iff there is one |
| Completion.FinalCheck | data_handling/copy_data_remote.py:235-284 | all three checks run; `Fail` holds iff the night fails; the messages are the count messages followed by the log failures |
| Completion.LogFailuresMeaning | data_handling/copy_data_remote.py:281-284 | every log failure is a warning, and there are none iff every line reports success |
| Completion.CountMessagesWarn | data_handling/copy_data_remote.py:261-280 | the count messages warn iff a count differs |
| Completion.ReportWarnsIffFail | data_handling/copy_data_remote.py:235-284 | the collected messages hold a warning iff the night fails |
| Completion.EmptyNightPasses | data_handling/copy_data_remote.py:261-284 | no source files, an empty listing and an empty manifest pass |
| Completion.DecisionReflectsPass | data_handling/copy_data_remote.py:182-284 | the manifest the pass wrote, read back, fails the night iff the listing count differs or some file is not replicated |
| Completion.LocalDisk.Move | data_handling/copy_data_remote.py:290-291 | `shutil.move` records one rename and writes nothing |
| Completion.LocalDisk.WriteFile | data_handling/copy_data_remote.py:302-304 | writing the report records one file and renames nothing |
| Completion.Conclude | data_handling/copy_data_remote.py:286-304 | the renames are those of a passed night with a drive found, the info messages follow them, and the report is written iff the night failed |
| Completion.RenamesOnlyPassedNight | data_handling/copy_data_remote.py:287-299 | only a passed night with an external drive is renamed, at most its `Images` and `Logs` directories that exist, each to `ok2delete_<date>` in the same parent |
| Completion.ReportTextKeepsMessages | data_handling/copy_data_remote.py:302-304 | each message is written followed by one more newline, in order |
| Nights.RemoteRoot | data_handling/copy_data_remote.py:171-177 | only `V5` and `V20` have an archive root, and neither root holds a newline |
| Nights.FinishNight | data_handling/copy_data_remote.py:235-304 | the listing command is run; the outcome, the renames and the report written are exactly those `Decision` computes from the manifest as it reads then; a missing manifest raises with nothing renamed or written |
| Nights.DecisionMeaning | data_handling/copy_data_remote.py:235-304 | a decision never exits and runs only the listing command; it renames only a passed night with an external drive, writes the report iff the night failed, and checks the night iff the manifest exists |
| Nights.DecisionRenames | data_handling/copy_data_remote.py:286-299 | the renames are decided by the counts, the manifest read back and the external drive alone, and a missing manifest renames nothing |
| Nights.RewriteAndFinish | data_handling/copy_data_remote.py:179-304 | without skipping, the manifest ends holding the pass's lines; a pass that raises stops the night after its own commands; otherwise the pass's commands are followed by the decision's, with the decision's renames and report |
| Nights.CopyNight | data_handling/copy_data_remote.py:114-304 | the outcome, the commands run, the renames, the report written and the manifest left are exactly the night's effects (`NightEffects`), so `NightEffectsMeaning` holds of every call; the manifest object is new |
| Nights.NightEffectsMeaning | data_handling/copy_data_remote.py:114-304 | only an unknown telescope exits, and then nothing is run, renamed or written; renames happen only on a passed night with an external drive; the report is written iff the night failed; a checked night has a manifest; without skipping, the manifest left holds the pass's lines |
| Nights.NightRenamesOnlyWhenReplicated | data_handling/copy_data_remote.py:179-299 | a night checked without skipping has its external directories renamed only when the listing count equals the local count and every file is replicated with its local hash |
| Nights.RenameOnlyWhenReplicated | data_handling/copy_data_remote.py:179-299 | external directories are renamed only when the listing count matches and every file is replicated with its local hash |
| Nights.NightDirs | data_handling/copy_data_remote.py:309-312 | the directories visited are found ones whose last component matches `\d{8}UT` |
| Nights.NightDirsMeaning | data_handling/copy_data_remote.py:309-312 | a directory is visited iff the glob found it and its last component matches `\d{8}UT` |
| Nights.NightDirsAppend | data_handling/copy_data_remote.py:309-312 | the filter keeps glob order: the visited directories of two runs of found directories are those of the first followed by those of the second |
| Nights.NightDates | data_handling/copy_data_remote.py:311-313 | the date passed for each visited directory is its last component, a night name |
| Nights.NightsOutcomes | data_handling/copy_data_remote.py:307-316 | the `k`-th outcome of a run over the nights is the outcome of the `k`-th night |
| Nights.CopyNextNight | data_handling/copy_data_remote.py:310-316 | one turn of the loop adds the night's outcome, commands, renames and report after those of the nights before it |
| Nights.CopyDates | data_handling/copy_data_remote.py:310-316 | the outcomes and the commands, renames and reports are those of checking the first dates in turn (`NightsEffects`); every outcome but the last is a checked night, and the loop stops early only after a night that raised or exited |
| Nights.CopyNights | data_handling/copy_data_remote.py:307-316 | the same over the night dates found on the external drive, in glob order: the `k`-th outcome is that of the `k`-th date (`NightsOutcomes`) |
| Nights.NightDirOfDate | data_handling/copy_data_remote.py:308-313 | a night directory is passed as its full path as written, and as its date as intended |
| Nights.NightArgumentAsWrittenIsPath | data_handling/copy_data_remote.py:313 | as written, the full external-drive path reaches `copy_night` as the date. The first night would then raise at line 133 when the log file is opened, and the logger is not modelled. The lemma shows only the path arithmetic: the image glob falls under the external drive, not the Drobo |
| Nights.ExternalImageKeepsPath | data_handling/copy_data_remote.py:189 | an image found on the external drive keeps its external-drive path on the archive host |
| Nights.AbsoluteDateEscapesDrive | data_handling/copy_data_remote.py:155 | an absolute date replaces the Drobo in the image path |
| Nights.ExternalFileKeepsPath | data_handling/copy_data_remote.py:189 | a path that does not contain the Drobo path keeps its external-drive path on the archive host |
| Nights.NightDateUnderDrives | data_handling/copy_data_remote.py:155-245 | a night name puts the images and the listing under the Drobo and the archive root |
| Nights.PlanMeaning | data_handling/copy_data_remote.py:330-355 | a single night is only checked under a night name; no `--date` means all nights; any other `--date` leaves `date` unbound; copying is always on |
| Nights.CommandLine | data_handling/copy_data_remote.py:319-364 | a telescope other than `V5`/`V20` is a usage error, and an unrecognised date an unbound-name error; both leave the session and the disk unchanged. Otherwise the one night the date names is checked with copying on, with the outcome and effects of `NightEffects`, or every night found is checked, with those of `NightsEffects` |
| AcpLog.Span | scripts/MakeNightlyPlots.py:53 | a greedy character class takes the longest run of its characters |
| AcpLog.Phrase | scripts/MakeNightlyPlots.py:53-57 | a literal phrase, with `\s` for each space, is matched at the start and the rest returned |
| AcpLog.Stamp | scripts/MakeNightlyPlots.py:53-57 | the `HH:MM:SS` stamp is the first eight characters |
| AcpLog.ShortNumber | scripts/MakeNightlyPlots.py:55-56 | `[0-9\.]{2,5}` takes two to five characters |
| AcpLog.StartOfImage | scripts/MakeNightlyPlots.py:53 | a start-of-image line gives a time and a name of allowed characters |
| AcpLog.PointingError | scripts/MakeNightlyPlots.py:54 | the pointing error is a non-empty run of digits and dots |
| AcpLog.ImageFwhm | scripts/MakeNightlyPlots.py:55 | the pixel FWHM is two to five characters |
| AcpLog.AvgFwhm | scripts/MakeNightlyPlots.py:56 | the average FWHM is two to five characters |
| AcpLog.StartExcludesOthers | scripts/MakeNightlyPlots.py:53-57 | a start-of-image line matches no other pattern |
| AcpLog.RunCompleteExcludesOthers | scripts/MakeNightlyPlots.py:53-57 | a run-complete line matches no other pattern |
| AcpLog.StampOf | scripts/MakeNightlyPlots.py:53 | `HH:MM:SS ` followed by a non-space gives that time and the rest |
| AcpLog.StartOfImageOf | scripts/MakeNightlyPlots.py:53 | `HH:MM:SS Imaging to <name>` is recognised with that time and name |
| AcpLog.PointingErrorOf | scripts/MakeNightlyPlots.py:54 | `Pointing error is <v> arcmin` gives `v` |
| AcpLog.ShortNumberOf | scripts/MakeNightlyPlots.py:55 | a two- to five-character number before a space is taken whole |
| AcpLog.ImageFwhmOf | scripts/MakeNightlyPlots.py:55 | `Image FWHM is <a> arcsec (<p> pixels)` gives `p` |
| AcpLog.AvgFwhmOf | scripts/MakeNightlyPlots.py:56 | `(avg FWHM = <v> arcsec)` gives `v` |
| AcpLog.RunCompleteOf | scripts/MakeNightlyPlots.py:57 | `HH:MM:SS Run complete` ends a run |
| AcpLog.ApplyLine | scripts/MakeNightlyPlots.py:76-97 | the loop body leaves the state and rows the matched patterns call for, or the `ValueError` of an unreadable number |
| AcpLog.ReadFile | scripts/MakeNightlyPlots.py:68-98 | one log file is read line by line from the fresh state |
| AcpLog.ReadAcpLog | scripts/MakeNightlyPlots.py:58-105 | a missing directory gives `None`; otherwise the table is the rows of every `*.log` file in listing order, or a `ValueError` |
| AcpLog.StartOfImageRecordsPrevious | scripts/MakeNightlyPlots.py:77-84 | a start-of-image line records the previous image iff its name is non-empty without `Empty`, then takes the new name and time; measured values carry over |
| AcpLog.RunCompleteRecords | scripts/MakeNightlyPlots.py:94-96 | a run-complete line records the current image unconditionally and changes nothing |
| AcpLog.MeasuresChangeOnlyOnTheirLines | scripts/MakeNightlyPlots.py:85-93 | the pointing error and the two FWHMs change only on their own line kind, to that line's value; the image changes only on a start line |
| AcpLog.OtherLinesIgnored | scripts/MakeNightlyPlots.py:76-96 | a line matching no pattern changes nothing |
| AcpLog.ScanStaysBad | scripts/MakeNightlyPlots.py:76-97 | a `ValueError` ends the file |
| AcpLog.AllRowsStaysNone | scripts/MakeNightlyPlots.py:67-98 | a `ValueError` ends the whole read |
| AcpLog.AllRowsAppend | scripts/MakeNightlyPlots.py:67-98 | nothing carries over between files: each file starts fresh |
| AcpLog.OnlyLogFilesRead | scripts/MakeNightlyPlots.py:68 | a file not named `*.log` contributes nothing |
| AcpLog.SingleLogFile | scripts/MakeNightlyPlots.py:68-76 | a log file is scanned from the fresh state |
| NightlyPlots.UtHourOfClockHour | scripts/MakeNightlyPlots.py:37-40 | for hours 0-23 the UT hour is `(h + 10) mod 24`, stays in 0-23, and converts back |
| NightlyPlots.UtHourInjective | scripts/MakeNightlyPlots.py:37-40 | different clock hours have different UT hours |
| NightlyPlots.ConvertFields | scripts/MakeNightlyPlots.py:35-41 | `H:MM:SS` becomes `U:MM:SS` with unpadded `U`, and the result splits and reads back |
| NightlyPlots.ConvertErrors | scripts/MakeNightlyPlots.py:36-38 | `ValueError` iff the hour does not parse; `IndexError` iff it parses but there are fewer than three fields |
| NightlyPlots.V20Condition | scripts/MakeNightlyPlots.py:260-268 | the three leading `[0-3]` characters in order, or `-1` for all three iff they are missing |
| NightlyPlots.V20ConditionOf | scripts/MakeNightlyPlots.py:260-264 | three levels followed by anything read back as those levels |
| NightlyPlots.V5ConditionMeaning | scripts/MakeNightlyPlots.py:323-331 | after the leading whitespace, three `[-0-9]` characters in order, or `-1` for all three iff they are missing |
| NightlyPlots.V5ConditionOf | scripts/MakeNightlyPlots.py:323-327 | whitespace and three levels read back as those levels |
| NightlyPlots.LastPair | scripts/MakeNightlyPlots.py:272 | the greedy `.*` places the group at the last bit pair before any newline |
| NightlyPlots.DomeFanMeaning | scripts/MakeNightlyPlots.py:272-276 | the fan is 0 or 100, and 100 iff the last reachable bit pair starts with `1` |
| NightlyPlots.DomeFanOfBits | scripts/MakeNightlyPlots.py:272-276 | for a field of bits only, the fan is 100 iff the second-to-last bit is `1` |
| NightlyPlots.ParseV20Rows | scripts/MakeNightlyPlots.py:256-281 | one wet, cloud, wind and fan value per row, each that row's parse; fans are 0 or 100 |
| NightlyPlots.ColumnsMeaning | scripts/MakeNightlyPlots.py:324-331 | appending each condition's parts keeps row `i` of the columns equal to condition `i` |
| NightlyPlots.ParseV5Rows | scripts/MakeNightlyPlots.py:319-337 | one wet, cloud and wind value per row, each that row's parse |
| NightlyPlots.RowOf | scripts/MakeNightlyPlots.py:154-155 | a `None` zero point becomes `NaN`, and only that |
| NightlyPlots.FilterEntries | scripts/MakeNightlyPlots.py:152-166 | the entry loop leaves the rows of the complete entries |
| NightlyPlots.KeptMeaning | scripts/MakeNightlyPlots.py:156-164 | a row is in the table iff a complete entry produced it |
| NightlyPlots.KeptAppend | scripts/MakeNightlyPlots.py:152-166 | the filter keeps input order |
| NightlyPlots.KeptAllComplete | scripts/MakeNightlyPlots.py:156-164 | when every entry is complete, row `i` comes from entry `i` |
| NightlyPlots.TelName | scripts/MakeNightlyPlots.py:113-116 | `V5` and `V20` are `VYSOS-` plus the telescope without its `V`; any other telescope has no name |
| NightlyPlots.SummaryDate | scripts/MakeNightlyPlots.py:122-129 | the captured date is the ten-character prefix of the file name |
| NightlyPlots.SummaryTable | scripts/MakeNightlyPlots.py:125-166 | there is no table iff no summary file of the night reads as a list |
| NightlyPlots.SummaryTableLastWins | scripts/MakeNightlyPlots.py:125-166 | the table is the filter of the last summary file of the night that reads as a list |
| NightlyPlots.ReadIqmonLog | scripts/MakeNightlyPlots.py:111-169 | an unknown telescope fails; a missing directory gives no table; otherwise the table is the one the summaries leave |
| NightlyPlots.LogsPath | scripts/MakeNightlyPlots.py:371-377 | the result exists; it is absent iff neither directory exists; the Drobo one wins when both exist |
| NightlyPlots.DataPath | scripts/MakeNightlyPlots.py:361-369 | the telescope's own volume iff it exists, otherwise its Drobo directory |
| NightlyPlots.PlotFilesDistinct | scripts/MakeNightlyPlots.py:390-396 | the three plots are `<date>_<tel>.png`, `<date>_<tel>_Env.png` and `Recent_<telname>_Conditions.png` in the telescope's IQMon directory, all different |
| Rtml.OutStream.Write | scheduling/convert_to_rtml.py:23 | `f.write` appends one line |
| Rtml.ProjectLabel | scheduling/convert_to_rtml.py:11-17 | `Dwell on Targets` iff the period is 1 and the count above 3, otherwise `Monitor Every <period> Days` |
| Rtml.WriteRequest | scheduling/convert_to_rtml.py:9-51 | an unknown telescope writes nothing and fails; otherwise the Request block is appended |
| Rtml.RequestFrame | scheduling/convert_to_rtml.py:23-51 | a block is 29 lines, opened by `<Request bestefforts="false">` and closed by `</Request>` and a blank line |
| Rtml.RequestFields | scheduling/convert_to_rtml.py:24-38 | ID, Description and Target Name carry the name; Reason is `Monitor=<period>`; UserName is `VYSOS-` plus the telescope without its first character; Priority is the priority |
| Rtml.RequestProject | scheduling/convert_to_rtml.py:11-28 | the block says `Dwell on Targets` iff the period is 1 and the count above 3 |
| Rtml.Insert | scheduling/convert_to_rtml.py:70 | inserting a row adds exactly that row |
| Rtml.InsertSorted | scheduling/convert_to_rtml.py:70 | insertion keeps the rows ordered by period |
| Rtml.GroupByPeriod | scheduling/convert_to_rtml.py:70 | grouping reorders the rows and loses none |
| Rtml.GroupByPeriodSorts | scheduling/convert_to_rtml.py:70 | the grouped rows are ordered by period |
| Rtml.KeysMeaning | scheduling/convert_to_rtml.py:71-73 | the group keys are each period once, ascending |
| Rtml.HasPeriodOfPermutation | scheduling/convert_to_rtml.py:70 | reordering keeps the set of periods |
| Rtml.KeysOfTable | scheduling/convert_to_rtml.py:70-73 | the keys of the grouped table are the table's distinct periods, ascending |
| Rtml.Rank | scheduling/convert_to_rtml.py:73 | the index of a period among the keys |
| Rtml.RankCountsShorter | scheduling/convert_to_rtml.py:73 | a period's rank is the number of shorter periods |
| Rtml.RankOrder | scheduling/convert_to_rtml.py:73-74 | a shorter period ranks lower, and the reverse |
| Rtml.ScheduledMeaning | scheduling/convert_to_rtml.py:70-74 | each written row is its grouped row with only the priority changed, raised by ten times its period's rank |
| Rtml.WriteLines | scheduling/convert_to_rtml.py:63-69 | the lines are appended in order |
| Rtml.RequestsAsBlocks | scheduling/convert_to_rtml.py:72-75 | the body is the raised rows' blocks, one after another |
| Rtml.WriteRaised | scheduling/convert_to_rtml.py:73-75 | one row's priority is raised by its rank and its block written |
| Rtml.WriteRequests | scheduling/convert_to_rtml.py:72-75 | one block per grouped row, each with its raised priority |
| Rtml.ConvertTable | scheduling/convert_to_rtml.py:54-76 | an unknown telescope fails the assert; otherwise the file holds exactly the document |
| Rtml.DocumentLength | scheduling/convert_to_rtml.py:61-76 | the document is 7 header lines, 29 per row and the footer |
| Rtml.DocumentEnds | scheduling/convert_to_rtml.py:63-76 | it opens with a blank line, `<RTML>` and the contact with `VYSOS-<n>`, and ends with `</RTML>` |
| Rtml.DocumentBlock | scheduling/convert_to_rtml.py:70-75 | lines `7 + 29k` to `36 + 29k` are the block of the `k`-th row in period order, with its final priority |

## Left out

- SSH, `exec_command`, `scp`, and the local `shasum` subprocess are replaced by the replies they return. Each file carries its local hash and the two replies to `shasum` on the archive host. SHA-1 itself is not modelled, and hashes are opaque text compared for equality.
- `glob`, `os.path.exists`, `os.listdir` and the directory listing are parameters of `Nights.World`. File order is whatever they give; the model never sorts it.
- Logging, the logger set-up and `sys.exit` are not modelled; an exit is the `BadTelescope` outcome.
- The per-night log file opened at lines 131-133 is not modelled. Its name is built from the date, so as written (see Findings) the first night raises there, and the model cannot show it.
- `Transfer.CheckRemoteShasum`, `Transfer.CopyFile`: names are limited to plain characters (`Shasum.PlainName`: no backslash and none of `*?()[]{}^|`; `+` is allowed), because they are used as a regular expression. A name holding one of those characters is not modelled.
- Manifest lines are proved to be whole lines only for newline-free paths and hashes.
- Python 2 `str` versus `bytes` of the hash is not modelled.
- `IOError` when the manifest directory is missing and a failing local `shasum` are not modelled.
- `datetime.utcnow()` is replaced by the two night names `today` and `yesterday` passed in.
- The YAML parse of an IQMon summary is replaced by the entries it yields, or `None` when it fails or is not a list.
- `TimeStringToDecimal` and the decimal-time columns are left out: they are floating-point arithmetic.
- The division of the average FWHM by the pixel scale is left out: floating point. Measured values are kept as the text that was read, and `float` is modelled only as accepting or rejecting that text (`AcpLog.FloatText`).
- The SkyTemp-to-NaN filter is left out: floating point.
- The astropy table and fixed-width readers, the matplotlib plots and the ephemeris computations are left out.
- `SkyCoord` and the `{:.1f}`/`{:+.4f}` formatting are left out. In `Rtml.Target` the formatted horizon, moon, exposure and coordinate fields are given as text.
- `Table.read` of the target file and the removal of an existing RTML file are left out: they are I/O.
- `Rtml.GroupByPeriod`: astropy's `group_by` is modelled as a stable insertion sort by period. The contract proves order and permutation, but not stability.
- The local `filter` of `write_request` (line 10) is computed and never used. Only the `KeyError` of its lookup is modelled, and the Picture Name and Filter lines take the table's `filter` column, as the source does.
- The IQMon entry loop can raise on an entry's `exposure_start` or numeric fields; this is not modelled, because those are float conversions.
- `old_ReadIQMonLog` is superseded and not modelled.

## Findings

| source | as written | input that shows it | evidently intended | confidence | as-written member | corrected member |
|---|---|---|---|---|---|---|
| data_handling/copy_data_remote.py:313 | `copy_nights` passes the whole directory path `dir` to `copy_night` as the date | a directory `/Volumes/WD500B/V5/Images/20240101UT`: the first night raises `IOError` at line 133, because the log file `/Users/vysosuser/logs/ConfirmRemoteData_V5_/Volumes/WD500B/V5/Images/20240101UT` lies in a directory that does not exist. Past that, the images would be globbed under the external drive instead of the Drobo, and their remote paths would keep the external-drive prefix. The logger is not modelled, so the as-written lemma shows only this path arithmetic | pass `date`, the last component checked on line 312 | not executed | Nights.NightArgumentAsWrittenIsPath | Nights.NightDates |
