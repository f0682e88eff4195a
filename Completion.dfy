// The end of a night's check (lines 213-304 of `copy_night`): compare
// the file counts and the manifest, decide whether the night failed, mark
// the external drive's copies as deletable when it did not, and write a
// report when it did.

module Completion {
  import opened Optional
  import opened Text
  import opened Transfer

  function Info(msg: string): string {
    "INFO: " + msg + "\n"
  }

  function Warning(msg: string): string {
    "WARNING: " + msg + "\n"
  }

  predicate IsWarning(line: string) {
    IsPrefix("WARNING:", line)
  }

  predicate HasWarning(messages: seq<string>) {
    exists k :: 0 <= k < |messages| && IsWarning(messages[k])
  }

  lemma HasWarningAppend(a: seq<string>, b: seq<string>)
    ensures HasWarning(a + b) <==> HasWarning(a) || HasWarning(b)
  {
    if HasWarning(a + b) {
      var k :| 0 <= k < |a + b| && IsWarning((a + b)[k]);
      if k >= |a| {
        assert b[k - |a|] == (a + b)[k];
      }
    }
    if HasWarning(a) {
      var k :| 0 <= k < |a| && IsWarning(a[k]);
      assert (a + b)[k] == a[k];
    }
    if HasWarning(b) {
      var k :| 0 <= k < |b| && IsWarning(b[k]);
      assert (a + b)[|a| + k] == b[k];
    }
  }

  /**
   * A night fails when the archive host lists a different number of files,
   * when the manifest has a different number of lines, or when any
   * manifest line does not report success.
   */
  predicate NightFails(nSource: nat, nRemote: nat, lines: seq<string>) {
    || nSource != nRemote
    || nSource != |lines|
    || exists i :: 0 <= i < |lines| && !IsSuccessLine(lines[i])
  }

  /** The messages about the two counts, in the order lines 235-280 produce them. */
  function CountMessages(nSource: nat, nRemote: nat, nLines: nat): seq<string> {
    [Info("Starting final check of files for night"),
     Info("  Found " + IntToString(nSource) + " files on local drive"),
     Info("  Found " + IntToString(nRemote) + " files on remote drive"),
     if nSource == nRemote then Info("  Number of source and destination files match.  PASS")
     else Warning("  Number of source and destination files do NOT match.  FAIL"),
     Info("Checking for reported success in transfer log"),
     if nSource == nLines then Info("  Number of source files and log lines match.  PASS")
     else Warning("  Number of source files and log lines do NOT match.  FAIL")]
  }

  /** One warning per manifest line that does not report success, in order (lines 281-284). */
  function LogFailures(lines: seq<string>): seq<string>
    decreases |lines|
  {
    if lines == [] then []
    else
      var last := lines[|lines| - 1];
      LogFailures(lines[..|lines| - 1]) + (if IsSuccessLine(last) then [] else [Warning("Failure in Log: " + last)])
  }

  /** Lines 235-280: compare the file counts with each other and with the manifest's length. */
  method CheckCounts(nSource: nat, nRemote: nat, nLines: nat) returns (fail: bool, messages: seq<string>)
    ensures fail <==> nSource != nRemote || nSource != nLines
    ensures messages == CountMessages(nSource, nRemote, nLines)
  {
    messages := [Info("Starting final check of files for night")];
    fail := false;
    messages := messages + [Info("  Found " + IntToString(nSource) + " files on local drive")];
    messages := messages + [Info("  Found " + IntToString(nRemote) + " files on remote drive")];
    if nSource == nRemote {
      messages := messages + [Info("  Number of source and destination files match.  PASS")];
    } else {
      messages := messages + [Warning("  Number of source and destination files do NOT match.  FAIL")];
      fail := true;
    }
    messages := messages + [Info("Checking for reported success in transfer log")];
    if nSource == nLines {
      messages := messages + [Info("  Number of source files and log lines match.  PASS")];
    } else {
      messages := messages + [Warning("  Number of source files and log lines do NOT match.  FAIL")];
      fail := true;
    }
  }

  /**
   * Lines 235-284: the pass/fail decision for the night and the messages
   * collected for the report. `nRemote` is the number of lines the
   * archive host's listing printed; `lines` is the manifest as read back.
   */
  method FinalCheck(nSource: nat, nRemote: nat, lines: seq<string>) returns (fail: bool, messages: seq<string>)
    ensures fail <==> NightFails(nSource, nRemote, lines)
    ensures messages == CountMessages(nSource, nRemote, |lines|) + LogFailures(lines)
  {
    fail, messages := CheckCounts(nSource, nRemote, |lines|);
    var logFail, failures := CheckLog(lines);
    fail := fail || logFail;
    messages := messages + failures;
    LogFailuresMeaning(lines);
  }

  /** Lines 281-284: a warning for every manifest line that does not report success. */
  method CheckLog(lines: seq<string>) returns (fail: bool, failures: seq<string>)
    ensures failures == LogFailures(lines)
    ensures fail <==> failures != []
  {
    fail, failures := false, [];
    var k := 0;
    while k < |lines|
      invariant 0 <= k <= |lines|
      invariant failures == LogFailures(lines[..k])
      invariant fail <==> failures != []
    {
      assert lines[..k + 1][..k] == lines[..k];
      if !IsSuccessLine(lines[k]) {
        failures := failures + [Warning("Failure in Log: " + lines[k])];
        fail := true;
      }
      k := k + 1;
    }
    assert lines[..k] == lines;
  }

  lemma InfoIsNotWarning(msg: string)
    ensures !IsWarning(Info(msg)) && IsWarning(Warning(msg))
  {
    assert Info(msg)[0] == 'I';
    assert Warning(msg) == "WARNING:" + (" " + msg + "\n");
  }

  /** Every message about the manifest's lines is a warning, one per line that does not report success. */
  lemma {:induction false} LogFailuresMeaning(lines: seq<string>)
    ensures forall k :: 0 <= k < |LogFailures(lines)| ==> IsWarning(LogFailures(lines)[k])
    ensures LogFailures(lines) == [] <==> forall i :: 0 <= i < |lines| ==> IsSuccessLine(lines[i])
    decreases |lines|
  {
    if lines != [] {
      var init := lines[..|lines| - 1];
      var last := lines[|lines| - 1];
      LogFailuresMeaning(init);
      InfoIsNotWarning("Failure in Log: " + last);
      assert forall i :: 0 <= i < |init| ==> init[i] == lines[i];
    }
  }

  /** The count messages warn exactly when a count differs. */
  lemma CountMessagesWarn(nSource: nat, nRemote: nat, nLines: nat)
    ensures HasWarning(CountMessages(nSource, nRemote, nLines)) <==> nSource != nRemote || nSource != nLines
  {
    var counts := CountMessages(nSource, nRemote, nLines);
    InfoIsNotWarning("Starting final check of files for night");
    InfoIsNotWarning("  Found " + IntToString(nSource) + " files on local drive");
    InfoIsNotWarning("  Found " + IntToString(nRemote) + " files on remote drive");
    InfoIsNotWarning("  Number of source and destination files match.  PASS");
    InfoIsNotWarning("  Number of source and destination files do NOT match.  FAIL");
    InfoIsNotWarning("Checking for reported success in transfer log");
    InfoIsNotWarning("  Number of source files and log lines match.  PASS");
    InfoIsNotWarning("  Number of source files and log lines do NOT match.  FAIL");
    if nSource != nRemote {
      assert IsWarning(counts[3]);
    } else if nSource != nLines {
      assert IsWarning(counts[5]);
    } else {
      forall k | 0 <= k < |counts| ensures !IsWarning(counts[k]) {
      }
    }
  }

  /** The collected messages contain a warning exactly when the night fails. */
  lemma ReportWarnsIffFail(nSource: nat, nRemote: nat, lines: seq<string>)
    ensures NightFails(nSource, nRemote, lines)
        <==> HasWarning(CountMessages(nSource, nRemote, |lines|) + LogFailures(lines))
  {
    var failures := LogFailures(lines);
    LogFailuresMeaning(lines);
    CountMessagesWarn(nSource, nRemote, |lines|);
    HasWarningAppend(CountMessages(nSource, nRemote, |lines|), failures);
    if failures != [] {
      assert IsWarning(failures[0]);
    }
  }

  /** A night with no files anywhere and an empty manifest passes. */
  lemma EmptyNightPasses()
    ensures !NightFails(0, 0, [])
  {
  }

  /**
   * Read back through `readlines()`, the manifest the pass wrote fails
   * the night exactly when the listing count differs or some file was not
   * replicated.
   */
  lemma DecisionReflectsPass(files: seq<LocalFile>, drobo: string, root: string, host: string, copy: bool, nRemote: nat)
    requires |drobo| > 0 && AllPlain(files, drobo, root)
    requires '\n' !in root && '\n' !in host
    requires forall i :: 0 <= i < |files| ==> '\n' !in files[i].path && '\n' !in files[i].localHash
    requires !Pass(files, drobo, root, host, copy).raised
    ensures var lines := ReadLines(Concat(Pass(files, drobo, root, host, copy).lines));
      NightFails(|files|, nRemote, lines) <==>
        (|| nRemote != |files|
         || exists i :: 0 <= i < |files| && !Replicated(files[i], RemotePath(files[i].path, drobo, root), copy))
  {
    var p := Pass(files, drobo, root, host, copy);
    PassLinesAreLines(files, drobo, root, host, copy);
    ReadLinesOfConcat(p.lines);
    PassManifest(files, drobo, root, host, copy);
  }

  // ---------------------------------------------------------------------
  // Acting on the decision (lines 286-304)

  /** A directory renamed on a local drive. */
  datatype Rename = Rename(source: string, target: string)

  /** The local drives, as the renames and the report files written to them. */
  class LocalDisk {
    var renames: seq<Rename>
    var written: seq<(string, string)>

    constructor ()
      ensures renames == [] && written == []
    {
      renames := [];
      written := [];
    }

    method Move(source: string, target: string)
      modifies this
      ensures renames == old(renames) + [Rename(source, target)]
      ensures written == old(written)
    {
      renames := renames + [Rename(source, target)];
    }

    method WriteFile(path: string, text: string)
      modifies this
      ensures renames == old(renames)
      ensures written == old(written) + [(path, text)]
    {
      written := written + [(path, text)];
    }
  }

  /** `<drive>/<kind>/<date>`, the night's directory of one kind on the external drive. */
  function NightDir(drive: string, kind: string, date: string): string {
    PathJoin(PathJoin(drive, kind), date)
  }

  /** `<drive>/<kind>/ok2delete_<date>`: the name that marks it as safe to delete. */
  function DeletableDir(drive: string, kind: string, date: string): string {
    PathJoin(PathJoin(drive, kind), "ok2delete_" + date)
  }

  /** The renames lines 287-299 perform; `present` answers `os.path.exists`. */
  function Renames(fail: bool, drive: Option<string>, date: string, present: string -> bool): seq<Rename> {
    if drive.Some? && drive.value != "" && !fail then
      (if present(NightDir(drive.value, "Images", date))
       then [Rename(NightDir(drive.value, "Images", date), DeletableDir(drive.value, "Images", date))] else [])
      + (if present(NightDir(drive.value, "Logs", date))
         then [Rename(NightDir(drive.value, "Logs", date), DeletableDir(drive.value, "Logs", date))] else [])
    else []
  }

  /** The messages lines 289-299 add. */
  function RenameMessages(fail: bool, drive: Option<string>, date: string, present: string -> bool): seq<string> {
    if drive.Some? && drive.value != "" && !fail then
      [if present(NightDir(drive.value, "Images", date))
       then Info("Renaming Images/" + date + " on USB drive to Images/ok2delete_" + date)
       else Info("No Images/" + date + " found.  Already deleted?"),
       if present(NightDir(drive.value, "Logs", date))
       then Info("Renaming Logs/" + date + " on USB drive to Logs/ok2delete_" + date)
       else Info("No Logs/" + date + " found.  Already deleted?")]
    else []
  }

  /** Lines 302-304: each message written followed by one more newline. */
  function ReportText(messages: seq<string>): string
    decreases |messages|
  {
    if messages == [] then ""
    else ReportText(messages[..|messages| - 1]) + messages[|messages| - 1] + "\n"
  }

  /** `~/Dropbox/DataSyncReports/<telescope>_<date>.txt`. */
  function ReportPath(home: string, telescope: string, date: string): string {
    PathJoin(PathJoin(PathJoin(home, "Dropbox"), "DataSyncReports"), telescope + "_" + date + ".txt")
  }

  /**
   * Lines 286-304: mark the night's directories on the external drive as
   * deletable when the night passed, and write the report when it failed.
   */
  method Conclude(disk: LocalDisk, fail: bool, drive: Option<string>, date: string, present: string -> bool,
                  reportPath: string, messages: seq<string>)
    returns (report: seq<string>)
    modifies disk
    ensures report == messages + RenameMessages(fail, drive, date, present)
    ensures disk.renames == old(disk.renames) + Renames(fail, drive, date, present)
    ensures disk.written == old(disk.written) + (if fail then [(reportPath, ReportText(report))] else [])
  {
    report := messages;
    if drive.Some? && drive.value != "" && !fail {
      var images := NightDir(drive.value, "Images", date);
      if present(images) {
        report := report + [Info("Renaming Images/" + date + " on USB drive to Images/ok2delete_" + date)];
        disk.Move(images, DeletableDir(drive.value, "Images", date));
      } else {
        report := report + [Info("No Images/" + date + " found.  Already deleted?")];
      }
      var logs := NightDir(drive.value, "Logs", date);
      if present(logs) {
        report := report + [Info("Renaming Logs/" + date + " on USB drive to Logs/ok2delete_" + date)];
        disk.Move(logs, DeletableDir(drive.value, "Logs", date));
      } else {
        report := report + [Info("No Logs/" + date + " found.  Already deleted?")];
      }
    }
    if fail {
      disk.WriteFile(reportPath, ReportText(report));
    }
  }

  /**
   * Only a night that passed, with its external drive found, has anything
   * renamed; what is renamed is that night's `Images` or `Logs` directory,
   * and it keeps its parent directory.
   */
  lemma RenamesOnlyPassedNight(fail: bool, drive: Option<string>, date: string, present: string -> bool)
    ensures var rs := Renames(fail, drive, date, present);
      && (rs != [] ==> !fail && drive.Some?)
      && |rs| <= 2
      && forall k :: 0 <= k < |rs| ==>
           exists kind :: (&& kind in ["Images", "Logs"]
                           && rs[k] == Rename(NightDir(drive.value, kind, date), DeletableDir(drive.value, kind, date))
                           && present(NightDir(drive.value, kind, date)))
  {
    var rs := Renames(fail, drive, date, present);
    if rs != [] {
      forall k | 0 <= k < |rs|
        ensures exists kind :: (&& kind in ["Images", "Logs"]
                                && rs[k] == Rename(NightDir(drive.value, kind, date), DeletableDir(drive.value, kind, date))
                                && present(NightDir(drive.value, kind, date)))
      {
        if rs[k].source == NightDir(drive.value, "Images", date) && present(NightDir(drive.value, "Images", date)) {
          assert "Images" in ["Images", "Logs"];
        } else {
          assert "Logs" in ["Images", "Logs"];
        }
      }
    }
  }

  /** The report ends with the last message and keeps every message, each on its own line. */
  lemma {:induction false} ReportTextKeepsMessages(messages: seq<string>, more: string)
    ensures ReportText(messages + [more]) == ReportText(messages) + more + "\n"
  {
    assert (messages + [more])[..|messages|] == messages;
  }
}
