// One night end to end (`copy_night`), the loop over every night on the
// external drive (`copy_nights`) and the command line (`main`).

module Nights {
  import opened Optional
  import opened Text
  import opened Shasum
  import opened Transfer
  import opened Completion

  /** The archive host, as `user@host` (line 164). */
  const Host := "vysosuser@trapezium.ifa.hawaii.edu"

  lemma HostOneLine()
    ensures '\n' !in Host
  {
    assert forall i :: 0 <= i < |Host| ==> Host[i] != '\n';
  }

  /**
   * What the machine running the script finds: which paths exist, what
   * each glob pattern returns (with each file's hash and the archive host's
   * replies about it), the text of each file that exists before the run,
   * the archive host's reply to each listing command, and the home directory.
   */
  datatype World = World(
    present: string -> bool,
    glob: string -> seq<LocalFile>,
    globDirs: string -> seq<string>,
    priorText: string -> Option<string>,
    listing: string -> Reply,
    home: string)

  /** How a night ended. */
  datatype Outcome =
    | BadTelescope        // `sys.exit(1)` at line 177
    | Raised              // an exception left `copy_night`
    | Checked(fail: bool) // the final check ran

  // ---------------------------------------------------------------------
  // Paths (lines 143-181)

  /** `os.path.join('/', 'Volumes', 'Drobo', telescope)`. */
  function DroboPath(telescope: string): (r: string)
    ensures |r| > 0
  {
    PathJoin("/Volumes/Drobo", telescope)
  }

  /** Lines 144-152: the first of the two external drives that is mounted. */
  function ExternalDrive(telescope: string, present: string -> bool): Option<string> {
    if present(PathJoin("/Volumes/WD500B", telescope)) then Some(PathJoin("/Volumes/WD500B", telescope))
    else if present(PathJoin("/Volumes/WD500_C", telescope)) then Some(PathJoin("/Volumes/WD500_C", telescope))
    else None
  }

  /** Lines 171-177: the archive directory of each telescope. */
  function RemoteRoot(telescope: string): (r: Option<string>)
    ensures r.Some? <==> telescope in {"V5", "V20"}
    ensures r.Some? ==> '\n' !in r.value
  {
    if telescope == "V5" then Some("/Volumes/DroboPro1/VYSOS5_Data")
    else if telescope == "V20" then Some("/Volumes/DroboPro1/VYSOS20_Data")
    else None
  }

  function ImagesDir(drobo: string, date: string): string {
    PathJoin(PathJoin(drobo, "Images"), date)
  }

  function LogsDir(drobo: string, date: string): string {
    PathJoin(PathJoin(drobo, "Logs"), date)
  }

  /** Lines 155-160: images, then calibration and flat frames when their directories exist, then logs, each in glob order. */
  function NightFiles(w: World, drobo: string, date: string): seq<LocalFile> {
    var images := ImagesDir(drobo, date);
    w.glob(PathJoin(images, "*.*"))
    + (if w.present(PathJoin(images, "Calibration")) then w.glob(PathJoin(PathJoin(images, "Calibration"), "*.fts")) else [])
    + (if w.present(PathJoin(images, "AutoFlat")) then w.glob(PathJoin(PathJoin(images, "AutoFlat"), "*.fts")) else [])
    + w.glob(PathJoin(LogsDir(drobo, date), "*.*"))
  }

  /** Lines 181 and 272: the night's manifest on the local drive. */
  function ManifestPath(drobo: string, telescope: string, date: string): string {
    PathJoin(PathJoin(drobo, "transfer_logs"), "remote_" + telescope + "_" + date + ".txt")
  }

  /** Lines 242-245: list the night's four directories on the archive host. */
  function ListCommand(root: string, date: string): string {
    var images := ImagesDir(root, date);
    "ls -1 " + PathJoin(images, "*.*")
    + " ; ls -1 " + PathJoin(images, "Calibration")
    + " ; ls -1 " + PathJoin(images, "AutoFlat")
    + " ; ls -1 " + LogsDir(root, date)
  }

  /** Every file of the night has a plain name on the archive host, so its query is modelled. */
  predicate NightPlain(w: World, telescope: string, date: string) {
    RemoteRoot(telescope).Some? ==>
      AllPlain(NightFiles(w, DroboPath(telescope), date), DroboPath(telescope), RemoteRoot(telescope).value)
  }

  // ---------------------------------------------------------------------
  // The final part of copy_night

  /**
   * Everything one night does: how it ends, the commands sent, the renames
   * on the local disk, the files written there, and the manifest it leaves
   * (`None`: no manifest file).
   */
  datatype Effects = Effects(outcome: Outcome, actions: seq<Action>, renames: seq<Rename>,
                             written: seq<(string, string)>, manifest: Option<string>)

  /**
   * Lines 235-304 on the manifest `text` (`None`: the file does not exist,
   * so reading it at line 273 raises): list the night on the archive host,
   * decide, and rename or report.
   */
  function Decision(w: World, telescope: string, date: string, root: string, nSource: nat,
                    text: Option<string>): Effects
  {
    var list := [Exec(ListCommand(root, date))];
    if text.None? then Effects(Raised, list, [], [], text)
    else
      var lines := ReadLines(text.value);
      var nRemote := |CleanAll(w.listing(ListCommand(root, date)).stdout)|;
      var fail := NightFails(nSource, nRemote, lines);
      var drive := ExternalDrive(telescope, w.present);
      var report := CountMessages(nSource, nRemote, |lines|) + LogFailures(lines)
                    + RenameMessages(fail, drive, date, w.present);
      Effects(Checked(fail), list, Renames(fail, drive, date, w.present),
              if fail then [(ReportPath(w.home, telescope, date), ReportText(report))] else [], text)
  }

  /** The manifest file's text, `None` when it does not exist. */
  function ManifestText(manifest: ManifestFile): Option<string>
    reads manifest
  {
    if manifest.present then Some(manifest.content) else None
  }

  /**
   * Lines 235-304 once the files are handled: list the night on the archive
   * host, read the manifest back, decide, and act on the decision. A
   * manifest that does not exist makes the read raise.
   */
  method FinishNight(session: Session, manifest: ManifestFile, disk: LocalDisk, w: World,
                     telescope: string, date: string, root: string, nSource: nat)
    returns (outcome: Outcome)
    modifies session, disk
    ensures var d := Decision(w, telescope, date, root, nSource, ManifestText(manifest));
      && outcome == d.outcome
      && session.actions == old(session.actions) + d.actions
      && disk.renames == old(disk.renames) + d.renames
      && disk.written == old(disk.written) + d.written
  {
    var command := ListCommand(root, date);
    session.Perform(Exec(command));
    var listing := CleanLines(w.listing(command).stdout);
    if !manifest.present {
      return Raised;
    }
    var lines := ReadLines(manifest.content);
    var fail, messages := FinalCheck(nSource, |listing|, lines);
    var report := Conclude(disk, fail, ExternalDrive(telescope, w.present), date, w.present,
                           ReportPath(w.home, telescope, date), messages);
    outcome := Checked(fail);
  }

  /**
   * Lines 114-304, what checking one night does: an unknown telescope exits
   * at once; without `skip` the manifest is rewritten by the pass over the
   * night's files, and a pass that raises ends the night; otherwise the
   * manifest (rewritten, or as it was under `skip`) is judged.
   */
  function NightEffects(w: World, telescope: string, date: string, skip: bool, copy: bool): Effects
    requires NightPlain(w, telescope, date)
  {
    var drobo := DroboPath(telescope);
    var prior := w.priorText(ManifestPath(drobo, telescope, date));
    if RemoteRoot(telescope).None? then Effects(BadTelescope, [], [], [], prior)
    else
      var root := RemoteRoot(telescope).value;
      var files := NightFiles(w, drobo, date);
      if skip then Decision(w, telescope, date, root, |files|, prior)
      else Rewritten(w, telescope, date, root, files, copy)
  }

  /** `NightEffects` case by case. */
  lemma NightEffectsCases(w: World, telescope: string, date: string, skip: bool, copy: bool)
    requires NightPlain(w, telescope, date)
    ensures var drobo := DroboPath(telescope);
      var prior := w.priorText(ManifestPath(drobo, telescope, date));
      var files := NightFiles(w, drobo, date);
      var e := NightEffects(w, telescope, date, skip, copy);
      && (RemoteRoot(telescope).None? ==> e == Effects(BadTelescope, [], [], [], prior))
      && (RemoteRoot(telescope).Some? && skip ==>
            e == Decision(w, telescope, date, RemoteRoot(telescope).value, |files|, prior))
      && (RemoteRoot(telescope).Some? && !skip ==>
            e == Rewritten(w, telescope, date, RemoteRoot(telescope).value, files, copy))
  {
  }

  /** The effects of a night whose manifest is rewritten (`skip` off): the pass, then the decision. */
  function Rewritten(w: World, telescope: string, date: string, root: string,
                     files: seq<LocalFile>, copy: bool): Effects
    requires AllPlain(files, DroboPath(telescope), root)
  {
    var p := Pass(files, DroboPath(telescope), root, Host, copy);
    if p.raised then Effects(Raised, p.actions, [], [], Some(Concat(p.lines)))
    else
      var d := Decision(w, telescope, date, root, |files|, Some(Concat(p.lines)));
      d.(actions := p.actions + d.actions)
  }

  /** Lines 181-304 without `skip`: rewrite the manifest from the pass over the files, then decide. */
  method RewriteAndFinish(session: Session, manifest: ManifestFile, disk: LocalDisk, w: World,
                          telescope: string, date: string, root: string,
                          files: seq<LocalFile>, copy: bool)
    returns (outcome: Outcome)
    requires AllPlain(files, DroboPath(telescope), root)
    modifies session, manifest, disk
    ensures var e := Rewritten(w, telescope, date, root, files, copy);
      && outcome == e.outcome
      && session.actions == old(session.actions) + e.actions
      && disk.renames == old(disk.renames) + e.renames
      && disk.written == old(disk.written) + e.written
      && ManifestText(manifest) == e.manifest
  {
    ghost var start := session.actions;
    manifest.Create();
    var raised := SyncFiles(session, manifest, files, DroboPath(telescope), root, Host, copy);
    ghost var p := Pass(files, DroboPath(telescope), root, Host, copy);
    assert manifest.content == Concat(p.lines);
    if raised {
      return Raised;
    }
    outcome := FinishNight(session, manifest, disk, w, telescope, date, root, |files|);
    ghost var d := Decision(w, telescope, date, root, |files|, Some(Concat(p.lines)));
    AppendAssoc(start, p.actions, d.actions);
  }

  /** Lines 114-304: check one night, on the manifest file the night's path names. */
  method CopyNight(session: Session, disk: LocalDisk, w: World, telescope: string, date: string,
                   skip: bool, copy: bool)
    returns (outcome: Outcome, manifest: ManifestFile)
    requires NightPlain(w, telescope, date)
    modifies session, disk
    ensures fresh(manifest)
    ensures var e := NightEffects(w, telescope, date, skip, copy);
      && outcome == e.outcome
      && session.actions == old(session.actions) + e.actions
      && disk.renames == old(disk.renames) + e.renames
      && disk.written == old(disk.written) + e.written
      && ManifestText(manifest) == e.manifest
  {
    NightEffectsCases(w, telescope, date, skip, copy);
    var drobo := DroboPath(telescope);
    var files := NightFiles(w, drobo, date);
    var prior := w.priorText(ManifestPath(drobo, telescope, date));
    manifest := new ManifestFile(prior);
    assert ManifestText(manifest) == prior;
    var remote := RemoteRoot(telescope);
    if remote.None? {
      return BadTelescope, manifest;
    }
    var root := remote.value;
    if skip {
      outcome := FinishNight(session, manifest, disk, w, telescope, date, root, |files|);
    } else {
      outcome := RewriteAndFinish(session, manifest, disk, w, telescope, date, root, files, copy);
    }
  }

  /**
   * What a night does, read off `NightEffects`: only an unknown telescope
   * exits, and it does nothing; renames happen only on a passed night with
   * an external drive; the report is written exactly when the night failed;
   * without `skip` the manifest left is the pass's lines.
   */
  lemma NightEffectsMeaning(w: World, telescope: string, date: string, skip: bool, copy: bool)
    requires NightPlain(w, telescope, date)
    ensures var e := NightEffects(w, telescope, date, skip, copy);
      && (e.outcome == BadTelescope <==> RemoteRoot(telescope).None?)
      && (e.outcome == BadTelescope ==> e.actions == [] && e.renames == [] && e.written == [])
      && (e.renames != [] ==> e.outcome == Checked(false) && ExternalDrive(telescope, w.present).Some?)
      && (e.written != [] <==> e.outcome == Checked(true))
      && (e.outcome.Checked? ==> e.manifest.Some?)
      && (RemoteRoot(telescope).Some? && !skip ==>
            e.manifest == Some(Concat(Pass(NightFiles(w, DroboPath(telescope), date), DroboPath(telescope),
                                           RemoteRoot(telescope).value, Host, copy).lines)))
  {
    NightEffectsCases(w, telescope, date, skip, copy);
    var drobo := DroboPath(telescope);
    var files := NightFiles(w, drobo, date);
    if RemoteRoot(telescope).Some? {
      var root := RemoteRoot(telescope).value;
      if skip {
        DecisionMeaning(w, telescope, date, root, |files|, w.priorText(ManifestPath(drobo, telescope, date)));
      } else {
        var p := Pass(files, drobo, root, Host, copy);
        assert NightEffects(w, telescope, date, skip, copy) == Rewritten(w, telescope, date, root, files, copy);
        if !p.raised {
          DecisionMeaning(w, telescope, date, root, |files|, Some(Concat(p.lines)));
        }
      }
    }
  }

  /** A decision never exits; it renames only a passed night with a drive, and reports only a failed one. */
  lemma DecisionMeaning(w: World, telescope: string, date: string, root: string, nSource: nat,
                        text: Option<string>)
    ensures var d := Decision(w, telescope, date, root, nSource, text);
      && d.outcome != BadTelescope
      && d.actions == [Exec(ListCommand(root, date))]
      && d.manifest == text
      && (d.renames != [] ==> d.outcome == Checked(false) && ExternalDrive(telescope, w.present).Some?)
      && (d.written != [] <==> d.outcome == Checked(true))
      && (d.outcome.Checked? <==> text.Some?)
  {
    var d := Decision(w, telescope, date, root, nSource, text);
    if d.outcome.Checked? {
      RenamesOnlyPassedNight(d.outcome.fail, ExternalDrive(telescope, w.present), date, w.present);
    }
  }

  /**
   * The deletion guard for a whole night as the command line runs it: the
   * external-drive directories are renamed only when the archive host lists
   * as many files as the night has and every file is there with its local hash.
   */
  lemma NightRenamesOnlyWhenReplicated(w: World, telescope: string, date: string, copy: bool)
    requires NightPlain(w, telescope, date) && RemoteRoot(telescope).Some?
    requires var files := NightFiles(w, DroboPath(telescope), date);
      forall i :: 0 <= i < |files| ==> '\n' !in files[i].path && '\n' !in files[i].localHash
    ensures var files := NightFiles(w, DroboPath(telescope), date);
      var root := RemoteRoot(telescope).value;
      NightEffects(w, telescope, date, false, copy).renames != [] ==>
        && |CleanAll(w.listing(ListCommand(root, date)).stdout)| == |files|
        && forall i :: 0 <= i < |files| ==> Replicated(files[i], RemotePath(files[i].path, DroboPath(telescope), root), copy)
  {
    var drobo := DroboPath(telescope);
    var root := RemoteRoot(telescope).value;
    var files := NightFiles(w, drobo, date);
    var p := Pass(files, drobo, root, Host, copy);
    NightEffectsCases(w, telescope, date, false, copy);
    assert NightEffects(w, telescope, date, false, copy) == Rewritten(w, telescope, date, root, files, copy);
    if !p.raised {
      var text := Some(Concat(p.lines));
      DecisionRenames(w, telescope, date, root, |files|, text);
      HostOneLine();
      var nRemote := |CleanAll(w.listing(ListCommand(root, date)).stdout)|;
      RenameOnlyWhenReplicated(files, drobo, root, copy, nRemote, ExternalDrive(telescope, w.present), date, w.present);
    }
  }

  /** The renames a decision asks for come from the count and the manifest alone. */
  lemma DecisionRenames(w: World, telescope: string, date: string, root: string, nSource: nat,
                        text: Option<string>)
    ensures var r := Decision(w, telescope, date, root, nSource, text).renames;
      && (text.None? ==> r == [])
      && (text.Some? ==>
            var nRemote := |CleanAll(w.listing(ListCommand(root, date)).stdout)|;
            r == Renames(NightFails(nSource, nRemote, ReadLines(text.value)),
                         ExternalDrive(telescope, w.present), date, w.present))
  {
  }

  /**
   * The point of the whole check: a night whose pass completed has its
   * external-drive directories renamed for deletion only when the archive
   * host lists as many files as there are locally and every file is on the
   * archive host with its local hash.
   */
  lemma RenameOnlyWhenReplicated(files: seq<LocalFile>, drobo: string, root: string, copy: bool, nRemote: nat,
                                 drive: Option<string>, date: string, present: string -> bool)
    requires |drobo| > 0 && AllPlain(files, drobo, root)
    requires '\n' !in root && '\n' !in Host
    requires forall i :: 0 <= i < |files| ==> '\n' !in files[i].path && '\n' !in files[i].localHash
    requires !Pass(files, drobo, root, Host, copy).raised
    ensures var lines := ReadLines(Concat(Pass(files, drobo, root, Host, copy).lines));
      Renames(NightFails(|files|, nRemote, lines), drive, date, present) != [] ==>
        && nRemote == |files|
        && forall i :: 0 <= i < |files| ==> Replicated(files[i], RemotePath(files[i].path, drobo, root), copy)
  {
    DecisionReflectsPass(files, drobo, root, Host, copy, nRemote);
    var lines := ReadLines(Concat(Pass(files, drobo, root, Host, copy).lines));
    RenamesOnlyPassedNight(NightFails(|files|, nRemote, lines), drive, date, present);
  }

  // ---------------------------------------------------------------------
  // copy_nights (lines 307-316)

  /** `re.match('\d{8}UT', name)`: eight digits and `UT` at the start. */
  predicate IsNightName(name: string) {
    |name| >= 10 && AllDigits(name[..8]) && name[8..10] == "UT"
  }

  /** The night directories the loop visits, in glob order. */
  function NightDirs(dirs: seq<string>): (r: seq<string>)
    ensures forall k :: 0 <= k < |r| ==> r[k] in dirs && IsNightName(SplitTail(r[k]))
    decreases |dirs|
  {
    if dirs == [] then []
    else
      var rest := NightDirs(dirs[..|dirs| - 1]);
      var d := dirs[|dirs| - 1];
      if IsNightName(SplitTail(d)) then rest + [d] else rest
  }

  /** The loop visits exactly the found directories whose last component is a night name. */
  lemma {:induction false} NightDirsMeaning(dirs: seq<string>)
    ensures forall d :: d in NightDirs(dirs) <==> d in dirs && IsNightName(SplitTail(d))
    decreases |dirs|
  {
    if dirs != [] {
      var init := dirs[..|dirs| - 1];
      NightDirsMeaning(init);
      assert dirs == init + [dirs[|dirs| - 1]];
    }
  }

  /** The filter keeps glob order: the nights of `a + b` are those of `a`, then those of `b`. */
  lemma {:induction false} NightDirsAppend(a: seq<string>, b: seq<string>)
    ensures NightDirs(a + b) == NightDirs(a) + NightDirs(b)
    decreases |b|
  {
    if b == [] {
      assert a + b == a;
    } else {
      var init := b[..|b| - 1];
      NightDirsAppend(a, init);
      assert (a + b)[..|a + b| - 1] == a + init;
      assert (a + b)[|a + b| - 1] == b[|b| - 1];
    }
  }

  /** Line 313 as written: each night is checked under its full directory path. */
  function NightArgumentsAsWritten(dirs: seq<string>): seq<string> {
    NightDirs(dirs)
  }

  /** Line 313 as intended: each night is checked under its date, the last component of its directory. */
  function NightDates(dirs: seq<string>): (r: seq<string>)
    ensures |r| == |NightDirs(dirs)|
    ensures forall k :: 0 <= k < |r| ==> r[k] == SplitTail(NightDirs(dirs)[k]) && IsNightName(r[k])
  {
    var ds := NightDirs(dirs);
    seq(|ds|, k requires 0 <= k < |ds| => SplitTail(ds[k]))
  }

  /** Where `copy_nights` looks for night directories: `/Volumes/WD500B/<telescope>/Images/2*UT`. */
  function NightPattern(telescope: string): string {
    PathJoin(PathJoin("/Volumes/WD500B", telescope), "Images") + "/2*UT"
  }

  /** What a run over several nights leaves behind: each night's outcome and the effects in order. */
  datatype Run = Run(outcomes: seq<Outcome>, actions: seq<Action>, renames: seq<Rename>,
                     written: seq<(string, string)>)

  /** The outcomes, commands, renames and written files of checking the first `n` of `dates` in turn. */
  function NightsEffects(w: World, telescope: string, dates: seq<string>, n: nat, skip: bool, copy: bool): Run
    requires n <= |dates| && forall k :: 0 <= k < |dates| ==> NightPlain(w, telescope, dates[k])
  {
    if n == 0 then Run([], [], [], [])
    else
      var before := NightsEffects(w, telescope, dates, n - 1, skip, copy);
      var e := NightEffects(w, telescope, dates[n - 1], skip, copy);
      Run(before.outcomes + [e.outcome], before.actions + e.actions,
          before.renames + e.renames, before.written + e.written)
  }

  /** The `k`-th outcome of a run is the outcome of the `k`-th night. */
  lemma {:induction false} NightsOutcomes(w: World, telescope: string, dates: seq<string>, n: nat,
                                          skip: bool, copy: bool)
    requires n <= |dates| && forall k :: 0 <= k < |dates| ==> NightPlain(w, telescope, dates[k])
    ensures var r := NightsEffects(w, telescope, dates, n, skip, copy);
      && |r.outcomes| == n
      && forall k :: 0 <= k < n ==> r.outcomes[k] == NightEffects(w, telescope, dates[k], skip, copy).outcome
  {
    if n > 0 {
      NightsOutcomes(w, telescope, dates, n - 1, skip, copy);
      var before := NightsEffects(w, telescope, dates, n - 1, skip, copy).outcomes;
      var last := NightEffects(w, telescope, dates[n - 1], skip, copy).outcome;
      var r := NightsEffects(w, telescope, dates, n, skip, copy).outcomes;
      assert r == before + [last];
      forall k | 0 <= k < n
        ensures r[k] == NightEffects(w, telescope, dates[k], skip, copy).outcome
      {
        if k < n - 1 {
          assert r[k] == before[k];
        } else {
          assert r[k] == last;
        }
      }
    }
  }

  /**
   * One turn of the loop at lines 310-316: check night `k`; what the session
   * and the disk hold grows from the effects of the nights before it to
   * those of the nights up to it.
   */
  method CopyNextNight(session: Session, disk: LocalDisk, w: World, telescope: string,
                       dates: seq<string>, k: nat, skip: bool, copy: bool, ghost done: seq<Outcome>,
                       ghost actions0: seq<Action>, ghost renames0: seq<Rename>,
                       ghost written0: seq<(string, string)>)
    returns (outcome: Outcome)
    requires k < |dates| && forall j :: 0 <= j < |dates| ==> NightPlain(w, telescope, dates[j])
    requires var r := NightsEffects(w, telescope, dates, k, skip, copy);
      && done == r.outcomes
      && session.actions == actions0 + r.actions
      && disk.renames == renames0 + r.renames
      && disk.written == written0 + r.written
    modifies session, disk
    ensures var r := NightsEffects(w, telescope, dates, k + 1, skip, copy);
      && done + [outcome] == r.outcomes
      && session.actions == actions0 + r.actions
      && disk.renames == renames0 + r.renames
      && disk.written == written0 + r.written
  {
    ghost var before := NightsEffects(w, telescope, dates, k, skip, copy);
    ghost var night := NightEffects(w, telescope, dates[k], skip, copy);
    var manifest;
    outcome, manifest := CopyNight(session, disk, w, telescope, dates[k], skip, copy);
    AppendAssoc(actions0, before.actions, night.actions);
    AppendAssoc(renames0, before.renames, night.renames);
    AppendAssoc(written0, before.written, night.written);
  }

  /**
   * The loop at lines 310-316: check each date in turn; an exception or an
   * exit ends the loop.
   */
  method CopyDates(session: Session, disk: LocalDisk, w: World, telescope: string, dates: seq<string>,
                   skip: bool, copy: bool)
    returns (outcomes: seq<Outcome>)
    requires forall k :: 0 <= k < |dates| ==> NightPlain(w, telescope, dates[k])
    modifies session, disk
    ensures |outcomes| <= |dates|
    ensures forall k :: 0 <= k < |outcomes| - 1 ==> outcomes[k].Checked?
    ensures |outcomes| < |dates| ==> outcomes != [] && !outcomes[|outcomes| - 1].Checked?
    ensures var r := NightsEffects(w, telescope, dates, |outcomes|, skip, copy);
      && outcomes == r.outcomes
      && session.actions == old(session.actions) + r.actions
      && disk.renames == old(disk.renames) + r.renames
      && disk.written == old(disk.written) + r.written
  {
    ghost var actions0, renames0, written0 := session.actions, disk.renames, disk.written;
    outcomes := [];
    var k := 0;
    while k < |dates|
      invariant 0 <= k <= |dates| && |outcomes| == k
      invariant forall j :: 0 <= j < k ==> outcomes[j].Checked?
      invariant var r := NightsEffects(w, telescope, dates, k, skip, copy);
        && outcomes == r.outcomes
        && session.actions == actions0 + r.actions
        && disk.renames == renames0 + r.renames
        && disk.written == written0 + r.written
    {
      var outcome := CopyNextNight(session, disk, w, telescope, dates, k, skip, copy, outcomes,
                                   actions0, renames0, written0);
      outcomes := outcomes + [outcome];
      k := k + 1;
      if !outcome.Checked? {
        return;
      }
    }
  }

  /** Lines 307-316, with the date passed as intended: check every night found, in glob order. */
  method CopyNights(session: Session, disk: LocalDisk, w: World, telescope: string, skip: bool, copy: bool)
    returns (outcomes: seq<Outcome>)
    requires var dates := NightDates(w.globDirs(NightPattern(telescope)));
      forall k :: 0 <= k < |dates| ==> NightPlain(w, telescope, dates[k])
    modifies session, disk
    ensures var dates := NightDates(w.globDirs(NightPattern(telescope)));
      && |outcomes| <= |dates|
      && (forall k :: 0 <= k < |outcomes| - 1 ==> outcomes[k].Checked?)
      && (|outcomes| < |dates| ==> outcomes != [] && !outcomes[|outcomes| - 1].Checked?)
      && var r := NightsEffects(w, telescope, dates, |outcomes|, skip, copy);
      && outcomes == r.outcomes
      && session.actions == old(session.actions) + r.actions
      && disk.renames == old(disk.renames) + r.renames
      && disk.written == old(disk.written) + r.written
  {
    var dates := NightDates(w.globDirs(NightPattern(telescope)));
    outcomes := CopyDates(session, disk, w, telescope, dates, skip, copy);
  }

  // ---------------------------------------------------------------------
  // The command line (lines 319-364)

  /** What `main` does with `--date`. */
  datatype Plan =
    | OneNight(date: string)
    | AllNights
    | DateUnbound  // `date` is never assigned: `UnboundLocalError`

  /**
   * Lines 346-355: a night name is used as given, `today` and `yesterday`
   * are the clock's dates (passed in), anything else leaves `date` unbound;
   * no date, or an empty one, means every night.
   */
  function DatePlan(dateArg: Option<string>, todayUT: string, yesterdayUT: string): Plan {
    if dateArg.None? || dateArg.value == "" then AllNights
    else if IsNightName(dateArg.value) then OneNight(dateArg.value)
    else if dateArg.value == "today" then OneNight(todayUT)
    else if dateArg.value == "yesterday" then OneNight(yesterdayUT)
    else DateUnbound
  }

  /** Lines 330-332: `store_true` with a default of `True`. */
  function CopyFlag(given: bool): bool {
    given || true
  }

  /**
   * Whatever `--date` says, a single night is only ever checked under a
   * night name (given a clock that formats its dates as night names), and
   * copying is always on.
   */
  lemma PlanMeaning(dateArg: Option<string>, todayUT: string, yesterdayUT: string, given: bool)
    requires IsNightName(todayUT) && IsNightName(yesterdayUT)
    ensures var plan := DatePlan(dateArg, todayUT, yesterdayUT);
      && (plan.OneNight? ==> IsNightName(plan.date))
      && (plan == AllNights <==> dateArg.None? || dateArg == Some(""))
      && (plan == DateUnbound <==>
            dateArg.Some? && dateArg.value != "" && !IsNightName(dateArg.value)
            && dateArg.value != "today" && dateArg.value != "yesterday")
      && CopyFlag(given)
  {
  }

  /** The result of a run from the command line. */
  datatype RunResult =
    | UsageError               // argparse rejects a telescope other than V5 or V20
    | Unbound                  // `--date` named no night
    | Night(outcome: Outcome)
    | Nights(outcomes: seq<Outcome>)

  /** Lines 319-364: parse the arguments and check one night or all of them, copying always on. */
  method CommandLine(session: Session, disk: LocalDisk, w: World, telescope: string, dateArg: Option<string>,
                     todayUT: string, yesterdayUT: string, skip: bool, copyGiven: bool)
    returns (result: RunResult)
    requires forall date :: NightPlain(w, telescope, date)
    modifies session, disk
    ensures telescope !in {"V5", "V20"} <==> result == UsageError
    ensures result == Unbound <==> result != UsageError && DatePlan(dateArg, todayUT, yesterdayUT) == DateUnbound
    ensures result == UsageError || result == Unbound ==>
      session.actions == old(session.actions) && disk.renames == old(disk.renames) && disk.written == old(disk.written)
    ensures result.Night? ==>
      && DatePlan(dateArg, todayUT, yesterdayUT).OneNight?
      && var e := NightEffects(w, telescope, DatePlan(dateArg, todayUT, yesterdayUT).date, skip, true);
      && result.outcome == e.outcome
      && session.actions == old(session.actions) + e.actions
      && disk.renames == old(disk.renames) + e.renames
      && disk.written == old(disk.written) + e.written
    ensures result.Nights? ==>
      && DatePlan(dateArg, todayUT, yesterdayUT) == AllNights
      && var dates := NightDates(w.globDirs(NightPattern(telescope)));
      && |result.outcomes| <= |dates|
      && var r := NightsEffects(w, telescope, dates, |result.outcomes|, skip, true);
      && result.outcomes == r.outcomes
      && session.actions == old(session.actions) + r.actions
      && disk.renames == old(disk.renames) + r.renames
      && disk.written == old(disk.written) + r.written
  {
    if telescope != "V5" && telescope != "V20" {
      return UsageError;
    }
    var copy := CopyFlag(copyGiven);
    var plan := DatePlan(dateArg, todayUT, yesterdayUT);
    match plan {
      case DateUnbound =>
        result := Unbound;
      case OneNight(date) =>
        var outcome, _ := CopyNight(session, disk, w, telescope, date, skip, copy);
        result := Night(outcome);
      case AllNights =>
        var outcomes := CopyNights(session, disk, w, telescope, skip, copy);
        result := Nights(outcomes);
    }
  }

  // ---------------------------------------------------------------------
  // What line 313 does as written

  /** A pattern under an absolute directory ignores the drive it was meant to be under. */
  lemma AbsoluteDateEscapesDrive(drobo: string, dir: string)
    requires dir != [] && dir[0] == '/' && dir[|dir| - 1] != '/'
    ensures ImagesDir(drobo, dir) == dir
    ensures PathJoin(ImagesDir(drobo, dir), "*.*") == dir + "/*.*"
  {
  }

  lemma NotContainsMissingChar(s: string, pat: string, c: char)
    requires c in pat && c !in s
    ensures !Contains(s, pat)
  {
    var j :| 0 <= j < |pat| && pat[j] == c;
    forall i: nat | i <= |s| ensures !OccursAt(pat, s, i) {
      if i + |pat| <= |s| {
        assert s[i..i + |pat|][j] == s[i + j];
        assert s[i + j] in s;
      }
    }
    ContainsIff(s, pat);
  }

  /** The directories `copy_nights` finds: a night directory under the external drive's image directory. */
  lemma {:induction false} NightDirOfDate(parent: string, date: string)
    requires parent != [] && parent[|parent| - 1] != '/'
    requires IsNightName(date) && '/' !in date
    ensures NightArgumentsAsWritten([parent + "/" + date]) == [parent + "/" + date]
    ensures NightDates([parent + "/" + date]) == [date]
  {
    var dir := parent + "/" + date;
    SplitOfJoin(parent, date);
    assert [dir][..0] == [];
    assert NightDirs([dir]) == NightDirs([]) + [dir];
  }

  /**
   * A file found under the passed directory keeps its path on the archive
   * host when that path does not contain the local drive's path.
   */
  lemma {:induction false} ExternalFileKeepsPath(file: string, drobo: string, root: string, c: char)
    requires |drobo| > 0 && c in drobo && c !in file
    ensures RemotePath(file, drobo, root) == file
  {
    NotContainsMissingChar(file, drobo, c);
    ReplaceAllAbsent(file, drobo, root);
  }

  /**
   * As written, `copy_nights` hands `/Volumes/WD500B/V5/Images/20240101UT`
   * to `copy_night` as the date; the intended date is `20240101UT`. The
   * first thing `copy_night` does with it is open its log file (lines
   * 131-133) at `/Users/vysosuser/logs/ConfirmRemoteData_V5_` followed by
   * that path, a directory that does not exist, so the first night found
   * raises there, before any glob; the manifest opened at lines 181-182
   * would fail the same way. The logger is not modelled, so this lemma
   * shows only what the path does to the names that follow: the night's
   * images would be globbed on the external drive instead of the local
   * drive, and a file found there would keep its external-drive path on the
   * archive host.
   */
  lemma NightArgumentAsWrittenIsPath()
    ensures var dir := "/Volumes/WD500B/V5/Images" + "/" + "20240101UT";
      && NightArgumentsAsWritten([dir]) == [dir]
      && NightDates([dir]) == ["20240101UT"]
      && PathJoin(ImagesDir(DroboPath("V5"), dir), "*.*") == dir + "/*.*"
      && ImagesDir("/Volumes/DroboPro1/VYSOS5_Data", dir) == dir
      && RemotePath(dir + "/m42.fts", DroboPath("V5"), "/Volumes/DroboPro1/VYSOS5_Data") == dir + "/m42.fts"
  {
    var parent := "/Volumes/WD500B/V5/Images";
    var date := "20240101UT";
    var dir := parent + "/" + date;
    assert IsNightName(date);
    NightDirOfDate(parent, date);
    AbsoluteDateEscapesDrive(DroboPath("V5"), dir);
    AbsoluteDateEscapesDrive("/Volumes/DroboPro1/VYSOS5_Data", dir);
    ExternalImageKeepsPath();
  }

  /** An image found on the external drive is not under `/Volumes/Drobo/V5`, so its path is kept. */
  lemma ExternalImageKeepsPath()
    ensures var file := "/Volumes/WD500B/V5/Images" + "/" + "20240101UT" + "/m42.fts";
      RemotePath(file, DroboPath("V5"), "/Volumes/DroboPro1/VYSOS5_Data") == file
  {
    var parent, date := "/Volumes/WD500B/V5/Images", "20240101UT";
    assert DroboPath("V5") == "/Volumes/Drobo/V5";
    assert 'r' in DroboPath("V5");
    var file := parent + "/" + date + "/m42.fts";
    assert 'r' !in parent && 'r' !in date && 'r' !in "/m42.fts";
    assert 'r' !in file;
    ExternalFileKeepsPath(file, DroboPath("V5"), "/Volumes/DroboPro1/VYSOS5_Data", 'r');
  }

  /** As intended, the date puts the night's images, manifest and listing under the drives it names. */
  lemma NightDateUnderDrives(drobo: string, root: string, date: string)
    requires drobo != [] && drobo[|drobo| - 1] != '/' && root != [] && root[|root| - 1] != '/'
    requires IsNightName(date) && '/' !in date
    ensures PathJoin(ImagesDir(drobo, date), "*.*") == drobo + "/Images/" + date + "/*.*"
    ensures ImagesDir(root, date) == root + "/Images/" + date
  {
    assert date[0] != '/' by {
      assert date[0] in date;
    }
  }
}
