// The per-file half of a night's transfer check: ask the archive host
// for each file's SHA-1, copy the file over when it is missing or differs,
// and write one line per file to the night's manifest
// (`copy_file` and the file loop of `copy_night`).

module Transfer {
  import opened Optional
  import opened Text
  import opened Shasum

  /** What the script asks of the outside world, in the order it asks. */
  datatype Action =
    | Exec(command: string)                   // a command run over the SSH session
    | Scp(source: string, destination: string) // a local `scp` subprocess

  /** The captured output of one remote command: each stream's raw lines, `None` where reading failed. */
  datatype Reply = Reply(stdout: Option<seq<string>>, stderr: Option<seq<string>>)

  /**
   * One file found on the local drive, with what the outside world answers
   * about it: its local SHA-1 and the replies of the archive host to the
   * first query and to the query after a copy.
   */
  datatype LocalFile = LocalFile(path: string, localHash: string, firstReply: Reply, afterCopyReply: Reply)

  /** The SSH connection, kept as the trace of everything asked of it. */
  class Session {
    var actions: seq<Action>

    constructor ()
      ensures actions == []
    {
      actions := [];
    }

    method Perform(a: Action)
      modifies this
      ensures actions == old(actions) + [a]
    {
      actions := actions + [a];
    }
  }

  /** The night's manifest file on the local drive. */
  class ManifestFile {
    var present: bool
    var content: string

    constructor (prior: Option<string>)
      ensures present == prior.Some?
      ensures content == (if prior.Some? then prior.value else "")
    {
      present := prior.Some?;
      content := if prior.Some? then prior.value else "";
    }

    /** `open(path, 'w')`: create or empty the file. */
    method Create()
      modifies this
      ensures present && content == ""
    {
      present := true;
      content := "";
    }

    method Write(s: string)
      modifies this
      ensures present == old(present)
      ensures content == old(content) + s
    {
      content := content + s;
    }
  }

  // ---------------------------------------------------------------------
  // One query (check_remote_shasum)

  function ShasumCommand(name: string): string {
    "shasum " + EscapeForQuery(name)
  }

  /**
   * What a query for the plain name `name` concludes from the archive host's
   * reply; querying its `$`-escaped form concludes the same
   * (`Shasum.ClassifyEscapedName`).
   */
  function Answer(name: string, reply: Reply): Query
    requires PlainName(name)
  {
    PlainNameQueryable(name);
    Classify(name, CleanAll(reply.stdout), CleanAll(reply.stderr))
  }

  /** Lines 18-68: one `shasum` on the archive host, its output cleaned, then classified. */
  method CheckRemoteShasum(session: Session, name: string, reply: Reply) returns (q: Query)
    requires Queryable(name)
    modifies session
    ensures session.actions == old(session.actions) + [Exec(ShasumCommand(name))]
    ensures q == Classify(name, CleanAll(reply.stdout), CleanAll(reply.stderr))
  {
    var escaped := EscapeForQuery(name);
    session.Perform(Exec("shasum " + escaped));
    var out := CleanLines(reply.stdout);
    var err := CleanLines(reply.stderr);
    q := Classify(name, out, err);
  }

  // ---------------------------------------------------------------------
  // Manifest lines

  function SuccessLine(file: string, localHash: string, host: string, remoteFile: string, remoteHash: string): string {
    "Success: " + file + "," + localHash + "," + host + ":" + remoteFile + "," + remoteHash + "\n"
  }

  function FailedLine(file: string, localHash: string): string {
    "Failed: " + file + "," + localHash + ",:," + "\n"
  }

  predicate IsSuccessLine(line: string) {
    IsPrefix("Success:", line)
  }

  lemma LineKinds(file: string, localHash: string, host: string, remoteFile: string, remoteHash: string)
    ensures IsSuccessLine(SuccessLine(file, localHash, host, remoteFile, remoteHash))
    ensures !IsSuccessLine(FailedLine(file, localHash))
  {
    var l := SuccessLine(file, localHash, host, remoteFile, remoteHash);
    assert l == "Success:" + (" " + file + "," + localHash + "," + host + ":" + remoteFile + "," + remoteHash + "\n");
    assert FailedLine(file, localHash)[0] == 'F';
  }

  // ---------------------------------------------------------------------
  // copy_file

  function MkdirCommand(dir: string): string {
    "mkdir " + dir
  }

  /** Everything `copy_file` asks of the outside world, in order. */
  function CopyActions(file: string, remoteFile: string, host: string): seq<Action> {
    var parent := SplitHead(remoteFile);
    var grandparent := SplitHead(parent);
    var escaped := EscapeDollars(remoteFile);
    [Exec(MkdirCommand(grandparent)), Exec(MkdirCommand(parent)),
     Scp(file, host + ":" + escaped), Exec(ShasumCommand(escaped))]
  }

  /** The line `copy_file` writes after re-querying; the remote name is the `$`-escaped one it copied to. */
  function CopyLine(file: string, localHash: string, host: string, escaped: string, q: Query): string {
    if q == Hash(localHash) then SuccessLine(file, localHash, host, escaped, localHash)
    else FailedLine(file, localHash)
  }

  /**
   * Lines 71-107: make the two parent directories, copy, query the copy.
   * `raised` is the `IndexError` of an empty reply, which leaves the
   * manifest as it was.
   */
  method CopyFile(session: Session, manifest: ManifestFile, file: string, localHash: string,
                  remoteFile: string, host: string, reply: Reply)
    returns (ok: bool, raised: bool)
    requires PlainName(remoteFile)
    modifies session, manifest
    ensures session.actions == old(session.actions) + CopyActions(file, remoteFile, host)
    ensures raised == Answer(remoteFile, reply).IndexError?
    ensures ok <==> Answer(remoteFile, reply) == Hash(localHash)
    ensures manifest.present == old(manifest.present)
    ensures manifest.content == old(manifest.content)
      + (if raised then "" else CopyLine(file, localHash, host, EscapeDollars(remoteFile), Answer(remoteFile, reply)))
  {
    var dest2 := SplitHead(remoteFile);
    var dest1 := SplitHead(dest2);
    session.Perform(Exec(MkdirCommand(dest1)));
    session.Perform(Exec(MkdirCommand(dest2)));
    var escaped := EscapeDollars(remoteFile);
    PlainNameQueryable(remoteFile);
    ClassifyEscapedName(remoteFile, CleanAll(reply.stdout), CleanAll(reply.stderr));
    session.Perform(Scp(file, host + ":" + escaped));
    var q := CheckRemoteShasum(session, escaped, reply);
    ok, raised := false, false;
    if q.IndexError? {
      raised := true;
    } else if !q.Hash? {
      manifest.Write(FailedLine(file, localHash));
    } else if q.value == localHash {
      manifest.Write(SuccessLine(file, localHash, host, escaped, q.value));
      ok := true;
    } else {
      manifest.Write(FailedLine(file, localHash));
    }
  }

  // ---------------------------------------------------------------------
  // The file loop of copy_night (lines 179-210)

  /** `file.replace(drobo_path, remote_path)`: where the file lives on the archive host. */
  function RemotePath(path: string, drobo: string, root: string): string
    requires |drobo| > 0
  {
    ReplaceAll(path, drobo, root)
  }

  /** What handling one file does: its actions, its manifest line, and whether it raised. */
  datatype Step = Step(actions: seq<Action>, line: string, raised: bool)

  function FileStep(f: LocalFile, remoteFile: string, host: string, copy: bool): (st: Step)
    requires PlainName(remoteFile)
    ensures st.raised ==> st.line == ""
  {
    var query := [Exec(ShasumCommand(remoteFile))];
    var q := Answer(remoteFile, f.firstReply);
    if q.IndexError? then Step(query, "", true)
    else if q == Hash(f.localHash) then
      Step(query, SuccessLine(f.path, f.localHash, host, remoteFile, f.localHash), false)
    else if copy then
      var q2 := Answer(remoteFile, f.afterCopyReply);
      Step(query + CopyActions(f.path, remoteFile, host),
           if q2.IndexError? then "" else CopyLine(f.path, f.localHash, host, EscapeDollars(remoteFile), q2),
           q2.IndexError?)
    else Step(query, FailedLine(f.path, f.localHash), false)
  }

  /** Every file of a night has a plain name on the archive host. */
  predicate AllPlain(files: seq<LocalFile>, drobo: string, root: string)
    requires |drobo| > 0
  {
    forall i :: 0 <= i < |files| ==> PlainName(RemotePath(files[i].path, drobo, root))
  }

  /** The result of handling files in order: all actions, all lines, and whether one raised. */
  datatype PassResult = PassResult(actions: seq<Action>, lines: seq<string>, raised: bool)

  /** A pass so far, followed by one more file's step; nothing happens after an exception. */
  function Extend(p: PassResult, st: Step): PassResult {
    if p.raised then p
    else PassResult(p.actions + st.actions, if st.raised then p.lines else p.lines + [st.line], st.raised)
  }

  /** Taking `steps` in order, stopping at the first that raises. */
  function Run(steps: seq<Step>): PassResult
    decreases |steps|
  {
    if steps == [] then PassResult([], [], false)
    else Extend(Run(steps[..|steps| - 1]), steps[|steps| - 1])
  }

  lemma RunPrefix(steps: seq<Step>, n: nat)
    requires n < |steps|
    ensures Run(steps[..n + 1]) == Extend(Run(steps[..n]), steps[n])
  {
    assert steps[..n + 1][..n] == steps[..n];
  }

  /** Once a run has raised, later steps change nothing. */
  lemma {:induction false} RunRaisedStays(steps: seq<Step>, n: nat)
    requires n <= |steps| && Run(steps[..n]).raised
    ensures Run(steps) == Run(steps[..n])
    decreases |steps| - n
  {
    if n < |steps| {
      var init := steps[..|steps| - 1];
      assert init[..n] == steps[..n];
      RunRaisedStays(init, n);
    } else {
      assert steps[..n] == steps;
    }
  }

  function StepOf(f: LocalFile, drobo: string, root: string, host: string, copy: bool): Step
    requires |drobo| > 0 && PlainName(RemotePath(f.path, drobo, root))
  {
    FileStep(f, RemotePath(f.path, drobo, root), host, copy)
  }

  /** What handling each file on its own would do. */
  function Steps(files: seq<LocalFile>, drobo: string, root: string, host: string, copy: bool): (steps: seq<Step>)
    requires |drobo| > 0 && AllPlain(files, drobo, root)
    ensures |steps| == |files|
    ensures forall i :: 0 <= i < |files| ==> steps[i] == StepOf(files[i], drobo, root, host, copy)
  {
    seq(|files|, i requires 0 <= i < |files| => StepOf(files[i], drobo, root, host, copy))
  }

  /** Handling a night's files in order, stopping at the first exception. */
  function Pass(files: seq<LocalFile>, drobo: string, root: string, host: string, copy: bool): PassResult
    requires |drobo| > 0 && AllPlain(files, drobo, root)
  {
    Run(Steps(files, drobo, root, host, copy))
  }

  /** The manifest line for one file, written by the loop body of lines 184-210. */
  method HandleFile(session: Session, manifest: ManifestFile, f: LocalFile, drobo: string,
                    root: string, host: string, copy: bool)
    returns (raised: bool)
    requires |drobo| > 0 && PlainName(RemotePath(f.path, drobo, root))
    modifies session, manifest
    ensures var st := FileStep(f, RemotePath(f.path, drobo, root), host, copy);
      && raised == st.raised
      && session.actions == old(session.actions) + st.actions
      && manifest.present == old(manifest.present)
      && manifest.content == old(manifest.content) + st.line
  {
    var remoteFile := RemotePath(f.path, drobo, root);
    PlainNameQueryable(remoteFile);
    var q := CheckRemoteShasum(session, remoteFile, f.firstReply);
    raised := false;
    if q.IndexError? {
      raised := true;
    } else if !q.Hash? {
      if copy {
        var _, r := CopyFile(session, manifest, f.path, f.localHash, remoteFile, host, f.afterCopyReply);
        raised := r;
        AppendAssoc(old(session.actions), [Exec(ShasumCommand(remoteFile))], CopyActions(f.path, remoteFile, host));
      } else {
        manifest.Write(FailedLine(f.path, f.localHash));
      }
    } else if q.value == f.localHash {
      manifest.Write(SuccessLine(f.path, f.localHash, host, remoteFile, q.value));
    } else {
      if copy {
        var _, r := CopyFile(session, manifest, f.path, f.localHash, remoteFile, host, f.afterCopyReply);
        raised := r;
        AppendAssoc(old(session.actions), [Exec(ShasumCommand(remoteFile))], CopyActions(f.path, remoteFile, host));
      } else {
        manifest.Write(FailedLine(f.path, f.localHash));
      }
    }
  }

  /**
   * One turn of the loop: the trace and manifest that held the run of the
   * first `n` steps come to hold the run of `n + 1`.
   */
  method HandleNext(session: Session, manifest: ManifestFile, files: seq<LocalFile>, n: nat, drobo: string,
                    root: string, host: string, copy: bool,
                    ghost steps: seq<Step>, ghost start: seq<Action>, ghost startText: string)
    returns (raised: bool)
    requires |drobo| > 0 && AllPlain(files, drobo, root) && n < |files|
    requires steps == Steps(files, drobo, root, host, copy)
    requires !Run(steps[..n]).raised
    requires session.actions == start + Run(steps[..n]).actions
    requires manifest.content == startText + Concat(Run(steps[..n]).lines)
    modifies session, manifest
    ensures raised == Run(steps[..n + 1]).raised
    ensures session.actions == start + Run(steps[..n + 1]).actions
    ensures manifest.present == old(manifest.present)
    ensures manifest.content == startText + Concat(Run(steps[..n + 1]).lines)
  {
    RunPrefix(steps, n);
    ghost var mid, midText := session.actions, manifest.content;
    raised := HandleFile(session, manifest, files[n], drobo, root, host, copy);
    ExtendRecords(start, startText, Run(steps[..n]), steps[n], mid, midText, session.actions, manifest.content);
  }

  /** Appending one step's actions and line to a record of the pass so far records the extended pass. */
  lemma ExtendRecords(start: seq<Action>, startText: string, p: PassResult, st: Step,
                      mid: seq<Action>, midText: string, actions: seq<Action>, text: string)
    requires !p.raised && (st.raised ==> st.line == "")
    requires mid == start + p.actions && midText == startText + Concat(p.lines)
    requires actions == mid + st.actions && text == midText + st.line
    ensures actions == start + Extend(p, st).actions
    ensures text == startText + Concat(Extend(p, st).lines)
  {
    AppendAssoc(start, p.actions, st.actions);
    ConcatAppend(p.lines, st.line);
  }


  /** Lines 183-210: the loop over a night's files, writing into the open manifest. */
  method SyncFiles(session: Session, manifest: ManifestFile, files: seq<LocalFile>, drobo: string,
                   root: string, host: string, copy: bool)
    returns (raised: bool)
    requires |drobo| > 0 && AllPlain(files, drobo, root)
    modifies session, manifest
    ensures var p := Pass(files, drobo, root, host, copy);
      && raised == p.raised
      && session.actions == old(session.actions) + p.actions
      && manifest.present == old(manifest.present)
      && manifest.content == old(manifest.content) + Concat(p.lines)
  {
    ghost var steps := Steps(files, drobo, root, host, copy);
    var counter := 0;
    raised := false;
    while counter < |files| && !raised
      invariant 0 <= counter <= |files|
      invariant raised == Run(steps[..counter]).raised
      invariant session.actions == old(session.actions) + Run(steps[..counter]).actions
      invariant manifest.present == old(manifest.present)
      invariant manifest.content == old(manifest.content) + Concat(Run(steps[..counter]).lines)
      decreases |files| - counter
    {
      raised := HandleNext(session, manifest, files, counter, drobo, root, host, copy,
                           steps, old(session.actions), old(manifest.content));
      counter := counter + 1;
    }
    if raised {
      RunRaisedStays(steps, counter);
    } else {
      assert steps[..counter] == steps;
    }
  }

  // ---------------------------------------------------------------------
  // What the pass promises

  /** The file is known to be on the archive host with its local hash: before copying, or after. */
  predicate Replicated(f: LocalFile, remoteFile: string, copy: bool)
    requires PlainName(remoteFile)
  {
    || Answer(remoteFile, f.firstReply) == Hash(f.localHash)
    || (copy && Answer(remoteFile, f.afterCopyReply) == Hash(f.localHash))
  }

  /** Handling the file raises: an empty first reply, or an empty reply after the copy. */
  predicate Raises(f: LocalFile, remoteFile: string, copy: bool)
    requires PlainName(remoteFile)
  {
    var q := Answer(remoteFile, f.firstReply);
    || q.IndexError?
    || (copy && q != Hash(f.localHash) && Answer(remoteFile, f.afterCopyReply).IndexError?)
  }

  /** The file is copied: the first answer is not its hash and copying is on. */
  predicate NeedsCopy(f: LocalFile, remoteFile: string, copy: bool)
    requires PlainName(remoteFile)
  {
    var q := Answer(remoteFile, f.firstReply);
    copy && !q.IndexError? && q != Hash(f.localHash)
  }

  /**
   * One file's manifest line reports success exactly when the file is
   * replicated; a file raises exactly as `Raises` says.
   */
  lemma StepOutcome(f: LocalFile, remoteFile: string, host: string, copy: bool)
    requires PlainName(remoteFile)
    ensures var st := FileStep(f, remoteFile, host, copy);
      && (st.raised <==> Raises(f, remoteFile, copy))
      && (!st.raised ==> (IsSuccessLine(st.line) <==> Replicated(f, remoteFile, copy)))
  {
    LineKinds(f.path, f.localHash, host, remoteFile, f.localHash);
    LineKinds(f.path, f.localHash, host, EscapeDollars(remoteFile), f.localHash);
  }

  /** How many `scp` copies a list of actions makes. */
  function CopyCount(actions: seq<Action>): nat {
    if actions == [] then 0
    else (if actions[0].Scp? then 1 else 0) + CopyCount(actions[1..])
  }

  lemma {:induction false} CopyCountAppend(a: seq<Action>, b: seq<Action>)
    ensures CopyCount(a + b) == CopyCount(a) + CopyCount(b)
  {
    if a == [] {
      assert a + b == b;
    } else {
      assert (a + b)[1..] == a[1..] + b;
      CopyCountAppend(a[1..], b);
    }
  }

  /** `copy_file` copies exactly once. */
  lemma CopyActionsCopyOnce(file: string, remoteFile: string, host: string)
    ensures CopyCount(CopyActions(file, remoteFile, host)) == 1
  {
    var c := CopyActions(file, remoteFile, host);
    assert CopyCount(c[3..]) == 0 by {
      assert c[3..][1..] == [];
    }
    assert c[2..][0].Scp? && c[2..][1..] == c[3..];
    assert CopyCount(c[2..]) == 1;
    assert !c[1..][0].Scp? && c[1..][1..] == c[2..];
    assert CopyCount(c[1..]) == 1;
    assert !c[0].Scp?;
  }

  /**
   * A file is copied once, to the `$`-escaped remote name, after creating
   * its two parent directories, when it needs copying, and is otherwise
   * only queried.
   */
  lemma StepActions(f: LocalFile, remoteFile: string, host: string, copy: bool)
    requires PlainName(remoteFile)
    ensures var st := FileStep(f, remoteFile, host, copy);
      && CopyCount(st.actions) == (if NeedsCopy(f, remoteFile, copy) then 1 else 0)
      && st.actions[0] == Exec(ShasumCommand(remoteFile))
      && (NeedsCopy(f, remoteFile, copy) ==> st.actions[1..] == CopyActions(f.path, remoteFile, host))
      && (!NeedsCopy(f, remoteFile, copy) ==> |st.actions| == 1)
  {
    var st := FileStep(f, remoteFile, host, copy);
    var query := [Exec(ShasumCommand(remoteFile))];
    assert CopyCount(query) == 0 by {
      assert query[1..] == [];
    }
    if NeedsCopy(f, remoteFile, copy) {
      var c := CopyActions(f.path, remoteFile, host);
      assert st.actions == query + c;
      CopyCountAppend(query, c);
      CopyActionsCopyOnce(f.path, remoteFile, host);
      assert st.actions[1..] == c;
    } else {
      assert st.actions == query;
    }
  }

  /** Whether a run raised, and its lines when it did not: one per step, in order. */
  lemma {:induction false} RunLines(steps: seq<Step>)
    ensures Run(steps).raised <==> exists i :: 0 <= i < |steps| && steps[i].raised
    ensures !Run(steps).raised ==>
      && |Run(steps).lines| == |steps|
      && forall i :: 0 <= i < |steps| ==> Run(steps).lines[i] == steps[i].line
    decreases |steps|
  {
    if steps != [] {
      var init := steps[..|steps| - 1];
      RunLines(init);
      if Run(init).raised {
        var i :| 0 <= i < |init| && init[i].raised;
        assert steps[i].raised;
      } else {
        forall i | 0 <= i < |init| ensures !steps[i].raised {
          assert steps[i] == init[i];
        }
      }
    }
  }

  /** A run copies no more often than its steps do. */
  lemma {:induction false} RunCopies(steps: seq<Step>)
    ensures CopyCount(Run(steps).actions) <= CopySum(steps)
    decreases |steps|
  {
    if steps != [] {
      var init := steps[..|steps| - 1];
      RunCopies(init);
      var p := Run(init);
      if !p.raised {
        CopyCountAppend(p.actions, steps[|steps| - 1].actions);
      }
    }
  }

  /** How often the steps would copy, taken together. */
  function CopySum(steps: seq<Step>): nat
    decreases |steps|
  {
    if steps == [] then 0 else CopySum(steps[..|steps| - 1]) + CopyCount(steps[|steps| - 1].actions)
  }

  lemma {:induction false} CopySumBound(steps: seq<Step>, bound: nat)
    requires forall i :: 0 <= i < |steps| ==> CopyCount(steps[i].actions) <= bound
    ensures CopySum(steps) <= bound * |steps|
    decreases |steps|
  {
    if steps != [] {
      var init := steps[..|steps| - 1];
      assert forall i :: 0 <= i < |init| ==> init[i] == steps[i];
      CopySumBound(init, bound);
      assert bound * |steps| == bound * |init| + bound;
    }
  }

  /**
   * The pass over a night: it raises exactly when some file raises; if it
   * does not, the manifest holds one line per file, in order, and a line
   * reports success exactly when its file is replicated.
   */
  lemma PassManifest(files: seq<LocalFile>, drobo: string, root: string, host: string, copy: bool)
    requires |drobo| > 0 && AllPlain(files, drobo, root)
    ensures var p := Pass(files, drobo, root, host, copy);
      && (p.raised <==> exists i :: 0 <= i < |files| && Raises(files[i], RemotePath(files[i].path, drobo, root), copy))
      && (!p.raised ==>
            && |p.lines| == |files|
            && forall i :: 0 <= i < |files| ==>
                 (IsSuccessLine(p.lines[i]) <==> Replicated(files[i], RemotePath(files[i].path, drobo, root), copy)))
  {
    var steps := Steps(files, drobo, root, host, copy);
    RunLines(steps);
    forall i | 0 <= i < |files|
      ensures steps[i].raised <==> Raises(files[i], RemotePath(files[i].path, drobo, root), copy)
      ensures !steps[i].raised ==>
        (IsSuccessLine(steps[i].line) <==> Replicated(files[i], RemotePath(files[i].path, drobo, root), copy))
    {
      StepOutcome(files[i], RemotePath(files[i].path, drobo, root), host, copy);
    }
  }

  /** Each file is copied at most once per pass; a night whose files all match is not copied at all. */
  lemma PassCopies(files: seq<LocalFile>, drobo: string, root: string, host: string, copy: bool)
    requires |drobo| > 0 && AllPlain(files, drobo, root)
    ensures CopyCount(Pass(files, drobo, root, host, copy).actions) <= |files|
    ensures (forall i :: 0 <= i < |files| ==> !NeedsCopy(files[i], RemotePath(files[i].path, drobo, root), copy))
      ==> CopyCount(Pass(files, drobo, root, host, copy).actions) == 0
  {
    var steps := Steps(files, drobo, root, host, copy);
    forall i | 0 <= i < |files|
      ensures CopyCount(steps[i].actions) == (if NeedsCopy(files[i], RemotePath(files[i].path, drobo, root), copy) then 1 else 0)
    {
      StepActions(files[i], RemotePath(files[i].path, drobo, root), host, copy);
    }
    RunCopies(steps);
    CopySumBound(steps, 1);
    if forall i :: 0 <= i < |files| ==> !NeedsCopy(files[i], RemotePath(files[i].path, drobo, root), copy) {
      CopySumBound(steps, 0);
    }
  }

  /**
   * `copy_file` first makes the grandparent and then the parent directory
   * of the remote file, before it copies.
   */
  lemma CopyMakesParents(file: string, remoteFile: string, dir: string, sub: string, name: string, host: string)
    requires dir != [] && dir[|dir| - 1] != '/' && sub != [] && '/' !in sub && '/' !in name
    requires remoteFile == dir + "/" + sub + "/" + name
    ensures CopyActions(file, remoteFile, host)[0] == Exec(MkdirCommand(dir))
    ensures CopyActions(file, remoteFile, host)[1] == Exec(MkdirCommand(dir + "/" + sub))
  {
    var parent := dir + "/" + sub;
    assert remoteFile == parent + "/" + name;
    assert parent[|parent| - 1] == sub[|sub| - 1];
    assert sub[|sub| - 1] in sub;
    SplitOfJoin(parent, name);
    assert SplitHead(remoteFile) == parent;
    SplitOfJoin(dir, sub);
    assert SplitHead(parent) == dir;
  }

  /** The reply `shasum` gives for a file it can read, "<hash><spaces><name>", answers that hash. */
  lemma ExistingFileAnswered(name: string, hash: string, sep: string)
    requires PlainName(name) && '\n' !in name && Esc !in name && (Contains(name, Token) || '$' !in name)
    requires hash != [] && NoSpace(hash) && Esc !in hash
    requires sep != [] && AllSpace(sep) && '\n' !in sep && Esc !in sep
    ensures Answer(name, Reply(Some([hash + sep + name + "\n"]), Some([]))) == Hash(hash)
  {
    var line := hash + sep + name;
    assert '\n' !in hash by {
      assert forall k :: 0 <= k < |hash| ==> hash[k] != '\n';
    }
    CleanLineOfPlain(line);
    assert CleanAll(Some([line + "\n"])) == [line];
    assert CleanAll(Some([])) == [];
    ShasumReplyRecognised(hash, sep, name);
  }

  /** The error `shasum` prints for a missing file answers `NotFound`. */
  lemma MissingFileAnswered(name: string)
    requires PlainName(name) && '\n' !in name && Esc !in name
    ensures Answer(name, Reply(Some([]), Some(["shasum: " + name + ": No such file or directory\n"]))) == NotFound
  {
    MissingFileLine(name);
    MissingFileMessage(name);
  }

  lemma MissingFileLine(name: string)
    requires '\n' !in name && Esc !in name
    ensures CleanAll(Some(["shasum: " + name + ": No such file or directory\n"]))
         == ["shasum: " + name + ": No such file or directory"]
  {
    var err := "shasum: " + name + ": No such file or directory";
    CleanLineOfPlain(err);
    assert "shasum: " + name + ": No such file or directory\n" == err + "\n";
  }

  lemma MissingFileMessage(name: string)
    ensures Contains("shasum: " + name + ": No such file or directory", "No such file or directory")
  {
    var msg := "No such file or directory";
    var err := "shasum: " + name + ": " + msg;
    assert "shasum: " + name + ": No such file or directory" == err;
    assert err[|err| - |msg|..] == msg;
    assert OccursAt(msg, err, |err| - |msg|);
    ContainsIff(err, msg);
  }


  /** With newline-free names and hashes, every line the pass writes is one text line. */
  lemma StepLineIsLine(f: LocalFile, remoteFile: string, host: string, copy: bool)
    requires PlainName(remoteFile)
    requires '\n' !in f.path && '\n' !in f.localHash && '\n' !in host && '\n' !in remoteFile
    ensures var st := FileStep(f, remoteFile, host, copy);
      !st.raised ==> IsLine(st.line)
  {
    var q := Answer(remoteFile, f.firstReply);
    if !q.IndexError? && q != Hash(f.localHash) && copy {
      var escaped := EscapeDollars(remoteFile);
      assert '\n' !in escaped;
      LinesAreLines(f.path, f.localHash, host, escaped, f.localHash);
    } else {
      LinesAreLines(f.path, f.localHash, host, remoteFile, f.localHash);
    }
  }

  lemma LinesAreLines(file: string, localHash: string, host: string, remoteFile: string, remoteHash: string)
    requires '\n' !in file && '\n' !in localHash && '\n' !in host && '\n' !in remoteFile && '\n' !in remoteHash
    ensures IsLine(SuccessLine(file, localHash, host, remoteFile, remoteHash))
    ensures IsLine(FailedLine(file, localHash))
  {
    LineOf("Success: " + file + "," + localHash + "," + host + ":" + remoteFile + "," + remoteHash);
    LineOf("Failed: " + file + "," + localHash + ",:,");
  }

  /** Files with newline-free paths on a newline-free root give a manifest of whole lines. */
  lemma PassLinesAreLines(files: seq<LocalFile>, drobo: string, root: string, host: string, copy: bool)
    requires |drobo| > 0 && AllPlain(files, drobo, root)
    requires '\n' !in root && '\n' !in host
    requires forall i :: 0 <= i < |files| ==> '\n' !in files[i].path && '\n' !in files[i].localHash
    ensures var p := Pass(files, drobo, root, host, copy);
      !p.raised ==> forall i :: 0 <= i < |p.lines| ==> IsLine(p.lines[i])
  {
    var steps := Steps(files, drobo, root, host, copy);
    RunLines(steps);
    forall i | 0 <= i < |files| ensures !steps[i].raised ==> IsLine(steps[i].line) {
      StepLineIsLine(files[i], RemotePath(files[i].path, drobo, root), host, copy);
    }
  }
}
