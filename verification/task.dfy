/** FileArtifactExtractionTask.run: check the evidence has a local path, run
    image_export.py, and turn every file it exported into an
    ExportedFileArtifact on the task result, closing the result exactly once
    on every path. */
module FileArtifactExtraction {
  import opened Text
  import opened ImageExportCommand

  /** An evidence item held by a task result. This model only creates
      ExportedFileArtifact items; anything the result already held is kept
      as it is. `config` is what add_evidence propagates onto the item. */
  datatype EvidenceItem =
    | ExportedFileArtifact(artifactName: string, sourcePath: string, config: EvidenceConfig)
    | OtherEvidence(name: string, config: EvidenceConfig)

  /** One step of `os.walk`: a directory and the files directly in it
      (the sub-directory names it also yields are not used by the task). */
  datatype WalkEntry = WalkEntry(dirpath: string, filenames: seq<string>)

  /** One file the walk reports, with the directory it was found in. */
  datatype FoundFile = FoundFile(dirpath: string, filename: string)

  /** A call the task made to its execute helper. */
  datatype Execution = Execution(cmd: seq<string>, logFiles: seq<string>)

  /** The task result: the log, the evidence produced so far, and the closing
      state. `closings` counts the calls to Close. */
  class TaskResult {
    var log: seq<string>
    var evidence: seq<EvidenceItem>
    var closed: bool
    var successful: bool
    var status: string
    ghost var closings: nat

    constructor ()
      ensures log == [] && evidence == [] && !closed && closings == 0
    {
      log, evidence := [], [];
      closed, successful, status := false, false, "";
      closings := 0;
    }

    /** result.log(message) */
    method Log(message: string)
      modifies this`log
      ensures log == old(log) + [message]
    {
      log := log + [message];
    }

    /** result.add_evidence(item, config): the item takes the given config. */
    method AddEvidence(item: EvidenceItem, config: EvidenceConfig)
      modifies this`evidence
      ensures evidence == old(evidence) + [item.(config := config)]
    {
      evidence := evidence + [item.(config := config)];
    }

    /** result.close(task, success, status) */
    method Close(success: bool, message: string)
      modifies this`closed, this`successful, this`status, this`closings
      ensures closed && successful == success && status == message
      ensures closings == old(closings) + 1
    {
      closed, successful, status := true, success, message;
      closings := closings + 1;
    }
  }

  /** The worker host, standing for what the task cannot see: the exit code
      image_export.py returns, the lines the runner writes to the result's
      log while running it, and the tree it leaves in the export directory.
      The ghost fields record what the task asked of it. */
  class Host {
    const exitCode: int
    const executeLog: seq<string>
    const exportTree: seq<WalkEntry>
    ghost var executions: seq<Execution>
    ghost var walks: seq<string>

    constructor (exitCode: int, executeLog: seq<string>, exportTree: seq<WalkEntry>)
      ensures this.exitCode == exitCode && this.executeLog == executeLog && this.exportTree == exportTree
      ensures executions == [] && walks == []
    {
      this.exitCode, this.executeLog, this.exportTree := exitCode, executeLog, exportTree;
      executions, walks := [], [];
    }

    /** self.execute(cmd, result, log_files=...): runs the command, logs to
        the result, returns the exit code. */
    method Execute(cmd: seq<string>, result: TaskResult, logFiles: seq<string>) returns (ret: int)
      modifies this`executions, result`log
      ensures ret == exitCode
      ensures executions == old(executions) + [Execution(cmd, logFiles)]
      ensures result.log == old(result.log) + executeLog
    {
      ret := exitCode;
      executions := executions + [Execution(cmd, logFiles)];
      result.log := result.log + executeLog;
    }

    /** os.walk(top) */
    method Walk(top: string) returns (entries: seq<WalkEntry>)
      modifies this`walks
      ensures entries == exportTree
      ensures walks == old(walks) + [top]
    {
      entries := exportTree;
      walks := walks + [top];
    }
  }

  // ---------------------------------------------------------------------
  // Messages

  const MissingPathLog: string := "Tried to run image_export without local_path"

  function MissingPathMessage(artifactName: string): string
  {
    "image_export.py failed for artifact " + artifactName + " - local_path not provided."
  }

  function RunningLog(cmd: seq<string>): string
  {
    "Running image_export as [" + JoinWithSpaces(cmd) + "]"
  }

  function ExecutionFailedMessage(artifactName: string): string
  {
    "image_export.py failed for artifact " + artifactName + "."
  }

  function AddingLog(filename: string): string
  {
    "Adding artifact " + filename
  }

  function ExtractedMessage(count: nat, artifactName: string): string
  {
    "Extracted " + Decimal(count) + " new " + artifactName + " artifacts"
  }

  /** Reads the count back out of a success message: the digits after
      "Extracted ". */
  function ReportedCount(message: string): nat
  {
    if |message| < 10 then 0 else DecimalValue(LeadingDigits(message[10..]))
  }

  /** The success message reports exactly the count it was given. */
  lemma ExtractedMessageReportsCount(count: nat, artifactName: string)
    ensures ReportedCount(ExtractedMessage(count, artifactName)) == count
  {
    var digits := Decimal(count);
    var rest := " new " + artifactName + " artifacts";
    assert ExtractedMessage(count, artifactName)[10..] == digits + rest;
    LeadingDigitsOfDigitsThenOther(digits, rest);
    DecimalRoundTrip(count);
  }

  /** Each of the three closing messages names the artifact filter. */
  lemma ClosingMessagesNameArtifact(count: nat, artifactName: string)
    ensures Contains(MissingPathMessage(artifactName), artifactName)
    ensures Contains(ExecutionFailedMessage(artifactName), artifactName)
    ensures Contains(ExtractedMessage(count, artifactName), artifactName)
  {
    var prefix := "image_export.py failed for artifact ";
    assert OccursAt(MissingPathMessage(artifactName), artifactName, |prefix|);
    assert OccursAt(ExecutionFailedMessage(artifactName), artifactName, |prefix|);
    var head := "Extracted " + Decimal(count) + " new ";
    assert OccursAt(ExtractedMessage(count, artifactName), artifactName, |head|);
  }

  // ---------------------------------------------------------------------
  // The output collector's specification

  /** The files of one directory, in the order the walk lists them. */
  function FilesIn(entry: WalkEntry): seq<FoundFile>
  {
    seq(|entry.filenames|, k requires 0 <= k < |entry.filenames| => FoundFile(entry.dirpath, entry.filenames[k]))
  }

  /** Every file of the walk, in walk order: the first directory's files,
      then those of the directories after it. */
  function WalkFiles(tree: seq<WalkEntry>): seq<FoundFile>
  {
    if tree == [] then [] else FilesIn(tree[0]) + WalkFiles(tree[1..])
  }

  /** The evidence item the task builds for one file. */
  function ArtifactFor(artifactName: string, file: FoundFile, config: EvidenceConfig, join: PathJoin): EvidenceItem
  {
    ExportedFileArtifact(artifactName, join(file.dirpath, file.filename), config)
  }

  /** The evidence the task adds for the given files, in order. */
  function Artifacts(artifactName: string, files: seq<FoundFile>, config: EvidenceConfig, join: PathJoin): seq<EvidenceItem>
  {
    if files == [] then []
    else Artifacts(artifactName, files[..|files| - 1], config, join) + [ArtifactFor(artifactName, files[|files| - 1], config, join)]
  }

  /** The log lines the task writes for the given files, in order. */
  function AddingLogs(files: seq<FoundFile>): seq<string>
  {
    if files == [] then [] else AddingLogs(files[..|files| - 1]) + [AddingLog(files[|files| - 1].filename)]
  }

  /** The number of files in the walk: the sum of the per-directory counts. */
  function FileCount(tree: seq<WalkEntry>): nat
  {
    if tree == [] then 0 else FileCount(tree[1..]) + |tree[0].filenames|
  }

  /** The file is listed in some directory of the walk. */
  predicate Listed(tree: seq<WalkEntry>, file: FoundFile)
  {
    exists i :: 0 <= i < |tree| && tree[i].dirpath == file.dirpath && file.filename in tree[i].filenames
  }

  // ---------------------------------------------------------------------
  // The collector

  /** The files of one directory of the walk: one log line and one
      artifact per file, in order (the inner loop of the collector). */
  method CollectDirectory(artifactName: string, config: EvidenceConfig, entry: WalkEntry, result: TaskResult, join: PathJoin)
    modifies result`log, result`evidence
    ensures result.evidence == old(result.evidence) + Artifacts(artifactName, FilesIn(entry), config, join)
    ensures result.log == old(result.log) + AddingLogs(FilesIn(entry))
  {
    ghost var files := FilesIn(entry);
    var j := 0;
    while j < |entry.filenames|
      invariant 0 <= j <= |entry.filenames|
      invariant result.evidence == old(result.evidence) + Artifacts(artifactName, files[..j], config, join)
      invariant result.log == old(result.log) + AddingLogs(files[..j])
    {
      var filename := entry.filenames[j];
      var artifact := ExportedFileArtifact(artifactName, join(entry.dirpath, filename), map[]);
      result.Log(AddingLog(filename));
      result.AddEvidence(artifact, config);
      assert files[..j + 1][..j] == files[..j];
      j := j + 1;
    }
    assert files[..j] == files;
  }

  /** The collector: for every directory of the walk, in walk order, every
      file in it becomes one log line and one artifact. */
  method CollectArtifacts(artifactName: string, config: EvidenceConfig, tree: seq<WalkEntry>, result: TaskResult, join: PathJoin)
    modifies result`log, result`evidence
    ensures result.evidence == old(result.evidence) + Artifacts(artifactName, WalkFiles(tree), config, join)
    ensures result.log == old(result.log) + AddingLogs(WalkFiles(tree))
  {
    ghost var done: seq<FoundFile> := [];
    var i := 0;
    assert tree[i..] == tree;
    while i < |tree|
      invariant 0 <= i <= |tree|
      invariant done + WalkFiles(tree[i..]) == WalkFiles(tree)
      invariant result.evidence == old(result.evidence) + Artifacts(artifactName, done, config, join)
      invariant result.log == old(result.log) + AddingLogs(done)
    {
      ghost var files := FilesIn(tree[i]);
      ghost var evidence0, log0 := result.evidence, result.log;
      CollectDirectory(artifactName, config, tree[i], result, join);
      WalkStep(tree, i, done);
      EvidenceStep(artifactName, config, join, done, files, old(result.evidence), evidence0, result.evidence);
      LogStep(done, files, old(result.log), log0, result.log);
      done := done + files;
      i := i + 1;
    }
    assert tree[i..] == [];
    assert done == WalkFiles(tree);
  }

  /** One more directory of the walk visited: the files visited so far grow
      by directory i's files. */
  lemma WalkStep(tree: seq<WalkEntry>, i: nat, done: seq<FoundFile>)
    requires i < |tree|
    requires done + WalkFiles(tree[i..]) == WalkFiles(tree)
    ensures done + FilesIn(tree[i]) + WalkFiles(tree[i + 1..]) == WalkFiles(tree)
  {
    WalkFilesFrom(tree, i);
    assert done + FilesIn(tree[i]) + WalkFiles(tree[i + 1..]) == done + (FilesIn(tree[i]) + WalkFiles(tree[i + 1..]));
  }

  /** Adding the artifacts of more files after those of the files so far
      gives the artifacts of all of them. */
  lemma EvidenceStep(artifactName: string, config: EvidenceConfig, join: PathJoin, done: seq<FoundFile>, files: seq<FoundFile>,
                     start: seq<EvidenceItem>, before: seq<EvidenceItem>, after: seq<EvidenceItem>)
    requires before == start + Artifacts(artifactName, done, config, join)
    requires after == before + Artifacts(artifactName, files, config, join)
    ensures after == start + Artifacts(artifactName, done + files, config, join)
  {
    ArtifactsAppend(artifactName, done, files, config, join);
  }

  /** Adding the log lines of more files after those of the files so far
      gives the log lines of all of them. */
  lemma LogStep(done: seq<FoundFile>, files: seq<FoundFile>, start: seq<string>, before: seq<string>, after: seq<string>)
    requires before == start + AddingLogs(done)
    requires after == before + AddingLogs(files)
    ensures after == start + AddingLogs(done + files)
  {
    AddingLogsAppend(done, files);
  }

  /** The walk from directory i on: directory i's files, then the rest. */
  lemma WalkFilesFrom(tree: seq<WalkEntry>, i: nat)
    requires i < |tree|
    ensures WalkFiles(tree[i..]) == FilesIn(tree[i]) + WalkFiles(tree[i + 1..])
  {
    assert tree[i..][1..] == tree[i + 1..];
  }

  lemma {:induction false} ArtifactsAppend(artifactName: string, a: seq<FoundFile>, b: seq<FoundFile>, config: EvidenceConfig, join: PathJoin)
    ensures Artifacts(artifactName, a + b, config, join)
      == Artifacts(artifactName, a, config, join) + Artifacts(artifactName, b, config, join)
    decreases |b|
  {
    if b == [] {
      assert a + b == a;
    } else {
      assert (a + b)[..|a + b| - 1] == a + b[..|b| - 1];
      ArtifactsAppend(artifactName, a, b[..|b| - 1], config, join);
    }
  }

  lemma {:induction false} AddingLogsAppend(a: seq<FoundFile>, b: seq<FoundFile>)
    ensures AddingLogs(a + b) == AddingLogs(a) + AddingLogs(b)
    decreases |b|
  {
    if b == [] {
      assert a + b == a;
    } else {
      assert (a + b)[..|a + b| - 1] == a + b[..|b| - 1];
      AddingLogsAppend(a, b[..|b| - 1]);
    }
  }

  // ---------------------------------------------------------------------
  // Properties of the collector

  /** The walk yields as many files as its directories list. */
  lemma {:induction false} WalkFilesCount(tree: seq<WalkEntry>)
    ensures |WalkFiles(tree)| == FileCount(tree)
    decreases |tree|
  {
    if tree != [] {
      WalkFilesCount(tree[1..]);
    }
  }

  /** A file is reported by the walk exactly when some directory lists it. */
  lemma {:induction false} WalkFilesListed(tree: seq<WalkEntry>, file: FoundFile)
    ensures file in WalkFiles(tree) <==> Listed(tree, file)
    decreases |tree|
  {
    if tree != [] {
      var first, rest := tree[0], tree[1..];
      WalkFilesListed(rest, file);
      if file in FilesIn(first) {
        var k :| 0 <= k < |FilesIn(first)| && FilesIn(first)[k] == file;
        assert first.filenames[k] == file.filename;
      }
      if file.dirpath == first.dirpath && file.filename in first.filenames {
        var k :| 0 <= k < |first.filenames| && first.filenames[k] == file.filename;
        assert FilesIn(first)[k] == file;
      }
      if Listed(tree, file) {
        var i :| 0 <= i < |tree| && tree[i].dirpath == file.dirpath && file.filename in tree[i].filenames;
        if i > 0 {
          assert rest[i - 1] == tree[i];
        }
      }
      if Listed(rest, file) {
        var i :| 0 <= i < |rest| && rest[i].dirpath == file.dirpath && file.filename in rest[i].filenames;
        assert tree[i + 1] == rest[i];
      }
    }
  }

  /** One artifact per file, the k-th for the k-th file. */
  lemma {:induction false} ArtifactsLayout(artifactName: string, files: seq<FoundFile>, config: EvidenceConfig, join: PathJoin)
    ensures |Artifacts(artifactName, files, config, join)| == |files|
    ensures forall k :: 0 <= k < |files| ==>
      Artifacts(artifactName, files, config, join)[k]
        == ExportedFileArtifact(artifactName, join(files[k].dirpath, files[k].filename), config)
    decreases |files|
  {
    if files != [] {
      var init := files[..|files| - 1];
      ArtifactsLayout(artifactName, init, config, join);
      forall k | 0 <= k < |init|
        ensures Artifacts(artifactName, files, config, join)[k]
          == ExportedFileArtifact(artifactName, join(files[k].dirpath, files[k].filename), config)
      {
        assert files[k] == init[k];
      }
    }
  }

  /** One log line per file, the k-th naming the k-th file. */
  lemma {:induction false} AddingLogsLayout(files: seq<FoundFile>)
    ensures |AddingLogs(files)| == |files|
    ensures forall k :: 0 <= k < |files| ==> AddingLogs(files)[k] == AddingLog(files[k].filename)
    decreases |files|
  {
    if files != [] {
      var init := files[..|files| - 1];
      AddingLogsLayout(init);
      forall k | 0 <= k < |init|
        ensures AddingLogs(files)[k] == AddingLog(files[k].filename)
      {
        assert files[k] == init[k];
      }
    }
  }

  /** An artifact is collected exactly when the walk lists its file. */
  lemma CollectedIffListed(artifactName: string, tree: seq<WalkEntry>, config: EvidenceConfig, join: PathJoin, item: EvidenceItem)
    ensures item in Artifacts(artifactName, WalkFiles(tree), config, join)
      <==> exists file :: Listed(tree, file) && item == ArtifactFor(artifactName, file, config, join)
  {
    var files := WalkFiles(tree);
    var items := Artifacts(artifactName, files, config, join);
    ArtifactsLayout(artifactName, files, config, join);
    if item in items {
      var k :| 0 <= k < |items| && items[k] == item;
      WalkFilesListed(tree, files[k]);
    }
    if exists file :: Listed(tree, file) && item == ArtifactFor(artifactName, file, config, join) {
      var file :| Listed(tree, file) && item == ArtifactFor(artifactName, file, config, join);
      WalkFilesListed(tree, file);
      var k :| 0 <= k < |files| && files[k] == file;
      assert items[k] == item;
    }
  }

  /** Collecting from two walks of the same directory contents, whatever
      order they visit directories and files in, yields the same artifacts. */
  lemma CollectionIgnoresWalkOrder(artifactName: string, tree1: seq<WalkEntry>, tree2: seq<WalkEntry>,
                                   config: EvidenceConfig, join: PathJoin)
    requires forall file :: Listed(tree1, file) <==> Listed(tree2, file)
    ensures forall item :: item in Artifacts(artifactName, WalkFiles(tree1), config, join)
                       <==> item in Artifacts(artifactName, WalkFiles(tree2), config, join)
  {
    forall item
      ensures item in Artifacts(artifactName, WalkFiles(tree1), config, join)
          <==> item in Artifacts(artifactName, WalkFiles(tree2), config, join)
    {
      CollectedIffListed(artifactName, tree1, config, join, item);
      CollectedIffListed(artifactName, tree2, config, join, item);
    }
  }

  /** After a successful collection the message reports the size of the
      whole evidence list: what the result held before plus one per file
      of the walk. */
  lemma SuccessReportsEvidenceCount(artifactName: string, before: seq<EvidenceItem>, tree: seq<WalkEntry>,
                                    config: EvidenceConfig, join: PathJoin)
    ensures var after := before + Artifacts(artifactName, WalkFiles(tree), config, join);
      |after| == |before| + FileCount(tree) &&
      ReportedCount(ExtractedMessage(|after|, artifactName)) == |before| + FileCount(tree)
  {
    ArtifactsLayout(artifactName, WalkFiles(tree), config, join);
    WalkFilesCount(tree);
    ExtractedMessageReportsCount(|before| + FileCount(tree), artifactName);
  }

  /** The example of a tool run that exported `a.txt` into the export
      directory and `b.txt` into its sub-directory `sub`: two artifacts, in
      walk order, and a fresh result reports 2. */
  lemma TwoFileExample(artifactName: string, root: string, sub: string, config: EvidenceConfig, join: PathJoin)
    ensures var tree := [WalkEntry(root, ["a.txt"]), WalkEntry(sub, ["b.txt"])];
      var items := Artifacts(artifactName, WalkFiles(tree), config, join);
      && items == [ExportedFileArtifact(artifactName, join(root, "a.txt"), config),
                   ExportedFileArtifact(artifactName, join(sub, "b.txt"), config)]
      && ReportedCount(ExtractedMessage(|items|, artifactName)) == 2
  {
    var tree := [WalkEntry(root, ["a.txt"]), WalkEntry(sub, ["b.txt"])];
    assert tree[1..] == [WalkEntry(sub, ["b.txt"])] && tree[1..][1..] == [];
    var files := [FoundFile(root, "a.txt"), FoundFile(sub, "b.txt")];
    assert WalkFiles(tree[1..]) == [FoundFile(sub, "b.txt")];
    assert WalkFiles(tree) == files;
    ArtifactsLayout(artifactName, files, config, join);
    ExtractedMessageReportsCount(2, artifactName);
  }

  /** An empty export directory is a success with nothing added and a
      reported count of 0 for a fresh result. */
  lemma EmptyExportExample(artifactName: string, root: string, config: EvidenceConfig, join: PathJoin)
    ensures Artifacts(artifactName, WalkFiles([WalkEntry(root, [])]), config, join) == []
    ensures ReportedCount(ExtractedMessage(0, artifactName)) == 0
  {
    var tree := [WalkEntry(root, [])];
    assert tree[1..] == [];
    assert WalkFiles(tree) == [];
    ExtractedMessageReportsCount(0, artifactName);
  }

  // ---------------------------------------------------------------------
  // The task

  /** FileArtifactExtractionTask.run(evidence, result). `config` is the
      loaded configuration, `host` the process runner and file system, `join`
      stands for os.path.join. */
  method Run(task: Task, config: Config, evidence: SourceEvidence, result: TaskResult, host: Host, join: PathJoin)
    modifies result, host
    // every path closes the result exactly once
    ensures result.closed && result.closings == old(result.closings) + 1
    // missing local path: one log line, a failure naming the artifact, nothing run or read
    ensures evidence.localPath == [] ==>
      && result.log == old(result.log) + [MissingPathLog]
      && !result.successful && result.status == MissingPathMessage(task.artifactName)
      && result.evidence == old(result.evidence)
      && host.executions == old(host.executions) && host.walks == old(host.walks)
    // otherwise the full command is logged and executed exactly once, with the log file registered
    ensures evidence.localPath != [] ==>
      host.executions == old(host.executions)
        + [Execution(Command(config, task, evidence, join), [LogFile(task, join)])]
    // non-zero exit: the runner's log lines follow the command line, then a failure
    // naming the artifact; nothing collected, nothing read
    ensures evidence.localPath != [] && host.exitCode != 0 ==>
      && result.log == old(result.log) + [RunningLog(Command(config, task, evidence, join))] + host.executeLog
      && !result.successful && result.status == ExecutionFailedMessage(task.artifactName)
      && result.evidence == old(result.evidence)
      && host.walks == old(host.walks)
    // zero exit: after the runner's log lines, the export directory is walked once, one
    // artifact and one log line per file in walk order, then success with the final evidence count
    ensures evidence.localPath != [] && host.exitCode == 0 ==>
      && host.walks == old(host.walks) + [ExportDirectory(task, join)]
      && result.evidence == old(result.evidence)
        + Artifacts(task.artifactName, WalkFiles(host.exportTree), evidence.config, join)
      && result.log == old(result.log) + [RunningLog(Command(config, task, evidence, join))]
        + host.executeLog + AddingLogs(WalkFiles(host.exportTree))
      && result.successful && result.status == ExtractedMessage(|result.evidence|, task.artifactName)
  {
    var exportDirectory := ExportDirectory(task, join);
    var imageExportLog := LogFile(task, join);
    var cmd := BuildCommand(config, task, evidence, join);

    if evidence.localPath == [] {
      result.Log(MissingPathLog);
      result.Close(false, MissingPathMessage(task.artifactName));
      return;
    }

    result.Log(RunningLog(cmd));

    var ret := host.Execute(cmd, result, [imageExportLog]);
    if ret != 0 {
      result.Close(false, ExecutionFailedMessage(task.artifactName));
      return;
    }

    var tree := host.Walk(exportDirectory);
    CollectArtifacts(task.artifactName, evidence.config, tree, result, join);
    result.Close(true, ExtractedMessage(|result.evidence|, task.artifactName));
  }
}
