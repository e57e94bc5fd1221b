/** The argument vector that FileArtifactExtractionTask.run hands to
    image_export.py: a fixed base of thirteen elements, an optional `sudo`
    in front, an optional `-d`, one `--credential type:data` pair per
    credential of the evidence, and the evidence's local path last. */
module ImageExportCommand {
  import opened Text

  /** The two configuration flags the command depends on
      (`config.DOCKER_ENABLED`, `config.DEBUG_TASKS`). */
  datatype Config = Config(dockerEnabled: bool, debugTasks: bool)

  /** The task fields run() reads: its artifact filter name, its output
      directory and id, and whether its task config sets `debug_tasks`. */
  datatype Task = Task(artifactName: string, outputDir: string, id: string, taskDebug: bool)

  /** One (credential_type, credential_data) pair of the evidence. */
  datatype Credential = Credential(kind: string, data: string)

  /** Evidence attributes the task reads: `local_path` ("" also stands for
      None, which Python treats the same way in `not local_path`),
      `credentials` in order, and the opaque `config` passed on to the
      evidence the task produces. */
  type EvidenceConfig = map<string, string>
  datatype SourceEvidence = SourceEvidence(localPath: string, credentials: seq<Credential>, config: EvidenceConfig)

  /** `os.path.join`, kept abstract. */
  type PathJoin = (string, string) -> string

  function ExportDirectory(task: Task, join: PathJoin): string
  {
    join(task.outputDir, "export")
  }

  function LogFile(task: Task, join: PathJoin): string
  {
    join(task.outputDir, task.id + ".log")
  }

  /** The thirteen elements every command holds. */
  function BaseArgs(logFile: string, exportDir: string, artifactName: string): (base: seq<string>)
  {
    ["image_export.py", "--no-hashes", "--logfile", logFile, "-w", exportDir,
     "--partitions", "all", "--volumes", "all", "--unattended",
     "--artifact_filters", artifactName]
  }

  /** The `type:data` argument for one credential. */
  function CredentialArg(c: Credential): (arg: string)
    ensures ':' in arg
  {
    c.kind + ":" + c.data
  }

  /** `--credential type:data` for every credential, in order. */
  function CredentialArgs(creds: seq<Credential>): (args: seq<string>)
  {
    if creds == [] then []
    else CredentialArgs(creds[..|creds| - 1]) + ["--credential", CredentialArg(creds[|creds| - 1])]
  }

  predicate DebugRequested(config: Config, task: Task)
  {
    config.debugTasks || task.taskDebug
  }

  /** Everything before the credentials: optional `sudo`, the base, optional `-d`. */
  function Head(config: Config, task: Task, join: PathJoin): seq<string>
  {
    (if config.dockerEnabled then [] else ["sudo"])
    + BaseArgs(LogFile(task, join), ExportDirectory(task, join), task.artifactName)
    + (if DebugRequested(config, task) then ["-d"] else [])
  }

  /** The command as a whole: the specification that BuildCommand meets. */
  function Command(config: Config, task: Task, evidence: SourceEvidence, join: PathJoin): seq<string>
  {
    Head(config, task, join) + CredentialArgs(evidence.credentials) + [evidence.localPath]
  }

  /** Builds the command step by step, as run() does: the base list, `sudo`
      inserted at the front, `-d` appended, the credentials extended one pair
      at a time, the local path appended. */
  method BuildCommand(config: Config, task: Task, evidence: SourceEvidence, join: PathJoin)
    returns (cmd: seq<string>)
    ensures cmd == Command(config, task, evidence, join)
  {
    cmd := BaseArgs(LogFile(task, join), ExportDirectory(task, join), task.artifactName);
    if !config.dockerEnabled {
      cmd := ["sudo"] + cmd;
    }
    if DebugRequested(config, task) {
      cmd := cmd + ["-d"];
    }
    assert cmd == Head(config, task, join);
    cmd := ExtendCredentials(cmd, evidence.credentials);
    cmd := cmd + [evidence.localPath];
  }

  /** The credential loop: one `extend(['--credential', 'type:data'])` per
      credential, in order. */
  method ExtendCredentials(start: seq<string>, creds: seq<Credential>) returns (cmd: seq<string>)
    ensures cmd == start + CredentialArgs(creds)
  {
    cmd := start;
    var i := 0;
    while i < |creds|
      invariant 0 <= i <= |creds|
      invariant cmd == start + CredentialArgs(creds[..i])
    {
      CredentialArgsStep(creds, i);
      cmd := cmd + ["--credential", CredentialArg(creds[i])];
      i := i + 1;
    }
    assert creds[..i] == creds;
  }

  /** One more credential adds its flag and its `type:data` string at the end. */
  lemma CredentialArgsStep(creds: seq<Credential>, i: nat)
    requires i < |creds|
    ensures CredentialArgs(creds[..i + 1]) == CredentialArgs(creds[..i]) + ["--credential", CredentialArg(creds[i])]
  {
    assert creds[..i + 1][..i] == creds[..i];
  }

  // ---------------------------------------------------------------------
  // Properties of the command

  lemma {:induction false} CredentialArgsLayout(creds: seq<Credential>)
    ensures |CredentialArgs(creds)| == 2 * |creds|
    ensures forall k :: 0 <= k < |creds| ==>
      CredentialArgs(creds)[2 * k] == "--credential" &&
      CredentialArgs(creds)[2 * k + 1] == CredentialArg(creds[k])
    decreases |creds|
  {
    if creds != [] {
      var init := creds[..|creds| - 1];
      CredentialArgsLayout(init);
      forall k | 0 <= k < |creds|
        ensures CredentialArgs(creds)[2 * k] == "--credential"
        ensures CredentialArgs(creds)[2 * k + 1] == CredentialArg(creds[k])
      {
        if k < |init| {
          assert creds[k] == init[k];
        }
      }
    }
  }

  /** Every element of the credential arguments is either the flag itself or
      a `type:data` string, so none of them equals a string with no colon. */
  lemma {:induction false} CredentialArgsOccurrences(creds: seq<Credential>, x: string)
    requires ':' !in x
    ensures Occurrences(CredentialArgs(creds), x) == if x == "--credential" then |creds| else 0
    decreases |creds|
  {
    if creds != [] {
      var init := creds[..|creds| - 1];
      var pair := ["--credential", CredentialArg(creds[|creds| - 1])];
      CredentialArgsOccurrences(init, x);
      OccurrencesAppend(CredentialArgs(init), pair, x);
      assert pair[..1] == ["--credential"] && pair[..1][..0] == [];
      assert ':' in pair[1] && pair[1] != x;
      assert Occurrences(pair[..1], x) == if x == "--credential" then 1 else 0;
    }
  }

  /** 1 when `sudo` leads the command, 0 otherwise. */
  function SudoCount(config: Config): nat
  {
    if config.dockerEnabled then 0 else 1
  }

  /** 1 when `-d` is in the command, 0 otherwise. */
  function DebugCount(config: Config, task: Task): nat
  {
    if DebugRequested(config, task) then 1 else 0
  }

  /** What the head holds, element by element. */
  lemma HeadLayout(config: Config, task: Task, join: PathJoin)
    ensures |Head(config, task, join)| == SudoCount(config) + 13 + DebugCount(config, task)
    ensures !config.dockerEnabled ==> Head(config, task, join)[0] == "sudo"
    ensures Head(config, task, join)[SudoCount(config)..SudoCount(config) + 13]
      == BaseArgs(LogFile(task, join), ExportDirectory(task, join), task.artifactName)
    ensures DebugRequested(config, task) ==> Head(config, task, join)[SudoCount(config) + 13] == "-d"
  {
  }

  /** The three parts of any list built as head, middle, last element. */
  lemma ThreeParts<T>(head: seq<T>, middle: seq<T>, last: T)
    ensures |head + middle + [last]| == |head| + |middle| + 1
    ensures (head + middle + [last])[..|head|] == head
    ensures forall k :: 0 <= k < |middle| ==> (head + middle + [last])[|head| + k] == middle[k]
    ensures (head + middle + [last])[|head| + |middle|] == last
  {
    assert (head + middle + [last])[..|head|] == head;
  }

  /** The command's length: [sudo] + 13 + [debug] + 2N + 1. */
  lemma CommandLength(config: Config, task: Task, evidence: SourceEvidence, join: PathJoin)
    ensures |Command(config, task, evidence, join)|
      == SudoCount(config) + 13 + DebugCount(config, task) + 2 * |evidence.credentials| + 1
  {
    HeadLayout(config, task, join);
    CredentialArgsLayout(evidence.credentials);
    ThreeParts(Head(config, task, join), CredentialArgs(evidence.credentials), evidence.localPath);
  }

  /** The command starts with its head: `sudo` or nothing, the base with the
      artifact name right after `--artifact_filters`, then `-d` if requested. */
  lemma CommandHead(config: Config, task: Task, evidence: SourceEvidence, join: PathJoin)
    ensures |Command(config, task, evidence, join)| >= SudoCount(config) + 13 + DebugCount(config, task)
    ensures !config.dockerEnabled ==> Command(config, task, evidence, join)[0] == "sudo"
    ensures Command(config, task, evidence, join)[SudoCount(config)..SudoCount(config) + 13]
      == BaseArgs(LogFile(task, join), ExportDirectory(task, join), task.artifactName)
    ensures Command(config, task, evidence, join)[SudoCount(config) + 11] == "--artifact_filters"
    ensures Command(config, task, evidence, join)[SudoCount(config) + 12] == task.artifactName
    ensures DebugRequested(config, task) ==> Command(config, task, evidence, join)[SudoCount(config) + 13] == "-d"
  {
    var head := Head(config, task, join);
    var cmd := Command(config, task, evidence, join);
    var o := SudoCount(config);
    HeadLayout(config, task, join);
    ThreeParts(head, CredentialArgs(evidence.credentials), evidence.localPath);
    assert cmd[o..o + 13] == head[o..o + 13];
    var base := BaseArgs(LogFile(task, join), ExportDirectory(task, join), task.artifactName);
    assert cmd[o + 11] == base[11];
    assert cmd[o + 12] == base[12];
  }

  /** After the head come one `--credential` flag and one `type:data` string
      per credential, in input order. */
  lemma CommandCredentials(config: Config, task: Task, evidence: SourceEvidence, join: PathJoin)
    ensures |Command(config, task, evidence, join)|
      > SudoCount(config) + 13 + DebugCount(config, task) + 2 * |evidence.credentials|
    ensures forall k :: 0 <= k < |evidence.credentials| ==>
      Command(config, task, evidence, join)[SudoCount(config) + 13 + DebugCount(config, task) + 2 * k] == "--credential" &&
      Command(config, task, evidence, join)[SudoCount(config) + 13 + DebugCount(config, task) + 2 * k + 1]
        == CredentialArg(evidence.credentials[k])
  {
    var head := Head(config, task, join);
    var creds := CredentialArgs(evidence.credentials);
    var cmd := Command(config, task, evidence, join);
    HeadLayout(config, task, join);
    CredentialArgsLayout(evidence.credentials);
    ThreeParts(head, creds, evidence.localPath);
    forall k | 0 <= k < |evidence.credentials|
      ensures cmd[|head| + 2 * k] == "--credential"
      ensures cmd[|head| + 2 * k + 1] == CredentialArg(evidence.credentials[k])
    {
      assert cmd[|head| + 2 * k] == creds[2 * k];
      assert cmd[|head| + 2 * k + 1] == creds[2 * k + 1];
    }
  }

  /** The local path is the last element. */
  lemma CommandLast(config: Config, task: Task, evidence: SourceEvidence, join: PathJoin)
    ensures |Command(config, task, evidence, join)| > 0
    ensures Command(config, task, evidence, join)[|Command(config, task, evidence, join)| - 1] == evidence.localPath
  {
    ThreeParts(Head(config, task, join), CredentialArgs(evidence.credentials), evidence.localPath);
  }

  /** Where every element of the command sits: `sudo` or nothing, then the
      base with the artifact name right after `--artifact_filters`, then `-d`
      if requested, then one flag and one `type:data` string per credential,
      in input order, then the local path. */
  lemma CommandLayout(config: Config, task: Task, evidence: SourceEvidence, join: PathJoin)
    ensures |Command(config, task, evidence, join)|
      == SudoCount(config) + 13 + DebugCount(config, task) + 2 * |evidence.credentials| + 1
    ensures !config.dockerEnabled ==> Command(config, task, evidence, join)[0] == "sudo"
    ensures Command(config, task, evidence, join)[SudoCount(config)..SudoCount(config) + 13]
      == BaseArgs(LogFile(task, join), ExportDirectory(task, join), task.artifactName)
    ensures Command(config, task, evidence, join)[SudoCount(config) + 11] == "--artifact_filters"
    ensures Command(config, task, evidence, join)[SudoCount(config) + 12] == task.artifactName
    ensures DebugRequested(config, task) ==> Command(config, task, evidence, join)[SudoCount(config) + 13] == "-d"
    ensures forall k :: 0 <= k < |evidence.credentials| ==>
      Command(config, task, evidence, join)[SudoCount(config) + 13 + DebugCount(config, task) + 2 * k] == "--credential" &&
      Command(config, task, evidence, join)[SudoCount(config) + 13 + DebugCount(config, task) + 2 * k + 1]
        == CredentialArg(evidence.credentials[k])
    ensures Command(config, task, evidence, join)[|Command(config, task, evidence, join)| - 1] == evidence.localPath
  {
    CommandLength(config, task, evidence, join);
    CommandHead(config, task, evidence, join);
    CommandCredentials(config, task, evidence, join);
    CommandLast(config, task, evidence, join);
  }

  /** With Docker enabled, debug off and no credentials the command is the
      base list followed by the local path. */
  lemma PlainCommand(config: Config, task: Task, evidence: SourceEvidence, join: PathJoin)
    requires config.dockerEnabled && !DebugRequested(config, task) && evidence.credentials == []
    ensures Command(config, task, evidence, join)
      == BaseArgs(LogFile(task, join), ExportDirectory(task, join), task.artifactName) + [evidence.localPath]
  {
  }

  /** `sudo` leads the command exactly when Docker is disabled, and it is the
      only difference between the two commands. */
  lemma SudoIffDockerDisabled(config: Config, task: Task, evidence: SourceEvidence, join: PathJoin)
    ensures Command(config, task, evidence, join)[0] == "sudo" <==> !config.dockerEnabled
    ensures !config.dockerEnabled ==>
      Command(config, task, evidence, join) == ["sudo"] + Command(config.(dockerEnabled := true), task, evidence, join)
  {
  }

  /** The occurrences of a string in the command that the command builder
      itself put there, beside those that come from the four caller-given
      strings (log file, export directory, artifact name, local path). */
  function CallerStrings(task: Task, evidence: SourceEvidence, join: PathJoin): seq<string>
  {
    [LogFile(task, join), ExportDirectory(task, join), task.artifactName, evidence.localPath]
  }

  /** `-d` is added exactly once when debug is requested and never otherwise
      (any other `-d` would be one of the caller-given strings). */
  lemma DebugFlagCount(config: Config, task: Task, evidence: SourceEvidence, join: PathJoin)
    ensures Occurrences(Command(config, task, evidence, join), "-d")
      == DebugCount(config, task) + Occurrences(CallerStrings(task, evidence, join), "-d")
  {
    CountInCommand(config, task, evidence, join, "-d");
  }

  /** For N credentials the builder adds exactly N `--credential` flags. */
  lemma CredentialFlagCount(config: Config, task: Task, evidence: SourceEvidence, join: PathJoin)
    ensures Occurrences(Command(config, task, evidence, join), "--credential")
      == |evidence.credentials| + Occurrences(CallerStrings(task, evidence, join), "--credential")
  {
    CountInCommand(config, task, evidence, join, "--credential");
  }

  /** None of the ten fixed strings of the base is `-d` or `--credential`. */
  lemma BaseArgsOccurrences(logFile: string, exportDir: string, artifactName: string, x: string)
    requires x == "-d" || x == "--credential"
    ensures Occurrences(BaseArgs(logFile, exportDir, artifactName), x)
      == Occurrences([logFile, exportDir, artifactName], x)
  {
    var before: seq<string> := ["image_export.py", "--no-hashes", "--logfile"];
    var between: seq<string> := ["-w"];
    var after: seq<string> := ["--partitions", "all", "--volumes", "all", "--unattended", "--artifact_filters"];
    assert BaseArgs(logFile, exportDir, artifactName)
      == before + [logFile] + between + [exportDir] + after + [artifactName];
    OccurrencesAbsent(before, x);
    OccurrencesAbsent(between, x);
    OccurrencesAbsent(after, x);
    OccurrencesAppend(before + [logFile] + between + [exportDir] + after, [artifactName], x);
    OccurrencesAppend(before + [logFile] + between + [exportDir], after, x);
    OccurrencesAppend(before + [logFile] + between, [exportDir], x);
    OccurrencesAppend(before + [logFile], between, x);
    OccurrencesAppend(before, [logFile], x);
    assert [logFile, exportDir, artifactName] == [logFile] + [exportDir] + [artifactName];
    OccurrencesAppend([logFile] + [exportDir], [artifactName], x);
    OccurrencesAppend([logFile], [exportDir], x);
  }

  lemma CountInCommand(config: Config, task: Task, evidence: SourceEvidence, join: PathJoin, x: string)
    requires x == "-d" || x == "--credential"
    ensures Occurrences(Command(config, task, evidence, join), x)
      == (if x == "-d" then DebugCount(config, task) else 0)
       + (if x == "--credential" then |evidence.credentials| else 0)
       + Occurrences(CallerStrings(task, evidence, join), x)
  {
    var logFile, exportDir := LogFile(task, join), ExportDirectory(task, join);
    var name, path := task.artifactName, evidence.localPath;
    var sudo: seq<string> := if config.dockerEnabled then [] else ["sudo"];
    var base := BaseArgs(logFile, exportDir, name);
    var dbg: seq<string> := if DebugRequested(config, task) then ["-d"] else [];
    var creds := CredentialArgs(evidence.credentials);
    assert Command(config, task, evidence, join) == sudo + base + dbg + creds + [path];
    OccurrencesOfFive(sudo, base, dbg, creds, [path], x);
    if sudo != [] {
      OccurrencesSingleton("sudo", x);
    }
    if dbg != [] {
      OccurrencesSingleton("-d", x);
    }
    BaseArgsOccurrences(logFile, exportDir, name, x);
    CredentialArgsOccurrences(evidence.credentials, x);
    OccurrencesAppend([logFile, exportDir, name], [path], x);
    assert [logFile, exportDir, name] + [path] == CallerStrings(task, evidence, join);
  }

  lemma OccurrencesOfFive(a: seq<string>, b: seq<string>, c: seq<string>, d: seq<string>, e: seq<string>, x: string)
    ensures Occurrences(a + b + c + d + e, x)
      == Occurrences(a, x) + Occurrences(b, x) + Occurrences(c, x) + Occurrences(d, x) + Occurrences(e, x)
  {
    OccurrencesAppend(a, b, x);
    OccurrencesAppend(a + b, c, x);
    OccurrencesAppend(a + b + c, d, x);
    OccurrencesAppend(a + b + c + d, e, x);
  }

  lemma {:induction false} OccurrencesAbsent(s: seq<string>, x: string)
    requires x !in s
    ensures Occurrences(s, x) == 0
    decreases |s|
  {
    if s != [] {
      assert x !in s[..|s| - 1];
      OccurrencesAbsent(s[..|s| - 1], x);
    }
  }

  lemma OccurrencesSingleton(y: string, x: string)
    ensures Occurrences([y], x) == if y == x then 1 else 0
  {
    assert [y][..0] == [];
  }
}
