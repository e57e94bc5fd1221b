# File artifact extraction task (Turbinia) in Dafny

This project models `FileArtifactExtractionTask.run` from Turbinia's
`turbinia/workers/artifact.py`. The task is one unit of work in a
forensic-evidence pipeline. It builds a command line for Plaso's
`image_export.py` and refuses to run it when the evidence has no local path.
Otherwise it runs the command. On exit code 0 it walks the export directory
and adds one `ExportedFileArtifact` to the task result for each file it finds.
The task result is closed exactly once on each of the three paths.

The project has three modules:

- `ImageExportCommand` (`command.dfy`) holds the argument vector.
  `BuildCommand` builds it step by step, as the source does. The base list
  comes first. `sudo` is inserted at the front when Docker is disabled. `-d`
  is appended when debugging is requested. One `--credential type:data` pair
  follows for each credential. The local path comes last. `BuildCommand` is
  proved equal to the declarative `Command`. The lemmas about `Command` give
  the position of every element, the length, when `sudo` leads, and exact
  counts of `-d` and `--credential`.
- `FileArtifactExtraction` (`task.dfy`) holds the task itself.
  - `TaskResult` is a class holding the `log`, `evidence`, `closed`,
    `successful` and `status` fields. A ghost counter records how many times
    `close` was called.
  - `Host` stands for what the task cannot see. It holds the exit code that
    `image_export.py` returns, the lines the runner appends to the result's
    log, and the tree that `os.walk` yields. Ghost fields record each call
    to `execute` and each walk.
  - `Run` is the task. Its contract covers each path of the decision tree.
    Lemmas about the collector's specification (`WalkFiles`, `Artifacts`,
    `AddingLogs`) give counts, walk order, membership, independence from
    traversal order, and the count that the success message reports.
- `Text` (`text.dfy`) holds string helpers: occurrence counts, `' '.join`,
  and decimal rendering of `{0:d}` with its inverse.

`os.path.join` is a function-typed parameter (`PathJoin`). Nothing is assumed
about it. The log-file and export-directory paths are
`join(output_dir, id + ".log")` and `join(output_dir, "export")`.

The success message says `new` artifacts, but the number in it is
`len(result.evidence)`, which also counts evidence the result already held. The model follows the code:
`SuccessReportsEvidenceCount` states the reported number as the old length
plus the number of files walked.

## Model

| member | source | states |
|---|---|---|
| `ImageExportCommand.BuildCommand` | turbinia/workers/artifact.py:52-79 | The list built in place (base, `insert(0, 'sudo')`, `append('-d')`, one `extend` per credential, `append(local_path)`) equals the specification `Command` for every input |
| `ImageExportCommand.ExtendCredentials` | turbinia/workers/artifact.py:74-76 | The credential loop, run in place on the list built so far, leaves that list followed by `--credential type:data` for every credential, in order |
| `ImageExportCommand.CredentialArgsStep` | turbinia/workers/artifact.py:75-76 | One more credential adds `--credential` and its `type:data` string at the end of the credential arguments |
| `ImageExportCommand.CredentialArgsLayout` | turbinia/workers/artifact.py:74-76 | The credential arguments have length 2N; element 2k is `--credential` and element 2k+1 is `type:data` of the k-th credential, in input order |
| `ImageExportCommand.CredentialArgsOccurrences` | turbinia/workers/artifact.py:74-76 | Among the credential arguments, `--credential` occurs exactly N times, and any string without a colon (such as `-d`) never occurs |
| `ImageExportCommand.HeadLayout` | turbinia/workers/artifact.py:52-72 | The part before the credentials has length [sudo] + 13 + [debug]. It starts with `sudo` when Docker is disabled, holds the 13 base elements after that, and ends with `-d` when debugging is requested |
| `ImageExportCommand.CommandLength` | turbinia/workers/artifact.py:52-79 | The command has length [sudo] + 13 + [debug] + 2N + 1 |
| `ImageExportCommand.CommandHead` | turbinia/workers/artifact.py:52-72 | The command starts with `sudo` when Docker is disabled, then the 13 base elements with the artifact name right after `--artifact_filters`, then `-d` when debugging is requested |
| `ImageExportCommand.CommandCredentials` | turbinia/workers/artifact.py:74-76 | Right after the head, the command holds `--credential` and `type:data` for each credential, in input order |
| `ImageExportCommand.CommandLast` | turbinia/workers/artifact.py:78-79 | The local path is the command's last element |
| `ImageExportCommand.CommandLayout` | turbinia/workers/artifact.py:52-79 | The command has length [sudo] + 13 + [debug] + 2N + 1. Every position is fixed: `sudo`, then the base with the artifact name right after `--artifact_filters`, then `-d`, then the credential pairs in order, then `local_path` last |
| `ImageExportCommand.PlainCommand` | turbinia/workers/artifact.py:52-79 | With Docker enabled, debug off and no credentials, the command is exactly the 13 base elements followed by `local_path` |
| `ImageExportCommand.SudoIffDockerDisabled` | turbinia/workers/artifact.py:68-69 | The first element is `sudo` if and only if Docker is disabled. Without Docker the command is `sudo` followed by the command built with Docker |
| `ImageExportCommand.DebugFlagCount` | turbinia/workers/artifact.py:71-72 | The builder adds `-d` exactly once when `DEBUG_TASKS` or the task's `debug_tasks` is set, and never otherwise. Any other `-d` is one of the four caller-given strings |
| `ImageExportCommand.CredentialFlagCount` | turbinia/workers/artifact.py:74-76 | The command holds exactly N builder-added `--credential` flags for N credentials. Any other occurrence is one of the four caller-given strings |
| `ImageExportCommand.CountInCommand` | turbinia/workers/artifact.py:52-79 | The count of `-d` or `--credential` in the whole command is the number the builder adds plus the number among the log file, export directory, artifact name and local path |
| `ImageExportCommand.BaseArgsOccurrences` | turbinia/workers/artifact.py:52-66 | None of the ten fixed strings of the base list is `-d` or `--credential` |
| `Text.DecimalRoundTrip` | turbinia/workers/artifact.py:105-107 | Reading back the decimal rendering of a count (`{0:d}`) gives the count |
| `FileArtifactExtraction.TaskResult.Log` | turbinia/workers/artifact.py:81 | `result.log` appends one entry and changes nothing else |
| `FileArtifactExtraction.TaskResult.AddEvidence` | turbinia/workers/artifact.py:103 | `result.add_evidence` appends the item with the parent evidence's config set on it, and changes nothing else |
| `FileArtifactExtraction.TaskResult.Close` | turbinia/workers/artifact.py:82-85 | `result.close` marks the result closed with the given success flag and message, and counts one more close |
| `FileArtifactExtraction.Host.Execute` | turbinia/workers/artifact.py:90 | `self.execute` records one call with the command and the registered log files, appends the runner's log lines to `result.log`, and returns the host's exit code |
| `FileArtifactExtraction.Host.Walk` | turbinia/workers/artifact.py:97 | `os.walk` records one walk of the given directory and yields the host's export tree |
| `FileArtifactExtraction.ExtractedMessageReportsCount` | turbinia/workers/artifact.py:105-107 | The number in the success message, read back from the digits after "Extracted ", is the count it was built with |
| `FileArtifactExtraction.ClosingMessagesNameArtifact` | turbinia/workers/artifact.py:82-107 | Each of the three closing messages (missing local path, failed execution, success) contains the artifact name |
| `FileArtifactExtraction.CollectDirectory` | turbinia/workers/artifact.py:98-103 | For one directory, each file adds one `Adding artifact` log line and one artifact carrying the artifact name, `join(dirpath, filename)` and the parent config, in listing order |
| `FileArtifactExtraction.CollectArtifacts` | turbinia/workers/artifact.py:97-103 | For the whole walk, the evidence grows by exactly the artifacts of `WalkFiles` and the log by exactly one line per file, in walk order |
| `FileArtifactExtraction.WalkFilesFrom` | turbinia/workers/artifact.py:97-98 | The files of the walk from directory i on are those of directory i followed by those from directory i+1 on |
| `FileArtifactExtraction.WalkStep` | turbinia/workers/artifact.py:97-98 | If the files collected so far followed by the files from directory i on make up the whole walk, so do the collected files, directory i's files and the files from directory i+1 on |
| `FileArtifactExtraction.EvidenceStep` | turbinia/workers/artifact.py:99-103 | Adding one directory's artifacts to the evidence collected so far gives the artifacts for the collected files followed by that directory's files |
| `FileArtifactExtraction.LogStep` | turbinia/workers/artifact.py:102 | Adding one directory's log lines to the log so far gives the log lines for the collected files followed by that directory's files |
| `FileArtifactExtraction.ArtifactsAppend` | turbinia/workers/artifact.py:99-103 | The artifacts for two runs of files are the artifacts for the first run followed by those for the second |
| `FileArtifactExtraction.AddingLogsAppend` | turbinia/workers/artifact.py:102 | The log lines for two runs of files are the lines for the first run followed by those for the second |
| `FileArtifactExtraction.WalkFilesCount` | turbinia/workers/artifact.py:97-98 | The walk yields as many files as the sum of the per-directory file counts |
| `FileArtifactExtraction.WalkFilesListed` | turbinia/workers/artifact.py:97-98 | A (directory, file) pair is among the walk's files if and only if some directory of the walk lists that file |
| `FileArtifactExtraction.ArtifactsLayout` | turbinia/workers/artifact.py:99-103 | There is exactly one artifact per file, and the k-th carries the artifact name, `join` of the k-th file's directory and name, and the parent config |
| `FileArtifactExtraction.AddingLogsLayout` | turbinia/workers/artifact.py:102 | There is exactly one log line per file, and the k-th names the k-th file |
| `FileArtifactExtraction.CollectedIffListed` | turbinia/workers/artifact.py:97-103 | An item is collected if and only if it is the artifact for some file that the walk lists |
| `FileArtifactExtraction.CollectionIgnoresWalkOrder` | turbinia/workers/artifact.py:97-103 | Two walks that list the same files, in whatever order, collect the same artifacts |
| `FileArtifactExtraction.SuccessReportsEvidenceCount` | turbinia/workers/artifact.py:97-107 | After collection the evidence list is the old length plus the number of files walked, and the success message reports exactly that number |
| `FileArtifactExtraction.TwoFileExample` | turbinia/workers/artifact.py:97-107 | With `a.txt` in the export directory and `b.txt` in a sub-directory, exactly two artifacts are collected in walk order, and a fresh result reports 2 |
| `FileArtifactExtraction.EmptyExportExample` | turbinia/workers/artifact.py:97-107 | An empty export directory collects no artifacts, and a fresh result reports 0 |
| `FileArtifactExtraction.Run` | turbinia/workers/artifact.py:37-109 | Every path closes the result exactly once. Missing local path: one log line and a failure naming the artifact, with nothing executed, walked or added. Non-zero exit: the command is logged and executed once with the log file registered, the runner's log lines follow, then a failure naming the artifact, with nothing walked or added. Exit code 0: after the runner's log lines, the export directory is walked once, each file adds one artifact and one log line in walk order, and the result closes successfully (even with zero files) with a message reporting `len(result.evidence)` |

## Left out

- `config.LoadConfig()` and the globals `config.DOCKER_ENABLED` and `config.DEBUG_TASKS` are configuration I/O. They are the `Config` parameter.
- The subprocess that `self.execute` runs is left out, together with the runner's capture of the log file. `Host.Execute` returns a given exit code and records the call.
- FileArtifactExtraction.Host.Execute: `self.execute` is defined in the `TurbiniaTask` base class, which is not part of this model. Of its effects on `result`, only appending log lines (the host's `executeLog`) is modelled. Anything else it may do to the result, such as saving the registered log files, is not.
- The real traversal by `os.walk` is filesystem I/O, and its order is not fixed. `Host.exportTree` is the given sequence of `(dirpath, filenames)`. The sub-directory names that `os.walk` also yields are dropped, because the task does not use them.
- `os.path.join` is an arbitrary function parameter. Its string semantics are not modelled.
- A `local_path` of `None` is modelled as the empty string. Python's `not local_path` treats the two alike.
- `evidence.credentials` being `None` is modelled as the empty sequence. The task treats the two alike.
- The `:s` format specifier raises on non-string values. Credentials, names and paths are strings here, so that error is not modelled.
- The `TurbiniaTask` base class is left out, including `__init__`, `job_name`, the task `id` and `output_dir` (both given as fields of `Task`), and the scheduler's enforcement of `REQUIRED_STATES`.
- FileArtifactExtraction.TaskResult.AddEvidence: the model assumes `add_evidence` always appends the item, with the parent evidence's config set on it. The body of `TurbiniaTaskResult.add_evidence` is not part of this model, and its other behaviour is not modelled. That includes linking context-dependent evidence to its parent and any skipping of an item, such as one whose source path is empty. Where the real method skips an item, `Run`'s one-artifact-per-file promise does not hold.
- FileArtifactExtraction.TaskResult.Close: only the closed flag, the success flag, the message and a count of calls are modelled. The body of `TurbiniaTaskResult.close` is not part of this model. Its other work is not modelled, including its return without effect on an already-closed result, the log entry it writes itself, and saving and status reporting. If the result `Run` is given was already closed, the real `close` would leave it unchanged, while the model's `Close` sets the flags and the message again. `Run`'s exact log contents leave out `close`'s own entry.
- `run` returns `result`. Here the caller keeps its reference to the `TaskResult` object instead.
