# VMManager `test_lab`: a Dafny model

The VM manager of the lab deployment system runs a lab through `test_lab`
(src/VMManager/VMManager.py). Given the URL of the lab's git repository and an
optional version, it does the following:

1. derives a cache name from the URL;
2. pulls the repository into `/root/VMManager/lab-repo-cache/<name>` if that
   directory exists, and clones it there otherwise;
3. checks out the version if one is given;
4. reads `scripts/labspec.json` from the repository;
5. hands the spec's installer payload, and then its build-steps payload, to
   the lab action runner.

A failing git command or a spec that cannot be loaded raises an exception out
of `test_lab`. Anything that goes wrong inside the runner phase is caught and
turned into the string "Test lab failed". If everything succeeds, the string
"Success" is returned.

The model has five modules:

- `Wrappers` holds `Option` and `Result`.
- `Json` holds decoded JSON documents and Python-style chained subscripting
  (`Lookup`).
- `RepoNames` holds `construct_repo_name`. It is built on a model of Python's
  `str.split('/')`, with `Split` and `Join` proved inverse to each other.
- `LabSpec` holds `get_lab_spec` and the two payload projections.
- `VMManager` holds the orchestration.

Everything outside `test_lab` is an explicit input, a `World`:

- the directories that exist;
- whether the clone, the pull and the checkout succeed;
- what the spec file holds;
- whether the runner's install and build phases succeed.

A run yields three things:

- the outcome: the string returned, or the exception that escapes;
- the ordered trace of external actions attempted (`Clone`, `Pull`,
  `Checkout`, `ReadSpec`, `Install`, `Build`), each with its arguments;
- the directories that exist afterwards.

`test_lab` appears twice:

- `TestLab` is an imperative method, statement by statement, where an escaping
  exception is an early return of `Raised`.
- `TestLabRun` is a reference function composed stage by stage.

`TestLab` is proved equal to `TestLabRun`. Every property of a run is proved
about `TestLabRun`.

Three behaviours of the code are easy to misread:

- Appending ".git" to a URL does not always keep its name. It does not when
  the last segment already ends in ".git", because only one ".git" is
  stripped.
- A spec without `lab.build_requirements.platform.installer` (or without
  `build_steps`) is not rejected when it is loaded. The missing key raises
  inside the `try` block, and the run returns "Test lab failed".
- Git and spec-load failures are logged and re-raised. They escape `test_lab`
  as exceptions and never become a return value.

`LabSpecInvalid.__init__` (lines 29-31) builds and discards a second
exception object. The message is kept anyway, because Python stores the
constructor arguments when the exception is created. The model therefore
carries the message in `LabSpecInvalid(msg)`.

## Model

| member | source | states |
|---|---|---|
| RepoNames.Split | src/VMManager/VMManager.py:90 | `url.split('/')` gives at least one piece, and no piece contains a slash |
| RepoNames.JoinSplit | src/VMManager/VMManager.py:90 | joining the pieces of a split with "/" gives back the original text, so the split loses nothing |
| RepoNames.SplitJoin | src/VMManager/VMManager.py:90 | splitting slash-free pieces joined with "/" gives back exactly those pieces, so the split is the unique such decomposition |
| RepoNames.LastSegment | src/VMManager/VMManager.py:90 | `split('/')[-1]` contains no slash |
| RepoNames.LastSegmentIsFinal | src/VMManager/VMManager.py:90 | `split('/')[-1]` is a slash-free suffix of the URL that is the whole URL or is preceded by a slash |
| RepoNames.FinalSegmentUnique | src/VMManager/VMManager.py:90 | at most one text is the final segment of a URL in that sense |
| RepoNames.SlashFreeIsLast | src/VMManager/VMManager.py:90 | a URL without a slash is its own last segment |
| RepoNames.PyLast | src/VMManager/VMManager.py:91 | `repo[-4:]`: the last four characters, or the whole text when it is shorter |
| RepoNames.ConstructRepoName | src/VMManager/VMManager.py:89-92 | the repository name never contains a slash |
| RepoNames.RepoNameSpec | src/VMManager/VMManager.py:89-92 | the name is the last segment with exactly one trailing ".git" removed when the segment ends in ".git", and the segment unchanged otherwise |
| RepoNames.RepoNameOfFinalSegment | src/VMManager/VMManager.py:89-92 | the same characterisation for any final segment of the URL, independent of how the split is computed |
| RepoNames.AppendGitName | src/VMManager/VMManager.py:90-91 | the name of `url + ".git"` is the last segment of `url` |
| RepoNames.AppendGitKeepsName | src/VMManager/VMManager.py:90-91 | appending ".git" leaves the name unchanged if and only if the last segment does not already end in ".git" |
| RepoNames.StripsOnce | src/VMManager/VMManager.py:91 | a segment ending in ".git.git" gives a name that still ends in ".git" |
| RepoNames.NotIdempotent | src/VMManager/VMManager.py:91 | "x.git.git" is named "x.git", whose own name is "x", so the name is not idempotent |
| RepoNames.TrailingSlashEmptyName | src/VMManager/VMManager.py:90-91 | a URL ending in "/" gets the empty name, so its cache directory is the cache root |
| Json.Member | src/VMManager/VMManager.py:84 | one subscript `j[key]`: the member when `j` is an object holding `key`, and a raised `KeyError` or `TypeError` (None) otherwise |
| Json.Lookup | src/VMManager/VMManager.py:84 | chained subscripting succeeds on the empty path with the document itself, and a non-empty path succeeds only through an object holding its first key |
| Json.Nest | src/VMManager/VMManager.py:84 | a nested document built from a non-empty path is an object with exactly the path's first key |
| Json.LookupNest | src/VMManager/VMManager.py:84 | subscripting a nested document along the path it was built from yields the leaf |
| Json.LookupAppend | src/VMManager/VMManager.py:84 | subscripting along `p + q` is subscripting along `p` and then along `q`, raising if either raises |
| Json.LookupMissingPrefix | src/VMManager/VMManager.py:84 | once a subscript raises, every longer chain through it raises too |
| LabSpec.GetLabSpec | src/VMManager/VMManager.py:126-133 | the document loads if and only if the file parsed, and then it is that document; a missing file fails with "Lab spec file not found"; an unreadable or unparseable one fails with "Lab spec JSON invalid: " followed by the error text |
| LabSpec.GetInstallerStepsSpec | src/VMManager/VMManager.py:86-87 | the installer payload exists if and only if `lab.build_requirements.platform.installer` does, and is then `{"installer": <that value>}` |
| LabSpec.GetBuildStepsSpec | src/VMManager/VMManager.py:83-84 | the build payload exists if and only if `lab.build_requirements.platform.build_steps` does, and is then `{"build_steps": <that value>}` |
| LabSpec.ProjectNested | src/VMManager/VMManager.py:83-87 | for `{"lab": {"build_requirements": {"platform": p}}}`, each payload is the matching member of `p`, and its projection raises when that member is missing |
| VMManager.RunLabActions | src/VMManager/VMManager.py:143-153 | the `try` block returns only "Success" or "Test lab failed"; "Success" exactly when both keys exist and both runner phases succeed; no runner call when the installer key is missing; at most an install with the installer payload, then a build with the build-steps payload, and the build exactly when the installer key exists, the install succeeded and the build-steps key exists |
| VMManager.RepoExists | src/VMManager/VMManager.py:94-95 | `repo_exists`: the cache directory `GIT_CLONE_LOC + name` is among the directories that exist |
| VMManager.Truthy | src/VMManager/VMManager.py:116 | `if version:`: `None` and the empty string mean no checkout, any other string means one |
| VMManager.SyncRepo | src/VMManager/VMManager.py:135-140 | pull when the cache directory exists, clone otherwise; a successful clone creates the directory; a failed command ends the sequence with its own exception; then the checkout when the version is truthy |
| VMManager.SyncRepository | src/VMManager/VMManager.py:135-140 | the imperative pull-or-clone-then-checkout computes exactly the stage function `SyncRepo` |
| VMManager.TestLabRun | src/VMManager/VMManager.py:74-153 | the reference `test_lab`, stage by stage: the git commands, whose exception escapes; then the spec read, whose `LabSpecInvalid` escapes; then the `try` block's string returned |
| VMManager.TestLab | src/VMManager/VMManager.py:74-153 | the statement-by-statement `test_lab`, with early exits, produces exactly the reference run `TestLabRun`: outcome, trace and directories |
| VMManager.SyncShape | src/VMManager/VMManager.py:135-140 | the git commands are the pull or clone, then the checkout when it is attempted, and they end without an exception exactly when every git command succeeds |
| VMManager.TraceInStageOrder | src/VMManager/VMManager.py:135-150 | the trace is the pull or clone, then the checkout (when the fetch succeeded and the version is truthy), then the spec read (when every git command succeeded), then the runner calls (when the spec loaded) |
| VMManager.OutcomeByFirstFailure | src/VMManager/VMManager.py:135-153 | the outcome is decided by the first failing step: the pull or clone failure, else the checkout failure, else the spec-load failure (all raised), else the string the `try` block returns |
| VMManager.StageActions | src/VMManager/VMManager.py:135-150 | the actions of each stage in the trace are exactly that stage's part |
| VMManager.PullXorClone | src/VMManager/VMManager.py:94-95 | exactly one of pull and clone is attempted, as the first action: pull when the cache directory exists, clone otherwise |
| VMManager.CheckoutIffVersion | src/VMManager/VMManager.py:115-124 | a checkout is attempted if and only if the pull or clone succeeded and the version is truthy (`None` and "" are not), and then once, of exactly that version in the cache directory |
| VMManager.GitFailureEscapes | src/VMManager/VMManager.py:97-124 | a failing clone, pull or checkout raises its own exception out of `test_lab`, with no spec read and no runner call |
| VMManager.SpecLoadFailureEscapes | src/VMManager/VMManager.py:126-142 | a missing spec file raises `LabSpecInvalid("Lab spec file not found")`, and an unparseable one raises `LabSpecInvalid("Lab spec JSON invalid: " + detail)`; in both cases the read is the last action and no runner call happens |
| VMManager.RaisedIffBeforeTry | src/VMManager/VMManager.py:135-153 | an exception escapes if and only if a git command fails or the spec does not load; otherwise the run returns "Success" or "Test lab failed" |
| VMManager.InstallPrecedesBuild | src/VMManager/VMManager.py:144-148 | there are at most two runner calls, the first is an install, and a second is a build that ends the trace right after the install |
| VMManager.SuccessIff | src/VMManager/VMManager.py:143-150 | "Success" is returned if and only if every git command succeeds, the spec loads, both keys exist and both phases succeed; the last two actions are then the install and the build with exactly the projected payloads |
| VMManager.MissingInstallerFailsInTry | src/VMManager/VMManager.py:86-87 | a loaded spec without the installer key returns "Test lab failed", with the spec read as the last action and no runner call |
| VMManager.NoBuildAfterFailedInstall | src/VMManager/VMManager.py:144-153 | a failed install or a missing build-steps key returns "Test lab failed" with the install as the only runner call and the last action, and no build |
| VMManager.OnlyCloneCreatesDirectory | src/VMManager/VMManager.py:97-104 | the only directory a run creates is the cache directory, made by a successful clone when it was absent |
| VMManager.RestIndependentOfCache | src/VMManager/VMManager.py:135-153 | in two worlds that differ only in which directories exist, once the pull or clone has succeeded in both, whether the cache existed makes no difference to the outcome or to any later action |
| VMManager.RerunPulls | src/VMManager/VMManager.py:94-113 | after a first run whose pull or clone succeeded, a second run in a world that differs only in which directories exist (those the first run left) pulls instead of cloning, creates no directory, and when the pull succeeds ends like the first, with the same actions after the fetch |
| VMManager.FreshSuccess | src/VMManager/VMManager.py:74-153 | with a fresh cache, a well-formed spec and a succeeding runner, the run returns "Success" after exactly the clone, the optional checkout, the read, the install and the build |

## Left out

- Command text is not modelled. That covers the argument lists built with
  `shlex.split` and what git does with them. Each git command is modelled as
  succeeding or failing. The arguments that identify an action are kept: the
  URL, the cache directory and the version. Two details of the command text
  are therefore not captured:
  - the pull passes `--git-dir=<cache dir>/.git`;
  - the checkout passes `--git-dir=<cache dir>`, without `/.git`.
  From reading the code alone (nothing was executed): the checkout's
  `--git-dir` names the working tree rather than its `.git`, so git would
  presumably reject it whenever a version is given; and the pull, given
  `--git-dir` without `--work-tree`, takes the process's current directory as
  its work tree. `checkoutOk` and `pullOk` therefore admit outcomes the real
  commands may never produce.
- A failed clone is assumed to leave no cache directory behind, as git
  removes a partial clone. A world where one is left is not modelled.
- Directory and file tests (`os.path.isdir`, `os.path.exists`) and the file
  read are inputs. A spec file that exists but cannot be opened or read is
  folded into `Unparseable`, as the source reports it with the same "Lab spec
  JSON invalid: " message.
- `json.loads` is not modelled as a parser. Only its result (a document) or
  its failure (with the error text) is. JSON numbers keep their literal text,
  as nothing in the core computes with them.
- The lab action runner's internals are not part of this model. Its
  constructor and each run method together are one success flag per phase.
  Any exception in them is caught by the `try` block.
- Exceptions outside `Exception` (such as `KeyboardInterrupt`) are not
  modelled. `except Exception` does not catch them.
- Logging (the `VMM_LOGGER` calls, `setup_logging`, the log file handed to
  git) is left out. It does not affect the outcome.
- The health probes (`running_time`, `mem_usage`, `disk_usage`,
  `running_processes`, `cpu_load`) and `execute` are left out. They are thin
  shell wrappers with no decision logic.
- The `check_output` backport for old Python versions and the `__main__`
  block are left out.
- Concurrent runs sharing the cache directory are left out. The code has no
  locking.
