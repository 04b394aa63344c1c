/** `test_lab` of src/VMManager/VMManager.py: bring the lab's repository into the
    local cache, check out the requested version, read the lab specification and
    hand its installer and build steps to the action runner, in that order.

    Everything outside the function is an input: which directories exist, how
    each git command ends, what the spec file holds and how the action runner's
    two phases end. A run yields the outcome (the string returned or the
    exception that escapes), the external actions attempted in order, and the
    directories that exist afterwards. */
module VMManager {
  import opened Wrappers
  import opened Json
  import opened RepoNames
  import opened LabSpec

  const GIT_CLONE_LOC := "/root/VMManager/lab-repo-cache/"
  const LAB_SPEC_LOC := "/scripts/labspec.json"
  const SUCCESS := "Success"
  const TEST_LAB_FAILED := "Test lab failed"

  /** The world one run of `test_lab` meets. */
  datatype World = World(
    dirs: set<string>,    // the paths `os.path.isdir` accepts when the run starts
    cloneOk: bool,        // `git clone` exits with status 0
    pullOk: bool,         // `git pull` exits with status 0
    checkoutOk: bool,     // `git checkout <version>` exits with status 0
    specFile: SpecFile,   // the spec file of the repository once it is in place
    installOk: bool,      // the runner built on the installer payload installs without raising
    buildOk: bool)        // the runner built on the build-steps payload builds without raising

  /** An external action, with the arguments that identify it. */
  datatype Action =
    | Clone(url: string, dest: string)
    | Pull(repoDir: string)
    | Checkout(repoDir: string, version: string)
    | ReadSpec(path: string)
    | Install(payload: Json)
    | Build(payload: Json)

  /** The exceptions that escape `test_lab`. */
  datatype Exception =
    | GitCloneFailed
    | GitPullFailed
    | GitCheckoutFailed
    | LabSpecInvalid(msg: string)

  datatype Outcome = Returned(value: string) | Raised(exc: Exception)

  datatype Run = Run(outcome: Outcome, trace: seq<Action>, dirs: set<string>)

  function RepoDir(repoName: string): string
  {
    GIT_CLONE_LOC + repoName
  }

  function SpecPath(repoName: string): string
  {
    GIT_CLONE_LOC + repoName + LAB_SPEC_LOC
  }

  /** `repo_exists`. */
  predicate RepoExists(w: World, repoName: string)
  {
    RepoDir(repoName) in w.dirs
  }

  /** Python truthiness of `version`: `None` and `""` both mean "no checkout". */
  predicate Truthy(version: Option<string>)
  {
    version.Some? && version.value != ""
  }

  /** The pull or clone that the run chooses succeeds. */
  predicate FetchOk(w: World, url: string)
  {
    if RepoExists(w, ConstructRepoName(url)) then w.pullOk else w.cloneOk
  }

  /** Every git command the run issues succeeds. */
  predicate GitOk(w: World, url: string, version: Option<string>)
  {
    FetchOk(w, url) && (Truthy(version) ==> w.checkoutOk)
  }

  /** The state of the repository once the git commands are done. */
  datatype Synced = Synced(trace: seq<Action>, dirs: set<string>, error: Option<Exception>)

  /** Lines 135-140: `pull_repo` or `clone_repo`, then `checkout_version`.
      A successful clone creates the repository directory; a failed one leaves
      none behind. */
  function SyncRepo(w: World, url: string, version: Option<string>): Synced
  {
    var dir := RepoDir(ConstructRepoName(url));
    var fetched :=
      if dir in w.dirs then
        Synced([Pull(dir)], w.dirs, if w.pullOk then None else Some(GitPullFailed))
      else
        Synced([Clone(url, dir)], if w.cloneOk then w.dirs + {dir} else w.dirs,
               if w.cloneOk then None else Some(GitCloneFailed));
    if fetched.error.Some? || !Truthy(version) then fetched
    else
      Synced(fetched.trace + [Checkout(dir, version.value)], fetched.dirs,
             if w.checkoutOk then None else Some(GitCheckoutFailed))
  }

  /** Lines 143-153, the `try` block: project and install, then project and
      build. Every exception in it becomes "Test lab failed". */
  function RunLabActions(w: World, labSpec: Json): (r: (string, seq<Action>))
    ensures r.0 == SUCCESS || r.0 == TEST_LAB_FAILED
    ensures r.0 == SUCCESS <==>
      Lookup(labSpec, INSTALLER_PATH).Some? && w.installOk && Lookup(labSpec, BUILD_STEPS_PATH).Some? && w.buildOk
    ensures r.1 == [] <==> Lookup(labSpec, INSTALLER_PATH).None?
    ensures |r.1| <= 2
    ensures |r.1| >= 1 ==> r.1[0] == Install(JObject(map["installer" := Lookup(labSpec, INSTALLER_PATH).value]))
    ensures |r.1| == 2 <==> Lookup(labSpec, INSTALLER_PATH).Some? && w.installOk && Lookup(labSpec, BUILD_STEPS_PATH).Some?
    ensures |r.1| == 2 ==> r.1[1] == Build(JObject(map["build_steps" := Lookup(labSpec, BUILD_STEPS_PATH).value]))
    ensures forall i :: 0 <= i < |r.1| ==> StageOf(r.1[i]) == Running
  {
    match GetInstallerStepsSpec(labSpec)
    case None => (TEST_LAB_FAILED, [])
    case Some(installer) =>
      if !w.installOk then (TEST_LAB_FAILED, [Install(installer)])
      else
        match GetBuildStepsSpec(labSpec)
        case None => (TEST_LAB_FAILED, [Install(installer)])
        case Some(steps) => (if w.buildOk then SUCCESS else TEST_LAB_FAILED, [Install(installer), Build(steps)])
  }

  /** `test_lab(url, version)` against world `w`, stage by stage. */
  function TestLabRun(w: World, url: string, version: Option<string>): Run
  {
    var repoName := ConstructRepoName(url);
    var synced := SyncRepo(w, url, version);
    if synced.error.Some? then Run(Raised(synced.error.value), synced.trace, synced.dirs)
    else
      var trace := synced.trace + [ReadSpec(SpecPath(repoName))];
      match GetLabSpec(w.specFile)
      case Failure(msg) => Run(Raised(LabSpecInvalid(msg)), trace, synced.dirs)
      case Success(labSpec) =>
        var (value, actions) := RunLabActions(w, labSpec);
        Run(Returned(value), trace + actions, synced.dirs)
  }

  /** Lines 135-140, statement by statement: `pull_repo` or `clone_repo`,
      then `checkout_version`; a failing command ends the sequence. */
  method SyncRepository(w: World, labSrcUrl: string, version: Option<string>) returns (s: Synced)
    ensures s == SyncRepo(w, labSrcUrl, version)
  {
    var trace: seq<Action> := [];
    var dirs := w.dirs;
    var repoDir := RepoDir(ConstructRepoName(labSrcUrl));
    if repoDir in dirs {
      trace := trace + [Pull(repoDir)];
      if !w.pullOk {
        return Synced(trace, dirs, Some(GitPullFailed));
      }
    } else {
      trace := trace + [Clone(labSrcUrl, repoDir)];
      if !w.cloneOk {
        return Synced(trace, dirs, Some(GitCloneFailed));
      }
      dirs := dirs + {repoDir};
    }
    if Truthy(version) {
      trace := trace + [Checkout(repoDir, version.value)];
      if !w.checkoutOk {
        return Synced(trace, dirs, Some(GitCheckoutFailed));
      }
    }
    return Synced(trace, dirs, None);
  }

  /** `test_lab`, statement by statement: an exception that escapes is a return
      of `Raised`, one caught by the `try` a return of "Test lab failed". */
  method TestLab(w: World, labSrcUrl: string, version: Option<string>) returns (r: Run)
    ensures r == TestLabRun(w, labSrcUrl, version)
  {
    var repoName := ConstructRepoName(labSrcUrl);
    var synced := SyncRepository(w, labSrcUrl, version);
    if synced.error.Some? {
      return Run(Raised(synced.error.value), synced.trace, synced.dirs);
    }
    var trace, dirs := synced.trace + [ReadSpec(SpecPath(repoName))], synced.dirs;
    var loaded := GetLabSpec(w.specFile);
    if loaded.Failure? {
      return Run(Raised(LabSpecInvalid(loaded.error)), trace, dirs);
    }
    var labSpec := loaded.value;

    var installer := GetInstallerStepsSpec(labSpec);
    if installer.None? {
      return Run(Returned(TEST_LAB_FAILED), trace, dirs);
    }
    trace := trace + [Install(installer.value)];
    if !w.installOk {
      return Run(Returned(TEST_LAB_FAILED), trace, dirs);
    }
    var buildSteps := GetBuildStepsSpec(labSpec);
    if buildSteps.None? {
      return Run(Returned(TEST_LAB_FAILED), trace, dirs);
    }
    trace := trace + [Build(buildSteps.value)];
    if !w.buildOk {
      return Run(Returned(TEST_LAB_FAILED), trace, dirs);
    }
    return Run(Returned(SUCCESS), trace, dirs);
  }

  /** The stage each external action belongs to. */
  datatype Stage = Fetching | CheckingOut | Reading | Running

  function StageOf(a: Action): Stage
  {
    match a
    case Clone(_, _) | Pull(_) => Fetching
    case Checkout(_, _) => CheckingOut
    case ReadSpec(_) => Reading
    case Install(_) | Build(_) => Running
  }

  /** The actions of `trace` that belong to `stage`, in order. */
  function OfStage(trace: seq<Action>, stage: Stage): (sub: seq<Action>)
    ensures |sub| <= |trace|
    ensures forall i :: 0 <= i < |sub| ==> StageOf(sub[i]) == stage && sub[i] in trace
    decreases |trace|
  {
    if trace == [] then []
    else (if StageOf(trace[0]) == stage then [trace[0]] else []) + OfStage(trace[1..], stage)
  }

  lemma ConcatAssoc(a: seq<Action>, b: seq<Action>, c: seq<Action>)
    ensures (a + b) + c == a + (b + c)
  {
  }

  lemma {:induction false} OfStageAppend(a: seq<Action>, b: seq<Action>, stage: Stage)
    ensures OfStage(a + b, stage) == OfStage(a, stage) + OfStage(b, stage)
    decreases |a|
  {
    if a == [] {
      assert a + b == b;
    } else {
      var ab := a + b;
      assert ab[0] == a[0];
      assert ab[1..] == a[1..] + b;
      OfStageAppend(a[1..], b, stage);
      var head := if StageOf(a[0]) == stage then [a[0]] else [];
      assert OfStage(ab, stage) == head + OfStage(a[1..] + b, stage);
      assert OfStage(a, stage) == head + OfStage(a[1..], stage);
      ConcatAssoc(head, OfStage(a[1..], stage), OfStage(b, stage));
    }
  }

  /** A trace whose actions all belong to one stage keeps all of them for
      that stage and none for any other. */
  lemma {:induction false} OfStageUniform(trace: seq<Action>, own: Stage, stage: Stage)
    requires forall i :: 0 <= i < |trace| ==> StageOf(trace[i]) == own
    ensures OfStage(trace, stage) == if own == stage then trace else []
    decreases |trace|
  {
    if trace != [] {
      OfStageUniform(trace[1..], own, stage);
      assert trace == [trace[0]] + trace[1..];
    }
  }

  lemma OfStageFour(f: seq<Action>, c: seq<Action>, rd: seq<Action>, rn: seq<Action>, stage: Stage)
    requires forall i :: 0 <= i < |f| ==> StageOf(f[i]) == Fetching
    requires forall i :: 0 <= i < |c| ==> StageOf(c[i]) == CheckingOut
    requires forall i :: 0 <= i < |rd| ==> StageOf(rd[i]) == Reading
    requires forall i :: 0 <= i < |rn| ==> StageOf(rn[i]) == Running
    ensures OfStage(f + (c + (rd + rn)), stage)
         == match stage case Fetching => f case CheckingOut => c case Reading => rd case Running => rn
  {
    OfStageAppend(f, c + (rd + rn), stage);
    OfStageAppend(c, rd + rn, stage);
    OfStageAppend(rd, rn, stage);
    OfStageUniform(f, Fetching, stage);
    OfStageUniform(c, CheckingOut, stage);
    OfStageUniform(rd, Reading, stage);
    OfStageUniform(rn, Running, stage);
  }

  /** The pull or the clone, whichever the run chooses. */
  function FetchAction(w: World, url: string): Action
  {
    var dir := RepoDir(ConstructRepoName(url));
    if dir in w.dirs then Pull(dir) else Clone(url, dir)
  }

  function CheckoutPart(w: World, url: string, version: Option<string>): seq<Action>
  {
    if FetchOk(w, url) && Truthy(version) then [Checkout(RepoDir(ConstructRepoName(url)), version.value)] else []
  }

  function ReadPart(w: World, url: string, version: Option<string>): seq<Action>
  {
    if GitOk(w, url, version) then [ReadSpec(SpecPath(ConstructRepoName(url)))] else []
  }

  function RunnerPart(w: World, url: string, version: Option<string>): seq<Action>
  {
    if GitOk(w, url, version) && w.specFile.Parsed? then RunLabActions(w, w.specFile.doc).1 else []
  }

  /** Everything after the pull or clone. */
  function AfterFetch(w: World, url: string, version: Option<string>): seq<Action>
  {
    CheckoutPart(w, url, version) + (ReadPart(w, url, version) + RunnerPart(w, url, version))
  }

  /** The git commands of a run: the pull or clone, then the checkout when
      it is attempted; they end without an exception exactly when all succeed. */
  lemma SyncShape(w: World, url: string, version: Option<string>)
    ensures SyncRepo(w, url, version).trace == [FetchAction(w, url)] + CheckoutPart(w, url, version)
    ensures SyncRepo(w, url, version).error.None? <==> GitOk(w, url, version)
  {
    if !(FetchOk(w, url) && Truthy(version)) {
      assert [FetchAction(w, url)] + [] == [FetchAction(w, url)];
    }
  }

  /** The whole trace of a run, stage by stage: the pull or clone; the
      checkout, when that succeeded and a version is given; the spec read,
      when every git command succeeded; the runner's actions, when the spec
      also loaded. */
  lemma TraceInStageOrder(w: World, url: string, version: Option<string>)
    ensures TestLabRun(w, url, version).trace == [FetchAction(w, url)] + AfterFetch(w, url, version)
  {
    var fetch := [FetchAction(w, url)];
    var checkout, read, runner := CheckoutPart(w, url, version), ReadPart(w, url, version), RunnerPart(w, url, version);
    SyncShape(w, url, version);
    if !GitOk(w, url, version) {
      assert read + runner == [];
      assert checkout + [] == checkout;
    } else if !w.specFile.Parsed? {
      assert read + runner == read;
      ConcatAssoc(fetch, checkout, read);
    } else {
      ConcatAssoc(fetch + checkout, read, runner);
      ConcatAssoc(fetch, checkout, read + runner);
    }
  }

  /** The outcome of a run is decided by the first step that fails: the
      exception of a failing git command or spec load escapes, and once the
      spec is loaded the `try` block's string is returned. */
  lemma OutcomeByFirstFailure(w: World, url: string, version: Option<string>)
    ensures TestLabRun(w, url, version).outcome
         == if !FetchOk(w, url) then
              Raised(if RepoExists(w, ConstructRepoName(url)) then GitPullFailed else GitCloneFailed)
            else if !GitOk(w, url, version) then Raised(GitCheckoutFailed)
            else if !w.specFile.Parsed? then Raised(LabSpecInvalid(GetLabSpec(w.specFile).error))
            else Returned(RunLabActions(w, w.specFile.doc).0)
  {
  }

  /** The actions of one stage in a run are exactly that stage's part. */
  lemma StageActions(w: World, url: string, version: Option<string>, stage: Stage)
    ensures OfStage(TestLabRun(w, url, version).trace, stage)
         == match stage
            case Fetching => [FetchAction(w, url)]
            case CheckingOut => CheckoutPart(w, url, version)
            case Reading => ReadPart(w, url, version)
            case Running => RunnerPart(w, url, version)
  {
    TraceInStageOrder(w, url, version);
    OfStageFour([FetchAction(w, url)], CheckoutPart(w, url, version), ReadPart(w, url, version),
                RunnerPart(w, url, version), stage);
  }

  /** Exactly one of pull and clone is attempted, as the first action: pull
      when the cache directory exists, clone otherwise. */
  lemma PullXorClone(w: World, url: string, version: Option<string>)
    ensures var r, dir := TestLabRun(w, url, version), RepoDir(ConstructRepoName(url));
      && OfStage(r.trace, Fetching) == [if dir in w.dirs then Pull(dir) else Clone(url, dir)]
      && r.trace[0] == (if dir in w.dirs then Pull(dir) else Clone(url, dir))
  {
    StageActions(w, url, version, Fetching);
    TraceInStageOrder(w, url, version);
  }

  /** A checkout is attempted if and only if the pull or clone succeeded and
      the version is truthy, and then once, of exactly that version. */
  lemma CheckoutIffVersion(w: World, url: string, version: Option<string>)
    ensures var r := TestLabRun(w, url, version);
      OfStage(r.trace, CheckingOut)
        == if FetchOk(w, url) && Truthy(version) then [Checkout(RepoDir(ConstructRepoName(url)), version.value)] else []
  {
    StageActions(w, url, version, CheckingOut);
  }

  /** A failing git command raises its own exception out of `test_lab`: no
      spec read and no runner call follow it. */
  lemma GitFailureEscapes(w: World, url: string, version: Option<string>)
    requires !GitOk(w, url, version)
    ensures var r := TestLabRun(w, url, version);
      r.outcome == Raised(
        if !FetchOk(w, url) then
          (if RepoExists(w, ConstructRepoName(url)) then GitPullFailed else GitCloneFailed)
        else GitCheckoutFailed)
    ensures var r := TestLabRun(w, url, version);
      OfStage(r.trace, Reading) == [] && OfStage(r.trace, Running) == []
  {
    StageActions(w, url, version, Reading);
    StageActions(w, url, version, Running);
  }

  /** A missing or unparseable spec file raises `LabSpecInvalid` out of
      `test_lab` after the read is attempted; the runner is never called. */
  lemma SpecLoadFailureEscapes(w: World, url: string, version: Option<string>)
    requires GitOk(w, url, version) && !w.specFile.Parsed?
    ensures var r := TestLabRun(w, url, version);
      && (w.specFile.Missing? ==> r.outcome == Raised(LabSpecInvalid("Lab spec file not found")))
      && (w.specFile.Unparseable? ==>
            r.outcome == Raised(LabSpecInvalid("Lab spec JSON invalid: " + w.specFile.detail)))
      && r.trace[|r.trace| - 1] == ReadSpec(SpecPath(ConstructRepoName(url)))
      && OfStage(r.trace, Running) == []
  {
    TraceInStageOrder(w, url, version);
    StageActions(w, url, version, Running);
  }

  /** An exception escapes exactly when a git command fails or the spec cannot
      be loaded; otherwise one of the two strings is returned. */
  lemma RaisedIffBeforeTry(w: World, url: string, version: Option<string>)
    ensures var r := TestLabRun(w, url, version);
      r.outcome.Raised? <==> !(GitOk(w, url, version) && w.specFile.Parsed?)
    ensures var r := TestLabRun(w, url, version);
      r.outcome.Returned? ==> r.outcome.value == SUCCESS || r.outcome.value == TEST_LAB_FAILED
  {
  }

  /** The runner's calls are an install, then possibly a build: a build is
      never attempted without an install right before it, and ends the run. */
  lemma InstallPrecedesBuild(w: World, url: string, version: Option<string>)
    ensures var r := TestLabRun(w, url, version);
      && |OfStage(r.trace, Running)| <= 2
      && (|OfStage(r.trace, Running)| >= 1 ==> OfStage(r.trace, Running)[0].Install?)
      && (|OfStage(r.trace, Running)| == 2 ==>
            OfStage(r.trace, Running)[1].Build? && r.trace[|r.trace| - 2..] == OfStage(r.trace, Running))
  {
    TraceInStageOrder(w, url, version);
    StageActions(w, url, version, Running);
  }

  /** "Success" is returned if and only if every step succeeds, and then the
      last two actions are the install and the build with exactly the
      projected payloads. */
  lemma SuccessIff(w: World, url: string, version: Option<string>)
    ensures var r := TestLabRun(w, url, version);
      r.outcome == Returned(SUCCESS) <==>
        && GitOk(w, url, version) && w.specFile.Parsed?
        && Lookup(w.specFile.doc, INSTALLER_PATH).Some? && w.installOk
        && Lookup(w.specFile.doc, BUILD_STEPS_PATH).Some? && w.buildOk
    ensures var r := TestLabRun(w, url, version);
      r.outcome == Returned(SUCCESS) ==>
        && w.specFile.Parsed? && |r.trace| >= 2
        && r.trace[|r.trace| - 2] == Install(JObject(map["installer" := Lookup(w.specFile.doc, INSTALLER_PATH).value]))
        && r.trace[|r.trace| - 1] == Build(JObject(map["build_steps" := Lookup(w.specFile.doc, BUILD_STEPS_PATH).value]))
  {
    TraceInStageOrder(w, url, version);
  }

  /** A document without `lab.build_requirements.platform.installer` loads
      fine; the missing key surfaces inside the `try`, so the run returns
      "Test lab failed" with the spec read as its last action. */
  lemma MissingInstallerFailsInTry(w: World, url: string, version: Option<string>)
    requires GitOk(w, url, version) && w.specFile.Parsed?
    requires Lookup(w.specFile.doc, INSTALLER_PATH).None?
    ensures var r := TestLabRun(w, url, version);
      && r.outcome == Returned(TEST_LAB_FAILED)
      && r.trace[|r.trace| - 1] == ReadSpec(SpecPath(ConstructRepoName(url)))
      && OfStage(r.trace, Running) == []
  {
    TraceInStageOrder(w, url, version);
    StageActions(w, url, version, Running);
  }

  /** A failed install, or a document without `build_steps`, stops the run
      before the build: "Test lab failed", with the install as last action. */
  lemma NoBuildAfterFailedInstall(w: World, url: string, version: Option<string>)
    requires GitOk(w, url, version) && w.specFile.Parsed?
    requires Lookup(w.specFile.doc, INSTALLER_PATH).Some?
    requires !w.installOk || Lookup(w.specFile.doc, BUILD_STEPS_PATH).None?
    ensures var r := TestLabRun(w, url, version);
      && r.outcome == Returned(TEST_LAB_FAILED)
      && OfStage(r.trace, Running) == [Install(JObject(map["installer" := Lookup(w.specFile.doc, INSTALLER_PATH).value]))]
      && r.trace[|r.trace| - 1].Install?
  {
    var installer := JObject(map["installer" := Lookup(w.specFile.doc, INSTALLER_PATH).value]);
    assert RunLabActions(w, w.specFile.doc) == (TEST_LAB_FAILED, [Install(installer)]);
    OutcomeByFirstFailure(w, url, version);
    TraceInStageOrder(w, url, version);
    StageActions(w, url, version, Running);
  }

  /** The only directory a run creates is the one a successful clone makes. */
  lemma OnlyCloneCreatesDirectory(w: World, url: string, version: Option<string>)
    ensures var r, dir := TestLabRun(w, url, version), RepoDir(ConstructRepoName(url));
      r.dirs == if dir !in w.dirs && w.cloneOk then w.dirs + {dir} else w.dirs
  {
  }

  /** Once the pull or clone has succeeded, what the cache held before it
      makes no difference to the rest of the run. */
  lemma RestIndependentOfCache(w1: World, w2: World, url: string, version: Option<string>)
    requires w2 == w1.(dirs := w2.dirs)
    requires FetchOk(w1, url) && FetchOk(w2, url)
    ensures TestLabRun(w1, url, version).outcome == TestLabRun(w2, url, version).outcome
    ensures AfterFetch(w1, url, version) == AfterFetch(w2, url, version)
  {
    assert GitOk(w1, url, version) == GitOk(w2, url, version);
    assert CheckoutPart(w1, url, version) == CheckoutPart(w2, url, version);
    assert ReadPart(w1, url, version) == ReadPart(w2, url, version);
    assert RunnerPart(w1, url, version) == RunnerPart(w2, url, version);
    OutcomeByFirstFailure(w1, url, version);
    OutcomeByFirstFailure(w2, url, version);
  }

  /** Running again after a successful pull or clone pulls instead of cloning,
      and, when that pull succeeds, proceeds exactly as the first run did. */
  lemma RerunPulls(w: World, url: string, version: Option<string>)
    requires FetchOk(w, url)
    ensures var r1 := TestLabRun(w, url, version);
      var r2 := TestLabRun(w.(dirs := r1.dirs), url, version);
      && r2.trace[0] == Pull(RepoDir(ConstructRepoName(url)))
      && r2.dirs == r1.dirs
      && (w.pullOk ==> r2.outcome == r1.outcome && r2.trace[1..] == r1.trace[1..])
  {
    var r1 := TestLabRun(w, url, version);
    var w2 := w.(dirs := r1.dirs);
    OnlyCloneCreatesDirectory(w, url, version);
    OnlyCloneCreatesDirectory(w2, url, version);
    assert FetchAction(w2, url) == Pull(RepoDir(ConstructRepoName(url)));
    TraceInStageOrder(w, url, version);
    TraceInStageOrder(w2, url, version);
    if w.pullOk {
      RestIndependentOfCache(w, w2, url, version);
    }
  }

  /** A fresh cache, a well-formed spec and a runner that succeeds: "Success",
      after exactly clone, the optional checkout, the read, install and build. */
  lemma FreshSuccess(w: World, url: string, version: Option<string>, platform: map<string, Json>)
    requires RepoDir(ConstructRepoName(url)) !in w.dirs
    requires w.cloneOk && w.checkoutOk && w.installOk && w.buildOk
    requires "installer" in platform && "build_steps" in platform
    requires w.specFile == Parsed(Nest(PLATFORM_PATH, JObject(platform)))
    ensures var r, name := TestLabRun(w, url, version), ConstructRepoName(url);
      && r.outcome == Returned(SUCCESS)
      && r.trace == [Clone(url, RepoDir(name))]
                    + (if Truthy(version) then [Checkout(RepoDir(name), version.value)] else [])
                    + [ReadSpec(SpecPath(name)),
                       Install(JObject(map["installer" := platform["installer"]])),
                       Build(JObject(map["build_steps" := platform["build_steps"]]))]
  {
    ProjectNested(platform);
    TraceInStageOrder(w, url, version);
  }
}
