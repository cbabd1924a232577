/** The `terrahelm_release` resource: the data Terraform keeps for it and the
    read, create-or-update and delete operations that change that data. What
    the operations do outside the provider (directories, files, the Git clone
    and the Helm commands) is recorded as a trace of effects; what those
    commands give back is a parameter. */
module ReleaseResource {
  import opened Results
  import opened Strings
  import opened Json
  import opened Flags
  import opened KubeToken
  import opened HelmCommand
  import opened Release
  import opened ReleaseValues

  /** One entry of `helm list -o json`. */
  datatype ListEntry = ListEntry(
    name: string,
    namespace: string,
    revision: string,
    updated: string,
    status: string,
    chart: string,
    appVersion: string)

  /** How a Helm command ended: its standard output, or a failure. */
  datatype HelmRun = Succeeded(output: string) | Exited

  /** Everything the operations learn from outside the provider. */
  datatype Outside = Outside(
    execRun: seq<string> -> ExecRun,                // the exec-credential command, run anew for each Helm command (by its arguments)
    unmarshal: string -> Decoded,                   // json.Unmarshal into interface{}
    decodeList: string -> Option<seq<ListEntry>>,   // json.Unmarshal of the release list
    helm: seq<string> -> HelmRun,                   // running a Helm command line
    cloneSucceeds: seq<string> -> bool,             // running the clone command
    canCreate: string -> bool,                      // MkdirAll or WriteFile at a path
    yamlRoundTrip: string -> Option<string>,        // yaml.Unmarshal then yaml.Marshal
    stringify: Json -> string,                      // fmt.Sprintf("%v", ...)
    sha256: string -> Digest)

  /** What an operation does outside the provider, in order. */
  datatype Effect =
    | MakeDir(path: string)
    | Clone(argv: seq<string>)
    | WriteFile(path: string, content: string)
    | RunHelm(argv: seq<string>)

  datatype ReleaseError =
    | TokenFailed(cause: TokenError)   // the Helm command could not be built
    | ListFailed                       // "failed to retrieve Helm chart information"
    | ListUndecodable                  // "failed to unmarshal Helm chart information"
    | ReleaseNotFound(name: string)    // "failed to list Helm chart: <name>"
    | UserValuesFailed                 // "failed to retrieve Helm values"
    | SanitizeFailed                   // "failed to sanitize Helm release values"
    | AllValuesFailed                  // "failed to retrieve Helm release values"
    | ValuesUndecodable                // "failed to unmarshal Helm release values"
    | MakeDirFailed(path: string)      // "failed to create the directory"
    | CloneFailed                      // "failed to clone the Git repository"
    | DependencyBuildFailed            // "failed to run 'helm dependency build'"
    | ValuesFileFailed                 // "failed to create Helm values file"
    | InstallFailed                    // "failed to install the Helm chart"
    | UninstallFailed                  // "failed to uninstall Helm release"

  /** The data Terraform keeps for one release: its configuration (whose
      `values` a read overwrites) and the attributes the provider computes. */
  datatype ResourceData = ResourceData(
    config: ReleaseConfig,
    id: string,
    chartName: string,
    chartVersion: string,
    revision: string,
    status: string,
    releaseValues: map<string, string>)

  /** The outcome of an operation: the new data, the result and the effects. */
  datatype Step = Step(data: ResourceData, result: Result<(), ReleaseError>, effects: seq<Effect>)

  // ---------------------------------------------------------------------------
  // Specification of the operations

  /** Building and running one Helm command through the provider's builder. */
  datatype HelmOutcome =
    | NoCommand(cause: TokenError)
    | Rejected(argv: seq<string>)
    | Output(argv: seq<string>, text: string)

  function HelmOutcomeOf(cfg: ProviderConfig, out: Outside, args: seq<string>): HelmOutcome {
    match HelmCommandLine(cfg, args, out.execRun(args), out.unmarshal)
    case Err(e) => NoCommand(e)
    case Ok(argv) =>
      match out.helm(argv)
      case Succeeded(text) => Output(argv, text)
      case Exited => Rejected(argv)
  }

  /** `helm list` for the release: its first entry, or why there is none. */
  function ListStage(rel: ReleaseConfig, cfg: ProviderConfig, out: Outside): (Result<ListEntry, ReleaseError>, seq<Effect>) {
    match HelmOutcomeOf(cfg, out, ListArgs(rel.namespace, rel.name))
    case NoCommand(e) => (Err(TokenFailed(e)), [])
    case Rejected(argv) => (Err(ListFailed), [RunHelm(argv)])
    case Output(argv, text) =>
      var listed := out.decodeList(text);
      if listed.None? then (Err(ListUndecodable), [RunHelm(argv)])
      else if listed.value == [] then (Err(ReleaseNotFound(rel.name)), [RunHelm(argv)])
      else (Ok(listed.value[0]), [RunHelm(argv)])
  }

  /** `helm get values -o yaml`: the user-supplied values, sanitised. */
  function UserValuesStage(rel: ReleaseConfig, cfg: ProviderConfig, out: Outside): (Result<string, ReleaseError>, seq<Effect>) {
    match HelmOutcomeOf(cfg, out, UserValuesArgs(rel.namespace, rel.name))
    case NoCommand(e) => (Err(TokenFailed(e)), [])
    case Rejected(argv) => (Err(UserValuesFailed), [RunHelm(argv)])
    case Output(argv, text) =>
      var safe := SanitizeYamlString(text, out.yamlRoundTrip);
      if safe.Err? then (Err(SanitizeFailed), [RunHelm(argv)])
      else (Ok(safe.value), [RunHelm(argv)])
  }

  /** `helm get values -a -o json`: every value of the release, flattened. */
  function AllValuesStage(rel: ReleaseConfig, cfg: ProviderConfig, out: Outside): (Result<map<string, string>, ReleaseError>, seq<Effect>) {
    match HelmOutcomeOf(cfg, out, AllValuesArgs(rel.namespace, rel.name))
    case NoCommand(e) => (Err(TokenFailed(e)), [])
    case Rejected(argv) => (Err(AllValuesFailed), [RunHelm(argv)])
    case Output(argv, json) =>
      var raw := DecodeValues(out.unmarshal(json));
      if raw.Err? then (Err(ValuesUndecodable), [RunHelm(argv)])
      else (Ok(Flatten(raw.value, out.stringify)), [RunHelm(argv)])
  }

  /** The attributes a read takes from the first listed entry. */
  function Recorded(d: ResourceData, first: ListEntry): ResourceData {
    var chart := SplitChart(first.chart);
    d.(chartName := chart.0, chartVersion := chart.1, revision := first.revision, status := first.status)
  }

  /** The second half of a read: the user values, then all values. */
  function ReadValuesSpec(d: ResourceData, cfg: ProviderConfig, out: Outside): Step {
    var (user, fx) := UserValuesStage(d.config, cfg, out);
    if user.Err? then Step(d, Err(user.error), fx)
    else
      var d1 := d.(config := d.config.(values := user.value));
      var (all, fx2) := AllValuesStage(d.config, cfg, out);
      if all.Err? then Step(d1, Err(all.error), fx + fx2)
      else Step(d1.(releaseValues := all.value), Ok(()), fx + fx2)
  }

  /** `resourceHelmReleaseRead`. */
  function ReadSpec(d: ResourceData, cfg: ProviderConfig, out: Outside): Step {
    var (first, fx) := ListStage(d.config, cfg, out);
    if first.Err? then Step(d, Err(first.error), fx)
    else
      var s := ReadValuesSpec(Recorded(d, first.value), cfg, out);
      Step(s.data, s.result, fx + s.effects)
  }

  /** The Git branch of create-or-update: clone into the cache unless the
      directory is already there, then build the chart's dependencies. Only
      runs for a release without a Helm repository. */
  function GitStage(rel: ReleaseConfig, cfg: ProviderConfig, out: Outside, dirs: set<string>)
    : (Result<(), ReleaseError>, seq<Effect>)
  {
    if rel.helmRepository != "" then (Ok(()), [])
    else
      var (cloned, fx) := CloneStage(rel, cfg, out, dirs);
      if cloned.Err? then (cloned, fx)
      else
        var (built, fx2) := DependencyStage(rel, cfg, out);
        (built, fx + fx2)
  }

  /** Creating the cache directory of the repository and cloning into it, both
      skipped when the directory already exists. */
  function CloneStage(rel: ReleaseConfig, cfg: ProviderConfig, out: Outside, dirs: set<string>)
    : (Result<(), ReleaseError>, seq<Effect>)
  {
    var repoPath := RepoPath(cfg.cacheDir, rel.gitRepository, rel.gitReference);
    var clone := CloneArgv(rel.gitRepository, rel.gitReference, repoPath);
    if repoPath in dirs then (Ok(()), [])
    else if !out.canCreate(repoPath) then (Err(MakeDirFailed(repoPath)), [MakeDir(repoPath)])
    else if !out.cloneSucceeds(clone) then (Err(CloneFailed), [MakeDir(repoPath), Clone(clone)])
    else (Ok(()), [MakeDir(repoPath), Clone(clone)])
  }

  /** `helm dependency build` on the chart inside the cloned repository. */
  function DependencyStage(rel: ReleaseConfig, cfg: ProviderConfig, out: Outside)
    : (Result<(), ReleaseError>, seq<Effect>)
  {
    var repoPath := RepoPath(cfg.cacheDir, rel.gitRepository, rel.gitReference);
    match HelmOutcomeOf(cfg, out, DependencyBuildArgs(PathJoin([repoPath, rel.chartPath])))
    case NoCommand(e) => (Err(TokenFailed(e)), [])
    case Rejected(argv) => (Err(DependencyBuildFailed), [RunHelm(argv)])
    case Output(argv, _) => (Ok(()), [RunHelm(argv)])
  }

  /** The values file of create-or-update: none without values; otherwise the
      values are written under the cache, in a file named after their hash. The
      directory uses the Helm repository as the repository name. */
  function ValuesFileStage(rel: ReleaseConfig, cfg: ProviderConfig, out: Outside)
    : (Result<string, ReleaseError>, seq<Effect>)
  {
    if rel.values == "" then (Ok(""), [])
    else
      var dir := ValuesDir(cfg.cacheDir, rel.helmRepository, rel.gitReference);
      var file := PathJoin([dir, ValuesFileName(rel.name, ValuesHash(out.sha256(rel.values)))]);
      if !out.canCreate(dir) then (Err(MakeDirFailed(dir)), [MakeDir(dir)])
      else if !out.canCreate(file) then (Err(ValuesFileFailed), [MakeDir(dir), WriteFile(file, rel.values)])
      else (Ok(file), [MakeDir(dir), WriteFile(file, rel.values)])
  }

  /** The install or upgrade command line, with the values file written on
      the way. */
  function InstallStage(rel: ReleaseConfig, isUpdate: bool, cfg: ProviderConfig, out: Outside)
    : (Result<seq<string>, ReleaseError>, seq<Effect>)
  {
    match HelmCommandLine(cfg, InstallArgs(rel, isUpdate), out.execRun(InstallArgs(rel, isUpdate)), out.unmarshal)
    case Err(e) => (Err(TokenFailed(e)), [])
    case Ok(base) =>
      var (valuesFile, written) := ValuesFileStage(rel, cfg, out);
      if valuesFile.Err? then (Err(valuesFile.error), written)
      else (Ok(base + Render(InstallTable(rel, valuesFile.value)) + ["--logtostderr"]), written)
  }

  /** After the Git branch: run the install or upgrade, record the id and
      read the release back. */
  function InstallSpec(d: ResourceData, isUpdate: bool, cfg: ProviderConfig, out: Outside): Step {
    var (line, fx) := InstallStage(d.config, isUpdate, cfg, out);
    if line.Err? then Step(d, Err(line.error), fx)
    else if out.helm(line.value).Exited? then Step(d, Err(InstallFailed), fx + [RunHelm(line.value)])
    else
      var s := ReadSpec(d.(id := ReleaseId(d.config.namespace, d.config.name)), cfg, out);
      Step(s.data, s.result, fx + [RunHelm(line.value)] + s.effects)
  }

  /** `resourceHelmReleaseCreateOrUpdate`; `dirs` are the directories that
      already exist. */
  function CreateOrUpdateSpec(d: ResourceData, isUpdate: bool, cfg: ProviderConfig, out: Outside, dirs: set<string>): Step {
    var (git, fx) := GitStage(d.config, cfg, out, dirs);
    if git.Err? then Step(d, git, fx)
    else
      var s := InstallSpec(d, isUpdate, cfg, out);
      Step(s.data, s.result, fx + s.effects)
  }

  /** `resourceHelmReleaseDelete`. */
  function DeleteSpec(d: ResourceData, cfg: ProviderConfig, out: Outside): Step {
    match HelmOutcomeOf(cfg, out, UninstallArgs(d.config.namespace, d.config.name))
    case NoCommand(e) => Step(d, Err(TokenFailed(e)), [])
    case Rejected(argv) => Step(d, Err(UninstallFailed), [RunHelm(argv)])
    case Output(argv, _) => Step(d.(id := ""), Ok(()), [RunHelm(argv)])
  }


  // ---------------------------------------------------------------------------
  // Properties of the operations

  /** The values half of a read changes only the configured values and the
      flattened values. */
  lemma ReadValuesKeepsAttributes(d: ResourceData, cfg: ProviderConfig, out: Outside)
    ensures var s := ReadValuesSpec(d, cfg, out);
      s.data == d.(config := d.config.(values := s.data.config.values), releaseValues := s.data.releaseValues)
  {
    var user := UserValuesStage(d.config, cfg, out).0;
    if user.Ok? {
      var all := AllValuesStage(d.config, cfg, out).0;
      var d1 := d.(config := d.config.(values := user.value));
      assert ReadValuesSpec(d, cfg, out).data == if all.Err? then d1 else d1.(releaseValues := all.value);
    }
  }

  /** A read never changes the id, and of the configuration only the values. */
  lemma ReadKeepsIdentity(d: ResourceData, cfg: ProviderConfig, out: Outside)
    ensures var s := ReadSpec(d, cfg, out);
      s.data.id == d.id && s.data.config == d.config.(values := s.data.config.values)
  {
    var (first, fx) := ListStage(d.config, cfg, out);
    if first.Ok? {
      ReadValuesKeepsAttributes(Recorded(d, first.value), cfg, out);
    }
  }

  /** An empty release list is the error "failed to list Helm chart", and
      nothing is recorded. */
  lemma ReadEmptyListNotFound(d: ResourceData, cfg: ProviderConfig, out: Outside)
    requires var list := HelmOutcomeOf(cfg, out, ListArgs(d.config.namespace, d.config.name));
      list.Output? && out.decodeList(list.text) == Some([])
    ensures ReadSpec(d, cfg, out).result == Err(ReleaseNotFound(d.config.name))
    ensures ReadSpec(d, cfg, out).data == d
  {
  }

  /** Otherwise the first entry's revision, status, chart name and chart
      version are recorded, whatever happens to the values afterwards. */
  lemma ReadRecordsFirstEntry(d: ResourceData, cfg: ProviderConfig, out: Outside)
    requires var list := HelmOutcomeOf(cfg, out, ListArgs(d.config.namespace, d.config.name));
      list.Output? && out.decodeList(list.text).Some? && out.decodeList(list.text).value != []
    ensures var list := HelmOutcomeOf(cfg, out, ListArgs(d.config.namespace, d.config.name));
      var first := out.decodeList(list.text).value[0];
      var s := ReadSpec(d, cfg, out);
      && s.data.revision == first.revision
      && s.data.status == first.status
      && (s.data.chartName, s.data.chartVersion) == SplitChart(first.chart)
  {
    var first := ListStage(d.config, cfg, out).0.value;
    ReadValuesKeepsAttributes(Recorded(d, first), cfg, out);
  }

  /** A successful read stores the sanitised user values and the flattened
      release values, as the two `helm get values` commands reported them. */
  lemma ReadSuccess(d: ResourceData, cfg: ProviderConfig, out: Outside)
    requires ReadSpec(d, cfg, out).result.Ok?
    ensures var s := ReadSpec(d, cfg, out);
      var user := HelmOutcomeOf(cfg, out, UserValuesArgs(d.config.namespace, d.config.name));
      var all := HelmOutcomeOf(cfg, out, AllValuesArgs(d.config.namespace, d.config.name));
      && user.Output? && all.Output?
      && SanitizeYamlString(user.text, out.yamlRoundTrip) == Ok(s.data.config.values)
      && DecodeValues(out.unmarshal(all.text)).Ok?
      && s.data.releaseValues == Flatten(DecodeValues(out.unmarshal(all.text)).value, out.stringify)
  {
    var first := ListStage(d.config, cfg, out).0.value;
    var d1 := Recorded(d, first);
    assert d1.config == d.config;
  }

  /** A `helm list` or `helm get` command line. */
  predicate IsQuery(e: Effect) {
    e.RunHelm? && |e.argv| > 1 && (e.argv[1] == "list" || e.argv[1] == "get")
  }

  /** The command built for `args` carries the subcommand right after the
      binary. */
  lemma HelmOutcomeVerb(cfg: ProviderConfig, out: Outside, args: seq<string>)
    requires args != []
    ensures !HelmOutcomeOf(cfg, out, args).NoCommand? ==>
      var argv := HelmOutcomeOf(cfg, out, args).argv;
      |argv| > 1 && argv[1] == args[0]
  {
    var r := HelmCommandLine(cfg, args, out.execRun(args), out.unmarshal);
    if r.Ok? {
      assert r.value[1] == r.value[..1 + |args|][1];
    }
  }

  lemma UserValuesQueries(rel: ReleaseConfig, cfg: ProviderConfig, out: Outside)
    ensures forall e :: e in UserValuesStage(rel, cfg, out).1 ==> IsQuery(e)
  {
    var o := HelmOutcomeOf(cfg, out, UserValuesArgs(rel.namespace, rel.name));
    HelmOutcomeVerb(cfg, out, UserValuesArgs(rel.namespace, rel.name));
    assert UserValuesStage(rel, cfg, out).1 == if o.NoCommand? then [] else [RunHelm(o.argv)];
  }

  lemma AllValuesQueries(rel: ReleaseConfig, cfg: ProviderConfig, out: Outside)
    ensures forall e :: e in AllValuesStage(rel, cfg, out).1 ==> IsQuery(e)
  {
    var o := HelmOutcomeOf(cfg, out, AllValuesArgs(rel.namespace, rel.name));
    HelmOutcomeVerb(cfg, out, AllValuesArgs(rel.namespace, rel.name));
    assert AllValuesStage(rel, cfg, out).1 == if o.NoCommand? then [] else [RunHelm(o.argv)];
  }

  lemma ReadValuesQueries(d: ResourceData, cfg: ProviderConfig, out: Outside)
    ensures forall e :: e in ReadValuesSpec(d, cfg, out).effects ==> IsQuery(e)
  {
    UserValuesQueries(d.config, cfg, out);
    AllValuesQueries(d.config, cfg, out);
  }

  /** A read only queries: its effects are `helm list` and `helm get`
      commands, and it never clones, creates or writes anything. */
  lemma ReadOnlyQueries(d: ResourceData, cfg: ProviderConfig, out: Outside)
    ensures forall e :: e in ReadSpec(d, cfg, out).effects ==> IsQuery(e)
  {
    HelmOutcomeVerb(cfg, out, ListArgs(d.config.namespace, d.config.name));
    var (first, fx) := ListStage(d.config, cfg, out);
    assert forall e :: e in fx ==> IsQuery(e);
    if first.Ok? {
      ReadValuesQueries(Recorded(d, first.value), cfg, out);
    }
  }

  /** Writing the values file neither clones nor runs Helm. */
  lemma InstallStageOnlyWrites(rel: ReleaseConfig, isUpdate: bool, cfg: ProviderConfig, out: Outside)
    ensures forall e :: e in InstallStage(rel, isUpdate, cfg, out).1 ==> e.MakeDir? || e.WriteFile?
  {
  }

  /** The clone runs only for a Git source whose cache directory is absent,
      and it clones that repository and reference into that directory. */
  lemma CloneOnlyWhenAbsent(d: ResourceData, isUpdate: bool, cfg: ProviderConfig, out: Outside, dirs: set<string>, e: Effect)
    requires e.Clone? && e in CreateOrUpdateSpec(d, isUpdate, cfg, out, dirs).effects
    ensures var rel := d.config;
      var repoPath := RepoPath(cfg.cacheDir, rel.gitRepository, rel.gitReference);
      && rel.helmRepository == "" && repoPath !in dirs
      && e == Clone(CloneArgv(rel.gitRepository, rel.gitReference, repoPath))
  {
    var (git, fx) := GitStage(d.config, cfg, out, dirs);
    if git.Ok? {
      InstallNeverClones(d, isUpdate, cfg, out);
    }
    GitStageClones(d.config, cfg, out, dirs);
  }

  /** The Git branch clones only into an absent directory. */
  lemma GitStageClones(rel: ReleaseConfig, cfg: ProviderConfig, out: Outside, dirs: set<string>)
    ensures var repoPath := RepoPath(cfg.cacheDir, rel.gitRepository, rel.gitReference);
      forall e :: e in GitStage(rel, cfg, out, dirs).1 && e.Clone? ==>
        && rel.helmRepository == "" && repoPath !in dirs
        && e == Clone(CloneArgv(rel.gitRepository, rel.gitReference, repoPath))
  {
    if rel.helmRepository == "" {
      var (cloned, fx) := CloneStage(rel, cfg, out, dirs);
      CloneStageClones(rel, cfg, out, dirs);
      if cloned.Ok? {
        DependencyStageRunsHelm(rel, cfg, out);
        var fx2 := DependencyStage(rel, cfg, out).1;
        assert GitStage(rel, cfg, out, dirs).1 == fx + fx2;
      }
    }
  }

  lemma CloneStageClones(rel: ReleaseConfig, cfg: ProviderConfig, out: Outside, dirs: set<string>)
    ensures var repoPath := RepoPath(cfg.cacheDir, rel.gitRepository, rel.gitReference);
      forall e :: e in CloneStage(rel, cfg, out, dirs).1 && e.Clone? ==>
        repoPath !in dirs && e == Clone(CloneArgv(rel.gitRepository, rel.gitReference, repoPath))
  {
  }

  lemma DependencyStageRunsHelm(rel: ReleaseConfig, cfg: ProviderConfig, out: Outside)
    ensures forall e :: e in DependencyStage(rel, cfg, out).1 ==> e.RunHelm?
  {
  }

  /** Installing and reading back never clone. */
  lemma InstallNeverClones(d: ResourceData, isUpdate: bool, cfg: ProviderConfig, out: Outside)
    ensures forall e :: e in InstallSpec(d, isUpdate, cfg, out).effects ==> !e.Clone?
  {
    var s := InstallSpec(d, isUpdate, cfg, out);
    var (line, fx1) := InstallStage(d.config, isUpdate, cfg, out);
    InstallStageOnlyWrites(d.config, isUpdate, cfg, out);
    if line.Ok? && out.helm(line.value).Succeeded? {
      var d1 := d.(id := ReleaseId(d.config.namespace, d.config.name));
      var back := ReadSpec(d1, cfg, out).effects;
      ReadOnlyQueries(d1, cfg, out);
      assert s.effects == fx1 + [RunHelm(line.value)] + back;
      forall e | e in s.effects
        ensures !e.Clone?
      {
        assert e in fx1 || e == RunHelm(line.value) || e in back;
      }
    }
  }


  /** Conversely, a Git source whose cache directory is absent is cloned
      first, once the directory is created. */
  lemma CloneWhenAbsent(d: ResourceData, isUpdate: bool, cfg: ProviderConfig, out: Outside, dirs: set<string>)
    requires d.config.helmRepository == ""
    requires var repoPath := RepoPath(cfg.cacheDir, d.config.gitRepository, d.config.gitReference);
      repoPath !in dirs && out.canCreate(repoPath)
    ensures var rel := d.config;
      var repoPath := RepoPath(cfg.cacheDir, rel.gitRepository, rel.gitReference);
      var fx := CreateOrUpdateSpec(d, isUpdate, cfg, out, dirs).effects;
      |fx| >= 2 && fx[..2] == [MakeDir(repoPath), Clone(CloneArgv(rel.gitRepository, rel.gitReference, repoPath))]
  {
  }

  /** The Git branch builds the dependencies of the chart inside the cloned
      directory, without a bearer token. */
  lemma DependencyBuildInClone(rel: ReleaseConfig, cfg: ProviderConfig, out: Outside, dirs: set<string>)
    requires rel.helmRepository == ""
    requires GitStage(rel, cfg, out, dirs).0.Ok?
    ensures var repoPath := RepoPath(cfg.cacheDir, rel.gitRepository, rel.gitReference);
      var argv := HelmArgv(cfg, DependencyBuildArgs(PathJoin([repoPath, rel.chartPath])), "");
      var fx := GitStage(rel, cfg, out, dirs).1;
      fx != [] && fx[|fx| - 1] == RunHelm(argv)
  {
    var repoPath := RepoPath(cfg.cacheDir, rel.gitRepository, rel.gitReference);
    var args := DependencyBuildArgs(PathJoin([repoPath, rel.chartPath]));
    DependencyCommandsSkipToken(cfg, args, out.execRun(args), out.unmarshal);
  }

  /** What the install or upgrade runs is `InstallCommandLine`: with the
      values written to the file named after their hash when values are
      configured, and with no values file otherwise. */
  lemma InstallRunsInstallCommand(d: ResourceData, isUpdate: bool, cfg: ProviderConfig, out: Outside)
    requires InstallStage(d.config, isUpdate, cfg, out).0.Ok?
    ensures var rel := d.config;
      var valuesFile := ValuesFileStage(rel, cfg, out).0;
      var line := InstallStage(rel, isUpdate, cfg, out).0.value;
      && valuesFile.Ok?
      && (rel.values == "" ==> valuesFile.value == "")
      && (rel.values != "" ==> valuesFile.value == ValuesFilePath(cfg.cacheDir, rel.helmRepository, rel.gitReference,
                                                                  rel.name, ValuesHash(out.sha256(rel.values))))
      && (rel.values != "" ==> WriteFile(valuesFile.value, rel.values) in InstallStage(rel, isUpdate, cfg, out).1)
      && InstallCommandLine(cfg, rel, isUpdate, valuesFile.value, out.execRun(InstallArgs(rel, isUpdate)), out.unmarshal) == Ok(line)
      && RunHelm(line) in InstallSpec(d, isUpdate, cfg, out).effects
  {
    var rel := d.config;
    var (line, fx) := InstallStage(rel, isUpdate, cfg, out);
    var s := InstallSpec(d, isUpdate, cfg, out);
    assert s.effects[|fx|] == RunHelm(line.value);
  }

  /** Once the install or upgrade has run, the id is `namespace/name`, even
      when reading the release back fails afterwards. */
  lemma InstallSetsId(d: ResourceData, isUpdate: bool, cfg: ProviderConfig, out: Outside)
    requires var line := InstallStage(d.config, isUpdate, cfg, out).0;
      line.Ok? && out.helm(line.value).Succeeded?
    ensures InstallSpec(d, isUpdate, cfg, out).data.id == ReleaseId(d.config.namespace, d.config.name)
  {
    ReadKeepsIdentity(d.(id := ReleaseId(d.config.namespace, d.config.name)), cfg, out);
  }

  /** A successful create or update leaves the id `namespace/name`. */
  lemma CreateSetsId(d: ResourceData, isUpdate: bool, cfg: ProviderConfig, out: Outside, dirs: set<string>)
    requires CreateOrUpdateSpec(d, isUpdate, cfg, out, dirs).result.Ok?
    ensures CreateOrUpdateSpec(d, isUpdate, cfg, out, dirs).data.id == ReleaseId(d.config.namespace, d.config.name)
  {
    InstallSetsId(d, isUpdate, cfg, out);
  }

  /** A create or update that stops before the install or upgrade succeeded
      leaves the data as it was. */
  lemma FailedInstallKeepsData(d: ResourceData, isUpdate: bool, cfg: ProviderConfig, out: Outside, dirs: set<string>)
    requires var line := InstallStage(d.config, isUpdate, cfg, out).0;
      GitStage(d.config, cfg, out, dirs).0.Err? || line.Err? || out.helm(line.value).Exited?
    ensures CreateOrUpdateSpec(d, isUpdate, cfg, out, dirs).data == d
    ensures CreateOrUpdateSpec(d, isUpdate, cfg, out, dirs).result.Err?
  {
  }

  /** A delete whose `helm uninstall` succeeded clears the id; any other
      outcome leaves the data as it was. */
  lemma DeleteClearsId(d: ResourceData, cfg: ProviderConfig, out: Outside)
    ensures var s := DeleteSpec(d, cfg, out);
      && (s.result.Ok? <==> HelmOutcomeOf(cfg, out, UninstallArgs(d.config.namespace, d.config.name)).Output?)
      && (s.result.Ok? ==> s.data == d.(id := ""))
      && (s.result.Err? ==> s.data == d)
  {
  }

  // ---------------------------------------------------------------------------
  // The operations, step by step

  /** Builds one Helm command with the provider's builder and runs it. */
  method RunHelmCommand(cfg: ProviderConfig, out: Outside, args: seq<string>) returns (o: HelmOutcome)
    ensures o == HelmOutcomeOf(cfg, out, args)
  {
    var cmd := HelmCmd(cfg, args, out.execRun(args), out.unmarshal);
    if cmd.Err? {
      return NoCommand(cmd.error);
    }
    match out.helm(cmd.value)
    case Succeeded(text) => o := Output(cmd.value, text);
    case Exited => o := Rejected(cmd.value);
  }

  /** `helm list` and the checks on its output. */
  method ListRelease(rel: ReleaseConfig, cfg: ProviderConfig, out: Outside)
    returns (first: Result<ListEntry, ReleaseError>, effects: seq<Effect>)
    ensures (first, effects) == ListStage(rel, cfg, out)
  {
    var list := RunHelmCommand(cfg, out, ["list", "-n", rel.namespace, "-f", rel.name, "-o", "json"]);
    if list.NoCommand? {
      return Err(TokenFailed(list.cause)), [];
    }
    effects := [RunHelm(list.argv)];
    if list.Rejected? {
      return Err(ListFailed), effects;
    }
    var helmList := out.decodeList(list.text);
    if helmList.None? {
      return Err(ListUndecodable), effects;
    }
    if |helmList.value| == 0 {
      return Err(ReleaseNotFound(rel.name)), effects;
    }
    first := Ok(helmList.value[0]);
  }

  /** `helm get values -o yaml`, sanitised. */
  method GetUserValues(rel: ReleaseConfig, cfg: ProviderConfig, out: Outside)
    returns (values: Result<string, ReleaseError>, effects: seq<Effect>)
    ensures (values, effects) == UserValuesStage(rel, cfg, out)
  {
    var user := RunHelmCommand(cfg, out, ["get", "values", "-n", rel.namespace, rel.name, "-o", "yaml"]);
    if user.NoCommand? {
      return Err(TokenFailed(user.cause)), [];
    }
    effects := [RunHelm(user.argv)];
    if user.Rejected? {
      return Err(UserValuesFailed), effects;
    }
    var safeVal := SanitizeYamlString(user.text, out.yamlRoundTrip);
    if safeVal.Err? {
      return Err(SanitizeFailed), effects;
    }
    values := Ok(safeVal.value);
  }

  /** `helm get values -a -o json`, decoded and flattened. */
  method GetAllValues(rel: ReleaseConfig, cfg: ProviderConfig, out: Outside)
    returns (values: Result<map<string, string>, ReleaseError>, effects: seq<Effect>)
    ensures (values, effects) == AllValuesStage(rel, cfg, out)
  {
    var all := RunHelmCommand(cfg, out, ["get", "values", "-n", rel.namespace, rel.name, "-a", "-o", "json"]);
    if all.NoCommand? {
      return Err(TokenFailed(all.cause)), [];
    }
    effects := [RunHelm(all.argv)];
    if all.Rejected? {
      return Err(AllValuesFailed), effects;
    }
    var rawValues := DecodeValues(out.unmarshal(all.text));
    if rawValues.Err? {
      return Err(ValuesUndecodable), effects;
    }
    var flatValuesMap := JsonMapToStringMap(rawValues.value, out.stringify);
    values := Ok(flatValuesMap.value);
  }

  /** The Git branch of create-or-update. */
  method PrepareGitChart(rel: ReleaseConfig, cfg: ProviderConfig, out: Outside, dirs: set<string>)
    returns (r: Result<(), ReleaseError>, effects: seq<Effect>)
    ensures (r, effects) == GitStage(rel, cfg, out, dirs)
  {
    if rel.helmRepository != "" {
      return Ok(()), [];
    }
    r, effects := CloneIntoCache(rel, cfg, out, dirs);
    if r.Err? {
      return;
    }
    var built;
    r, built := BuildDependencies(rel, cfg, out);
    effects := effects + built;
  }

  /** Creates the repository's cache directory and clones into it, unless the
      directory already exists. */
  method CloneIntoCache(rel: ReleaseConfig, cfg: ProviderConfig, out: Outside, dirs: set<string>)
    returns (r: Result<(), ReleaseError>, effects: seq<Effect>)
    ensures (r, effects) == CloneStage(rel, cfg, out, dirs)
  {
    var repoPath := RepoPath(cfg.cacheDir, rel.gitRepository, rel.gitReference);
    if repoPath in dirs {
      return Ok(()), [];
    }
    effects := [MakeDir(repoPath)];
    if !out.canCreate(repoPath) {
      return Err(MakeDirFailed(repoPath)), effects;
    }
    var cloneCmd := ["git", "clone", "--branch", rel.gitReference, rel.gitRepository, repoPath];
    effects := [MakeDir(repoPath), Clone(cloneCmd)];
    if !out.cloneSucceeds(cloneCmd) {
      return Err(CloneFailed), effects;
    }
    r := Ok(());
  }

  /** `helm dependency build` on the chart inside the clone. */
  method BuildDependencies(rel: ReleaseConfig, cfg: ProviderConfig, out: Outside)
    returns (r: Result<(), ReleaseError>, effects: seq<Effect>)
    ensures (r, effects) == DependencyStage(rel, cfg, out)
  {
    var repoPath := RepoPath(cfg.cacheDir, rel.gitRepository, rel.gitReference);
    var fullChartPath := PathJoin([repoPath, rel.chartPath]);
    var dep := RunHelmCommand(cfg, out, ["dependency", "build", "--logtostderr", fullChartPath]);
    match dep
    case NoCommand(cause) =>
      r, effects := Err(TokenFailed(cause)), [];
    case Rejected(argv) =>
      r, effects := Err(DependencyBuildFailed), [RunHelm(argv)];
    case Output(argv, _) =>
      r, effects := Ok(()), [RunHelm(argv)];
  }

  /** Writes the inline values, if any, to their file and gives its path
      ("" for none). */
  method WriteValuesFile(rel: ReleaseConfig, cfg: ProviderConfig, out: Outside)
    returns (r: Result<string, ReleaseError>, effects: seq<Effect>)
    ensures (r, effects) == ValuesFileStage(rel, cfg, out)
  {
    if rel.values == "" {
      return Ok(""), [];
    }
    var hashStr := ValuesHash(out.sha256(rel.values));
    var valuesPath := ValuesDir(cfg.cacheDir, rel.helmRepository, rel.gitReference);
    effects := [MakeDir(valuesPath)];
    if !out.canCreate(valuesPath) {
      return Err(MakeDirFailed(valuesPath)), effects;
    }
    var valuesFilePath := PathJoin([valuesPath, ValuesFileName(rel.name, hashStr)]);
    effects := [MakeDir(valuesPath), WriteFile(valuesFilePath, rel.values)];
    if !out.canCreate(valuesFilePath) {
      return Err(ValuesFileFailed), effects;
    }
    r := Ok(valuesFilePath);
  }

  /** The install or upgrade command: `HelmCmd`, then the values file and the
      release flags. */
  method BuildInstallCommand(rel: ReleaseConfig, isUpdate: bool, cfg: ProviderConfig, out: Outside)
    returns (r: Result<seq<string>, ReleaseError>, effects: seq<Effect>)
    ensures (r, effects) == InstallStage(rel, isUpdate, cfg, out)
  {
    var fullChartPath := PathJoin([rel.helmRepository, rel.chartPath]);
    var cmd := "install";
    if isUpdate {
      cmd := "upgrade";
    }
    var helmArgs := [cmd, rel.name, fullChartPath];
    var helmCmd := HelmCmd(cfg, helmArgs, out.execRun(helmArgs), out.unmarshal);
    if helmCmd.Err? {
      return Err(TokenFailed(helmCmd.error)), [];
    }
    var valuesFile;
    valuesFile, effects := WriteValuesFile(rel, cfg, out);
    if valuesFile.Err? {
      return Err(valuesFile.error), effects;
    }
    var args := AppendReleaseFlags(helmCmd.value, rel, valuesFile.value);
    r := Ok(args);
  }

  class Resource {
    var config: ReleaseConfig
    var id: string
    var chartName: string
    var chartVersion: string
    var revision: string
    var status: string
    var releaseValues: map<string, string>

    function Data(): ResourceData
      reads this
    {
      ResourceData(config, id, chartName, chartVersion, revision, status, releaseValues)
    }

    /** A resource as planned: configured, not yet created. */
    constructor(config: ReleaseConfig)
      ensures Data() == ResourceData(config, "", "", "", "", "", map[])
    {
      this.config := config;
      id := "";
      chartName := "";
      chartVersion := "";
      revision := "";
      status := "";
      releaseValues := map[];
    }

    /** The values half of `resourceHelmReleaseRead`. */
    method ReadValues(cfg: ProviderConfig, out: Outside) returns (r: Result<(), ReleaseError>, effects: seq<Effect>)
      modifies this
      ensures Step(Data(), r, effects) == ReadValuesSpec(old(Data()), cfg, out)
    {
      var rel := config;
      var user, fx := GetUserValues(rel, cfg, out);
      if user.Err? {
        return Err(user.error), fx;
      }
      config := config.(values := user.value);
      var all, fx2 := GetAllValues(rel, cfg, out);
      effects := fx + fx2;
      if all.Err? {
        return Err(all.error), effects;
      }
      releaseValues := all.value;
      r := Ok(());
    }

    /** `resourceHelmReleaseRead`. */
    method Read(cfg: ProviderConfig, out: Outside) returns (r: Result<(), ReleaseError>, effects: seq<Effect>)
      modifies this
      ensures Step(Data(), r, effects) == ReadSpec(old(Data()), cfg, out)
    {
      var helmChart, fx := ListRelease(config, cfg, out);
      if helmChart.Err? {
        return Err(helmChart.error), fx;
      }
      var chartParts := Split(helmChart.value.chart, '-');
      chartVersion := chartParts[|chartParts| - 1];
      chartName := JoinWith(chartParts[..|chartParts| - 1], "-");
      revision := helmChart.value.revision;
      status := helmChart.value.status;
      assert Data() == Recorded(old(Data()), helmChart.value);
      var rest;
      r, rest := ReadValues(cfg, out);
      effects := fx + rest;
    }

    /** `resourceHelmReleaseCreateOrUpdate`; `dirs` are the directories that
        already exist. */
    method CreateOrUpdate(cfg: ProviderConfig, out: Outside, isUpdate: bool, dirs: set<string>)
      returns (r: Result<(), ReleaseError>, effects: seq<Effect>)
      modifies this
      ensures Step(Data(), r, effects) == CreateOrUpdateSpec(old(Data()), isUpdate, cfg, out, dirs)
    {
      var rel := config;
      var git, fx := PrepareGitChart(rel, cfg, out, dirs);
      if git.Err? {
        return git, fx;
      }
      var helmCmd, written := BuildInstallCommand(rel, isUpdate, cfg, out);
      if helmCmd.Err? {
        return Err(helmCmd.error), fx + written;
      }
      var ran := written + [RunHelm(helmCmd.value)];
      if out.helm(helmCmd.value).Exited? {
        return Err(InstallFailed), fx + ran;
      }
      id := ReleaseId(rel.namespace, rel.name);
      var readBack;
      r, readBack := Read(cfg, out);
      effects := fx + (ran + readBack);
    }

    /** `resourceHelmReleaseDelete`. */
    method Delete(cfg: ProviderConfig, out: Outside) returns (r: Result<(), ReleaseError>, effects: seq<Effect>)
      modifies this
      ensures Step(Data(), r, effects) == DeleteSpec(old(Data()), cfg, out)
    {
      var uninstall := RunHelmCommand(cfg, out, ["uninstall", config.name, "--namespace", config.namespace]);
      if uninstall.NoCommand? {
        return Err(TokenFailed(uninstall.cause)), [];
      }
      effects := [RunHelm(uninstall.argv)];
      if uninstall.Rejected? {
        return Err(UninstallFailed), effects;
      }
      id := "";
      r := Ok(());
    }
  }
}
