/** The pure parts of the `terrahelm_release` resource: the rule on the chart
    source, the derived paths, the chart-string split, the timeout rule and the
    Helm argument vectors of each operation. */
module Release {
  import opened Results
  import opened Strings
  import opened Flags
  import opened JsonString
  import opened KubeToken
  import opened Json
  import opened HelmCommand

  /** The configuration of one release resource. */
  datatype ReleaseConfig = ReleaseConfig(
    name: string,
    helmRepository: string,
    gitRepository: string,
    gitReference: string,
    chartPath: string,
    namespace: string,
    createNamespace: bool,
    chartVersion: string,
    values: string,
    wait: bool,
    atomic: bool,
    timeout: string)

  // ---------------------------------------------------------------------------
  // The source rule of CustomizeDiff

  datatype SourceError =
    | NeitherSource   // "either 'git_repository' or 'helm_repository' must be set"
    | BothSources     // "only one of 'git_repository' or 'helm_repository' can be set"

  /** A chart comes from exactly one of a Git repository and a Helm repository
      (an empty string counts as not set). */
  function CheckSource(gitRepository: string, helmRepository: string): (r: Option<SourceError>)
    ensures r.None? <==> (gitRepository == "") != (helmRepository == "")
    ensures r == Some(NeitherSource) <==> gitRepository == "" && helmRepository == ""
    ensures r == Some(BothSources) <==> gitRepository != "" && helmRepository != ""
  {
    if gitRepository == "" && helmRepository == "" then Some(NeitherSource)
    else if gitRepository != "" && helmRepository != "" then Some(BothSources)
    else None
  }

  // ---------------------------------------------------------------------------
  // The timeout rule

  predicate IsDigit(c: char) {
    '0' <= c <= '9'
  }

  predicate AllDigits(s: string) {
    forall i :: 0 <= i < |s| ==> IsDigit(s[i])
  }

  /** The decimal value of a run of digits. */
  function DigitsValue(s: string): nat
    requires AllDigits(s)
  {
    if s == [] then 0 else DigitsValue(s[..|s| - 1]) * 10 + (s[|s| - 1] as int - '0' as int)
  }

  const MaxInt := 0x7FFF_FFFF_FFFF_FFFF

  /** Go's `strconv.Atoi` on a 64-bit platform succeeds: an optional sign, at
      least one ASCII digit and nothing else, within the range of a 64-bit
      integer. */
  predicate ParsesAsInt(s: string) {
    var signed := |s| > 0 && (s[0] == '+' || s[0] == '-');
    var digits := if signed then s[1..] else s;
    && digits != []
    && AllDigits(digits)
    && DigitsValue(digits) <= (if signed && s[0] == '-' then MaxInt + 1 else MaxInt)
  }

  /** The value passed with `--timeout`: a bare integer is taken as seconds and
      gets an `s`, anything else is passed as it is; "" means no flag. */
  function NormalizeTimeout(timeout: string): (r: string)
    ensures r == "" <==> timeout == ""
    ensures ParsesAsInt(timeout) ==> r == timeout + "s"
    ensures !ParsesAsInt(timeout) ==> r == timeout
  {
    if timeout != "" && ParsesAsInt(timeout) then timeout + "s" else timeout
  }

  /** A normalised timeout never parses as an integer, so normalising twice
      changes nothing. */
  lemma NormalizeTimeoutIdempotent(timeout: string)
    ensures !ParsesAsInt(NormalizeTimeout(timeout))
    ensures NormalizeTimeout(NormalizeTimeout(timeout)) == NormalizeTimeout(timeout)
  {
    var r := NormalizeTimeout(timeout);
    if ParsesAsInt(timeout) {
      var signed := |r| > 0 && (r[0] == '+' || r[0] == '-');
      var digits := if signed then r[1..] else r;
      assert digits[|digits| - 1] == 's';
    }
  }

  lemma NormalizeTimeoutExamples()
    ensures NormalizeTimeout("60") == "60s"
    ensures NormalizeTimeout("-5") == "-5s"
    ensures NormalizeTimeout("5m") == "5m"
    ensures NormalizeTimeout("") == ""
  {
    assert AllDigits("60") && DigitsValue("60") == 60 by {
      assert "60"[..1] == "6";
    }
    assert "-5"[1..] == "5";
    assert !IsDigit("5m"[1]);
  }

  // ---------------------------------------------------------------------------
  // The values file

  newtype byte = x: int | 0 <= x < 256

  /** A SHA-256 digest. */
  type Digest = d: seq<byte> | |d| == 32 witness seq(32, _ => 0 as byte)

  /** Go's `hex.EncodeToString`: two lower-case digits per byte. */
  function HexEncode(bytes: seq<byte>): (h: string)
    ensures |h| == 2 * |bytes|
    ensures forall i :: 0 <= i < |h| ==> ('0' <= h[i] <= '9') || ('a' <= h[i] <= 'f')
  {
    if bytes == [] then ""
    else
      var b := bytes[0] as int;
      [HexDigit(b / 16), HexDigit(b % 16)] + HexEncode(bytes[1..])
  }

  /** Go's `hex.DecodeString`: None for an odd length or a non-hex digit. */
  function HexDecode(h: string): (r: Option<seq<byte>>)
    ensures r.Some? ==> 2 * |r.value| == |h|
    decreases |h|
  {
    if h == "" then Some([])
    else if |h| == 1 then None
    else match (HexValue(h[0]), HexValue(h[1]), HexDecode(h[2..]))
      case (Some(hi), Some(lo), Some(rest)) => Some([(hi * 16 + lo) as byte] + rest)
      case _ => None
  }

  /** Decoding the encoding gives the bytes back. */
  lemma {:induction false} HexRoundTrip(bytes: seq<byte>)
    ensures HexDecode(HexEncode(bytes)) == Some(bytes)
  {
    if bytes != [] {
      var b := bytes[0] as int;
      var h := HexEncode(bytes);
      HexDigitValue(b / 16);
      HexDigitValue(b % 16);
      HexRoundTrip(bytes[1..]);
      assert h[2..] == HexEncode(bytes[1..]);
      assert [bytes[0]] + bytes[1..] == bytes;
    }
  }

  /** The hash written into the values file name: the first eight bytes of the
      SHA-256 digest of the values, in hexadecimal. */
  function ValuesHash(digest: Digest): (h: string)
    ensures |h| == 16
  {
    HexEncode(digest[..8])
  }

  /** The name is sixteen hex digits that decode to the first half of the
      digest. */
  lemma ValuesHashDecodes(digest: Digest)
    ensures HexDecode(ValuesHash(digest)) == Some(digest[..8])
  {
    HexRoundTrip(digest[..8]);
  }

  /** The directory of inline values files: `<cacheDir>/values/<repoName>`, then
      the Git reference or, failing that, the repository name again. */
  function ValuesDir(cacheDir: string, repoName: string, gitReference: string): string {
    var base := PathJoin([cacheDir, "values", repoName]);
    if gitReference != "" then PathJoin([base, gitReference])
    else if repoName != "" then PathJoin([base, repoName])
    else base
  }

  function ValuesFileName(name: string, hash: string): string {
    name + "-" + hash + "-values.yaml"
  }

  function ValuesFilePath(cacheDir: string, repoName: string, gitReference: string, name: string, hash: string): string {
    PathJoin([ValuesDir(cacheDir, repoName, gitReference), ValuesFileName(name, hash)])
  }

  /** Joining two elements, the second not empty. */
  lemma PathJoinPair(a: string, b: string)
    requires b != ""
    ensures PathJoin([a, b]) == if a == "" then b else a + "/" + b
  {
    assert [a, b][1..] == [b];
    assert NonEmpty([b]) == [b] + NonEmpty([]);
    assert JoinWith([b], "/") == b;
    if a != "" {
      assert NonEmpty([a, b]) == [a] + NonEmpty([b]) == [a, b];
      assert JoinWith([a, b], "/") == a + "/" + JoinWith([b], "/");
    }
  }

  /** Joining a non-empty element onto a joined path joins it with the others. */
  lemma {:induction false} PathJoinSnoc(elems: seq<string>, x: string)
    requires x != ""
    ensures PathJoin([PathJoin(elems), x]) == PathJoin(elems + [x])
  {
    NonEmptySnoc(elems, x);
    var parts := NonEmpty(elems);
    PathJoinPair(PathJoin(elems), x);
    if parts == [] {
      assert NonEmpty([x]) == [x] + NonEmpty([]);
    } else {
      JoinNonEmpty(parts);
      JoinSnoc(parts, x, "/");
    }
  }

  lemma {:induction false} NonEmptySnoc(elems: seq<string>, x: string)
    requires x != ""
    ensures NonEmpty(elems + [x]) == NonEmpty(elems) + [x]
  {
    if elems == [] {
      assert NonEmpty([x]) == [x] + NonEmpty([]);
    } else {
      assert (elems + [x])[1..] == elems[1..] + [x];
      NonEmptySnoc(elems[1..], x);
    }
  }

  /** Joining non-empty parts gives a non-empty string. */
  lemma JoinNonEmpty(parts: seq<string>)
    requires parts != [] && forall i :: 0 <= i < |parts| ==> parts[i] != ""
    ensures JoinWith(parts, "/") != ""
  {
    if |parts| > 1 {
      assert |JoinWith(parts, "/")| >= |parts[0]|;
    }
  }

  /** The full layout: `<cacheDir>/values/<repoName>/<gitReference, else
      repoName>/<name>-<hash>-values.yaml`, empty elements skipped. */
  lemma ValuesFileLayout(cacheDir: string, repoName: string, gitReference: string, name: string, hash: string)
    ensures ValuesFilePath(cacheDir, repoName, gitReference, name, hash)
      == PathJoin([cacheDir, "values", repoName, if gitReference != "" then gitReference else repoName,
                   ValuesFileName(name, hash)])
  {
    var base := [cacheDir, "values", repoName];
    var sub := if gitReference != "" then gitReference else repoName;
    var file := ValuesFileName(name, hash);
    if sub != "" {
      PathJoinSnoc(base, sub);
      PathJoinSnoc(base + [sub], file);
      assert base + [sub] + [file] == [cacheDir, "values", repoName, sub, file];
    } else {
      NonEmptySnoc(base, file);
      NonEmptySnoc(base + [""], file);
      assert NonEmpty(base + [""]) == NonEmpty(base) by {
        NonEmptyDropsEmpty(base);
      }
      PathJoinSnoc(base, file);
      assert base + [""] + [file] == [cacheDir, "values", repoName, sub, file];
    }
  }

  lemma {:induction false} NonEmptyDropsEmpty(elems: seq<string>)
    ensures NonEmpty(elems + [""]) == NonEmpty(elems)
  {
    if elems == [] {
      assert NonEmpty([""]) == NonEmpty([""][1..]);
    } else {
      assert (elems + [""])[1..] == elems[1..] + [""];
      NonEmptyDropsEmpty(elems[1..]);
    }
  }

  /** Different contents give different files: two hashes of the same length
      name different files in the same directory. */
  lemma ValuesPathSeparatesHashes(cacheDir: string, repoName: string, gitReference: string, name: string,
                                  h1: string, h2: string)
    requires |h1| == |h2| && h1 != h2
    ensures ValuesFilePath(cacheDir, repoName, gitReference, name, h1)
      != ValuesFilePath(cacheDir, repoName, gitReference, name, h2)
  {
    var dir := ValuesDir(cacheDir, repoName, gitReference);
    var f1, f2 := ValuesFileName(name, h1), ValuesFileName(name, h2);
    assert f1[|name| + 1..|name| + 1 + |h1|] == h1;
    assert f2[|name| + 1..|name| + 1 + |h2|] == h2;
    var p1 := ValuesFilePath(cacheDir, repoName, gitReference, name, h1);
    var p2 := ValuesFilePath(cacheDir, repoName, gitReference, name, h2);
    PathJoinPair(dir, f1);
    PathJoinPair(dir, f2);
    if dir != "" {
      assert p1[|dir| + 1..] == f1 && p2[|dir| + 1..] == f2;
    }
  }

  // ---------------------------------------------------------------------------
  // The Git cache

  /** The last segment of the repository URL. */
  function GitRepoName(gitRepository: string): string {
    gitRepository[LastIndexOf(gitRepository, '/') + 1..]
  }

  /** The name is the part of the URL after its last '/', or the whole URL
      when it has none. */
  lemma GitRepoNameIsLastSegment(gitRepository: string)
    ensures var r := GitRepoName(gitRepository);
      && '/' !in r
      && |r| <= |gitRepository| && r == gitRepository[|gitRepository| - |r|..]
      && ('/' in gitRepository ==> |r| < |gitRepository| && gitRepository[|gitRepository| - |r| - 1] == '/')
      && ('/' !in gitRepository ==> r == gitRepository)
  {
    var i := LastIndexOf(gitRepository, '/');
    LastIndexOfIsLast(gitRepository, '/');
    NoneAfter(gitRepository, '/', i);
  }

  /** Where the repository is cloned: `<cacheDir>/repos/<repository name>/<reference>`. */
  function RepoPath(cacheDir: string, gitRepository: string, gitReference: string): string {
    PathJoin([cacheDir, "repos", GitRepoName(gitRepository), gitReference])
  }

  /** The clone command; it runs the `git` found on the search path. */
  function CloneArgv(gitRepository: string, gitReference: string, repoPath: string): seq<string> {
    ["git", "clone", "--branch", gitReference, gitRepository, repoPath]
  }

  /** Whatever precedes the last '/', the name is what follows it. */
  lemma GitRepoNameAfterSlash(prefix: string, name: string)
    requires '/' !in name
    ensures GitRepoName(prefix + "/" + name) == name
  {
    LastIndexAfter(prefix, '/', name);
    assert (prefix + "/" + name)[|prefix| + 1..] == name;
  }

  lemma GitRepoNameExample()
    ensures GitRepoName("https://github.com/helm/charts.git") == "charts.git"
  {
    assert "https://github.com/helm/charts.git" == "https://github.com/helm" + "/" + "charts.git";
    GitRepoNameAfterSlash("https://github.com/helm", "charts.git");
  }

  // ---------------------------------------------------------------------------
  // The chart string of `helm list`

  /** The name and version of a `<name>-<version>` chart string: the version is
      what follows the last '-', the name what precedes it ("" when there is no
      '-'). */
  function SplitChart(chart: string): (string, string) {
    var parts := Split(chart, '-');
    (JoinWith(parts[..|parts| - 1], "-"), parts[|parts| - 1])
  }

  /** Splitting `a + [sep] + b` with no `sep` in `b` splits `a` and adds `b`. */
  lemma {:induction false} SplitSnoc(a: string, sep: char, b: string)
    requires sep !in b
    ensures Split(a + [sep] + b, sep) == Split(a, sep) + [b]
    decreases |a|
  {
    if IndexOf(a, sep) < 0 {
      SplitSnocLastSeparator(a, sep, b);
    } else {
      var head, tail := SplitStep(a, sep, b);
      SplitSnoc(tail, sep, b);
      ConsSnoc(head, Split(tail, sep), b);
    }
  }

  lemma ConsSnoc<T>(x: T, s: seq<T>, y: T)
    ensures [x] + (s + [y]) == ([x] + s) + [y]
  {
  }

  /** With no `sep` in `a` either, the split has the two pieces `a` and `b`. */
  lemma SplitSnocLastSeparator(a: string, sep: char, b: string)
    requires sep !in b && IndexOf(a, sep) < 0
    ensures Split(a + [sep] + b, sep) == Split(a, sep) + [b]
  {
    var s := a + [sep] + b;
    IndexOfIsFirst(a, sep);
    IndexAfterPrefix(a, sep, b);
    assert s[..|a|] == a && s[|a| + 1..] == b;
    assert IndexOf(b, sep) < 0;
  }

  /** When `a` holds `sep`, its first piece comes off the same way whatever
      follows it. */
  lemma SplitStep(a: string, sep: char, b: string) returns (head: string, tail: string)
    requires IndexOf(a, sep) >= 0
    ensures |tail| < |a|
    ensures Split(a, sep) == [head] + Split(tail, sep)
    ensures Split(a + [sep] + b, sep) == [head] + Split(tail + [sep] + b, sep)
  {
    var i := IndexOf(a, sep);
    head, tail := a[..i], a[i + 1..];
    var x := [sep] + b;
    IndexOfKeptByAppend(a, x, sep);
    assert a + [sep] + b == a + x;
    assert (a + x)[..i] == head;
    assert (a + x)[i + 1..] == tail + [sep] + b;
  }

  /** A chart string with a '-' splits at its last '-', and the two parts
      rebuild it. */
  lemma SplitChartAtLastHyphen(name: string, version: string)
    requires '-' !in version
    ensures SplitChart(name + "-" + version) == (name, version)
  {
    SplitSnoc(name, '-', version);
    var parts := Split(name + "-" + version, '-');
    assert parts[..|parts| - 1] == Split(name, '-');
    JoinSplit(name, '-');
  }

  lemma SplitChartRebuilds(chart: string)
    requires '-' in chart
    ensures var (name, version) := SplitChart(chart); name + "-" + version == chart
  {
    var i := LastIndexOf(chart, '-');
    LastIndexOfIsLast(chart, '-');
    assert chart == chart[..i] + "-" + chart[i + 1..];
    var version := chart[i + 1..];
    assert '-' !in version by {
      forall j | 0 <= j < |version| ensures version[j] != '-' {
        assert version[j] == chart[i + 1 + j];
      }
    }
    SplitChartAtLastHyphen(chart[..i], version);
  }

  /** Without a '-' the whole string is the version and the name is empty. */
  lemma SplitChartWithoutHyphen(chart: string)
    requires '-' !in chart
    ensures SplitChart(chart) == ("", chart)
  {
    assert IndexOf(chart, '-') < 0;
  }

  lemma SplitChartExample()
    ensures SplitChart("nginx-13.2.32") == ("nginx", "13.2.32")
  {
    assert "nginx-13.2.32" == "nginx" + "-" + "13.2.32";
    SplitChartAtLastHyphen("nginx", "13.2.32");
  }

  // ---------------------------------------------------------------------------
  // Argument vectors

  function ListArgs(namespace: string, name: string): seq<string> {
    ["list", "-n", namespace, "-f", name, "-o", "json"]
  }

  function UserValuesArgs(namespace: string, name: string): seq<string> {
    ["get", "values", "-n", namespace, name, "-o", "yaml"]
  }

  function AllValuesArgs(namespace: string, name: string): seq<string> {
    ["get", "values", "-n", namespace, name, "-a", "-o", "json"]
  }

  function UninstallArgs(namespace: string, name: string): seq<string> {
    ["uninstall", name, "--namespace", namespace]
  }

  function DependencyBuildArgs(chartDir: string): seq<string> {
    ["dependency", "build", "--logtostderr", chartDir]
  }

  function InstallVerb(isUpdate: bool): (verb: string)
    ensures verb == "upgrade" <==> isUpdate
    ensures verb == "install" <==> !isUpdate
  {
    if isUpdate then "upgrade" else "install"
  }

  /** The chart the install command names: the Helm repository joined with the
      chart path. The Git branch of the source computes the path inside the
      clone into a variable of its own scope, so that path never reaches this
      command. */
  function InstallChart(rel: ReleaseConfig): string {
    PathJoin([rel.helmRepository, rel.chartPath])
  }

  function InstallArgs(rel: ReleaseConfig, isUpdate: bool): seq<string> {
    [InstallVerb(isUpdate), rel.name, InstallChart(rel)]
  }

  /** Only `helm dependency build` runs without the bearer token; every
      command that talks to the cluster resolves it. */
  lemma OnlyDependencyBuildSkipsToken(rel: ReleaseConfig, isUpdate: bool, chartDir: string)
    ensures NeedsKubeToken(InstallArgs(rel, isUpdate))
    ensures NeedsKubeToken(ListArgs(rel.namespace, rel.name))
    ensures NeedsKubeToken(UserValuesArgs(rel.namespace, rel.name))
    ensures NeedsKubeToken(AllValuesArgs(rel.namespace, rel.name))
    ensures NeedsKubeToken(UninstallArgs(rel.namespace, rel.name))
    ensures !NeedsKubeToken(DependencyBuildArgs(chartDir))
  {
    assert InstallVerb(isUpdate) != "dependency";
    assert "list" != "dependency" && "get" != "dependency" && "uninstall" != "dependency";
  }

  /** For a Git source the install command names the chart path alone (the
      Helm repository is empty), not the directory of the clone. */
  lemma GitSourceChartPath(rel: ReleaseConfig)
    requires rel.helmRepository == "" && rel.chartPath != ""
    ensures InstallChart(rel) == rel.chartPath
  {
    assert NonEmpty([rel.helmRepository, rel.chartPath]) == [rel.chartPath];
  }

  /** The release flags the install command may append, in the order of its
      `if`s; `valuesFile` is "" when no values are configured. */
  function InstallTable(rel: ReleaseConfig, valuesFile: string): seq<Entry> {
    [ IfNonEmpty("--namespace", rel.namespace),
      IfTrue("--create-namespace", rel.createNamespace),
      IfNonEmpty("--version", rel.chartVersion),
      IfNonEmpty("-f", valuesFile),
      IfTrue("--wait", rel.wait),
      IfTrue("--atomic", rel.atomic),
      IfNonEmpty("--timeout", NormalizeTimeout(rel.timeout)) ]
  }

  const InstallFlagOrder: seq<string> :=
    ["--namespace", "--create-namespace", "--version", "-f", "--wait", "--atomic", "--timeout"]

  lemma InstallTableNames(rel: ReleaseConfig, valuesFile: string)
    ensures Names(InstallTable(rel, valuesFile)) == InstallFlagOrder
  {
    var t := InstallTable(rel, valuesFile);
    assert forall i :: 0 <= i < 7 ==> t[i].name == InstallFlagOrder[i];
  }

  lemma InstallFlagsDistinct(rel: ReleaseConfig, valuesFile: string)
    ensures DistinctNames(InstallTable(rel, valuesFile))
  {
    var t := InstallTable(rel, valuesFile);
    forall i, j | 0 <= i < j < |t| ensures t[i].name != t[j].name {
      assert t[i].name == InstallFlagOrder[i] && t[j].name == InstallFlagOrder[j];
      assert |InstallFlagOrder[i]| != |InstallFlagOrder[j]| || InstallFlagOrder[i][2] != InstallFlagOrder[j][2];
    }
  }

  /** After Helm's own command (binary, verb, release, chart and connection
      flags), the install line is exactly the words of the emitted release
      flags, then `--logtostderr`. */
  lemma InstallFlagSegment(cfg: ProviderConfig, rel: ReleaseConfig, isUpdate: bool, valuesFile: string,
                           run: ExecRun, unmarshal: string -> Decoded)
    ensures var base := HelmCommandLine(cfg, InstallArgs(rel, isUpdate), run, unmarshal);
      base.Ok? ==> InstallCommandLine(cfg, rel, isUpdate, valuesFile, run, unmarshal)
                     == Ok(base.value + Render(Emitted(InstallTable(rel, valuesFile))) + ["--logtostderr"])
  {
    RenderEmitted(InstallTable(rel, valuesFile));
  }

  /** Each release flag is emitted exactly when it is set, and then with its
      setting as its value; the timeout is the normalised one. */
  lemma InstallFlagsPresence(cfg: ProviderConfig, rel: ReleaseConfig, isUpdate: bool, valuesFile: string,
                             run: ExecRun, unmarshal: string -> Decoded)
    ensures var base := HelmCommandLine(cfg, InstallArgs(rel, isUpdate), run, unmarshal);
      var flags := Emitted(InstallTable(rel, valuesFile));
      var emitted := Names(flags);
      && (base.Ok? ==> InstallCommandLine(cfg, rel, isUpdate, valuesFile, run, unmarshal)
                         == Ok(base.value + Render(flags) + ["--logtostderr"]))
      && ("--namespace" in emitted <==> rel.namespace != "")
      && ("--create-namespace" in emitted <==> rel.createNamespace)
      && ("--version" in emitted <==> rel.chartVersion != "")
      && ("-f" in emitted <==> valuesFile != "")
      && ("--wait" in emitted <==> rel.wait)
      && ("--atomic" in emitted <==> rel.atomic)
      && ("--timeout" in emitted <==> rel.timeout != "")
      && (rel.namespace != "" ==> Entry("--namespace", Valued(rel.namespace)) in flags)
      && (rel.createNamespace ==> Entry("--create-namespace", Bare) in flags)
      && (rel.chartVersion != "" ==> Entry("--version", Valued(rel.chartVersion)) in flags)
      && (valuesFile != "" ==> Entry("-f", Valued(valuesFile)) in flags)
      && (rel.wait ==> Entry("--wait", Bare) in flags)
      && (rel.atomic ==> Entry("--atomic", Bare) in flags)
      && (rel.timeout != "" ==> Entry("--timeout", Valued(NormalizeTimeout(rel.timeout))) in flags)
  {
    var t := InstallTable(rel, valuesFile);
    InstallFlagSegment(cfg, rel, isUpdate, valuesFile, run, unmarshal);
    InstallFlagsDistinct(rel, valuesFile);
    FlagEmittedIff(t, 0);
    FlagEmittedIff(t, 1);
    FlagEmittedIff(t, 2);
    FlagEmittedIff(t, 3);
    FlagEmittedIff(t, 4);
    FlagEmittedIff(t, 5);
    FlagEmittedIff(t, 6);
  }

  /** The emitted release flags keep the order of `InstallFlagOrder`: in an
      install line, which `InstallFlagSegment` shows is Helm's own command
      `base` followed by the words of the emitted flags and `--logtostderr`,
      the earlier flag's name sits at the earlier position. */
  lemma InstallFlagsInOrder(rel: ReleaseConfig, valuesFile: string, base: seq<string>, k: nat, l: nat)
    requires k < l < |Emitted(InstallTable(rel, valuesFile))|
    ensures var flags := Emitted(InstallTable(rel, valuesFile));
      var line := base + Render(flags) + ["--logtostderr"];
      var p, q := |base| + |Render(flags[..k])|, |base| + |Render(flags[..l])|;
      && p < q < |line| && line[p] == flags[k].name && line[q] == flags[l].name
      && exists i, j :: 0 <= i < j < |InstallFlagOrder| && flags[k].name == InstallFlagOrder[i] && flags[l].name == InstallFlagOrder[j]
  {
    InstallFlagNamesOrdered(rel, valuesFile, k, l);
    FlagsInLine(base, Emitted(InstallTable(rel, valuesFile)), ["--logtostderr"], k, l);
  }

  /** Two emitted release flags are named in the order of `InstallFlagOrder`. */
  lemma InstallFlagNamesOrdered(rel: ReleaseConfig, valuesFile: string, k: nat, l: nat)
    requires k < l < |Emitted(InstallTable(rel, valuesFile))|
    ensures var flags := Emitted(InstallTable(rel, valuesFile));
      exists i, j :: 0 <= i < j < |InstallFlagOrder| && flags[k].name == InstallFlagOrder[i] && flags[l].name == InstallFlagOrder[j]
  {
    var t := InstallTable(rel, valuesFile);
    var i, j := EmittedOrigins(t, k, l);
    InstallTableNames(rel, valuesFile);
    assert Names(t)[i] == t[i].name && Names(t)[j] == t[j].name;
  }

  /** The install or upgrade command line: Helm's own command with the
      connection flags, then the release flags, then `--logtostderr`. */
  function InstallCommandLine(cfg: ProviderConfig, rel: ReleaseConfig, isUpdate: bool, valuesFile: string,
                              run: ExecRun, unmarshal: string -> Decoded): (r: Result<seq<string>, TokenError>)
    ensures r.Ok? ==> |r.value| >= 4 && r.value[..4] == [cfg.helmBinPath, InstallVerb(isUpdate), rel.name, InstallChart(rel)]
    ensures r.Ok? ==> r.value[|r.value| - 1] == "--logtostderr"
    ensures r.Err? <==> HelmCommandLine(cfg, InstallArgs(rel, isUpdate), run, unmarshal).Err?
  {
    match HelmCommandLine(cfg, InstallArgs(rel, isUpdate), run, unmarshal)
    case Err(e) => Err(e)
    case Ok(argv) =>
      var flags := Render(InstallTable(rel, valuesFile));
      PrefixSurvivesAppend(argv, flags, [cfg.helmBinPath] + InstallArgs(rel, isUpdate));
      PrefixSurvivesAppend(argv + flags, ["--logtostderr"], [cfg.helmBinPath] + InstallArgs(rel, isUpdate));
      Ok(argv + flags + ["--logtostderr"])
  }

  // ---------------------------------------------------------------------------
  // The install log line

  /** What the resource logs before it runs the install or upgrade: the
      command line joined with spaces, exactly as it was built. */
  function InstallLogAsWritten(line: seq<string>): string {
    JoinWith(line, " ")
  }

  /** What it evidently means to log: the same line through the provider's
      redaction, as `helmCmdFunc` logs its own commands (`RedactHelmArgs`). */
  function InstallLogRedacted(line: seq<string>): string {
    JoinWith(RedactedArgs(line), " ")
  }

  /** Where a resolved token sits in the install line: right after
      `--kube-token`, which follows the binary, the install arguments and
      the first seven connection flags. */
  lemma InstallTokenPosition(cfg: ProviderConfig, rel: ReleaseConfig, isUpdate: bool, valuesFile: string,
                             run: ExecRun, unmarshal: string -> Decoded, token: string) returns (p: nat)
    requires ResolveKubeToken(cfg.kubeAuth, run, unmarshal) == Ok(token) && token != ""
    ensures var r := InstallCommandLine(cfg, rel, isUpdate, valuesFile, run, unmarshal);
      && r.Ok? && p + 1 < |r.value| && r.value[p] == TokenFlag && r.value[p + 1] == token
      && r.value[..p] == [cfg.helmBinPath] + InstallArgs(rel, isUpdate) + Render(AuthTable(cfg.kubeAuth, token)[..7])
  {
    var args := InstallArgs(rel, isUpdate);
    var argv := HelmArgv(cfg, args, token);
    var tail := Render(Emitted(InstallTable(rel, valuesFile))) + ["--logtostderr"];
    InstallLineOfToken(cfg, rel, isUpdate, valuesFile, run, unmarshal, token);
    p := TokenPosition(cfg, args, token);
    PrefixKept(argv, tail, p);
  }

  /** With a resolved token, the install line is Helm's own command carrying
      that token, then the release flags and `--logtostderr`. */
  lemma InstallLineOfToken(cfg: ProviderConfig, rel: ReleaseConfig, isUpdate: bool, valuesFile: string,
                           run: ExecRun, unmarshal: string -> Decoded, token: string)
    requires ResolveKubeToken(cfg.kubeAuth, run, unmarshal) == Ok(token)
    ensures InstallCommandLine(cfg, rel, isUpdate, valuesFile, run, unmarshal)
              == Ok(HelmArgv(cfg, InstallArgs(rel, isUpdate), token) + (Render(Emitted(InstallTable(rel, valuesFile))) + ["--logtostderr"]))
  {
    var args := InstallArgs(rel, isUpdate);
    var argv := HelmArgv(cfg, args, token);
    var flags := Render(Emitted(InstallTable(rel, valuesFile)));
    assert HelmCommandLine(cfg, args, run, unmarshal) == Ok(argv) by {
      OnlyDependencyBuildSkipsToken(rel, isUpdate, "");
      TokenFlagWhenResolved(cfg, args, run, unmarshal);
    }
    InstallFlagSegment(cfg, rel, isUpdate, valuesFile, run, unmarshal);
    assert argv + flags + ["--logtostderr"] == argv + (flags + ["--logtostderr"]);
  }

  /** Appending keeps every element before `p` and the two from `p` on. */
  lemma PrefixKept(a: seq<string>, b: seq<string>, p: nat)
    requires p + 1 < |a|
    ensures (a + b)[..p] == a[..p] && (a + b)[p] == a[p] && (a + b)[p + 1] == a[p + 1]
  {
    assert (a + b)[..p] == a[..p];
  }

  /** As written, the install log carries the bearer token: whenever a
      non-empty token is resolved, the logged text holds `--kube-token`
      followed by that token. */
  lemma InstallLogShowsToken(cfg: ProviderConfig, rel: ReleaseConfig, isUpdate: bool, valuesFile: string,
                             run: ExecRun, unmarshal: string -> Decoded, token: string)
    requires ResolveKubeToken(cfg.kubeAuth, run, unmarshal) == Ok(token) && token != ""
    ensures var r := InstallCommandLine(cfg, rel, isUpdate, valuesFile, run, unmarshal);
      r.Ok? && Occurs(TokenFlag + " " + token, InstallLogAsWritten(r.value))
  {
    var p := InstallTokenPosition(cfg, rel, isUpdate, valuesFile, run, unmarshal, token);
    var line := InstallCommandLine(cfg, rel, isUpdate, valuesFile, run, unmarshal).value;
    JoinShowsPair(line, p, " ");
  }

  /** Logged through the redaction, the token is masked: the element after
      the builder's `--kube-token` is `REDACTED`, and the logged text holds
      `--kube-token REDACTED`. The proviso is that of
      `HelmCommand.TokenHiddenInLog`: no bare `--kube-token` comes earlier. */
  lemma InstallLogHidesToken(cfg: ProviderConfig, rel: ReleaseConfig, isUpdate: bool, valuesFile: string,
                             run: ExecRun, unmarshal: string -> Decoded, token: string) returns (p: nat)
    requires ResolveKubeToken(cfg.kubeAuth, run, unmarshal) == Ok(token) && token != ""
    requires TokenFlag !in [cfg.helmBinPath] + InstallArgs(rel, isUpdate) + Render(AuthTable(cfg.kubeAuth, token)[..7])
    ensures var r := InstallCommandLine(cfg, rel, isUpdate, valuesFile, run, unmarshal);
      && r.Ok? && p + 1 < |r.value| && r.value[p] == TokenFlag && r.value[p + 1] == token
      && RedactedArgs(r.value)[p + 1] == RedactedValue
      && Occurs(TokenFlag + " " + RedactedValue, InstallLogRedacted(r.value))
  {
    p := InstallTokenPosition(cfg, rel, isUpdate, valuesFile, run, unmarshal, token);
    var line := InstallCommandLine(cfg, rel, isUpdate, valuesFile, run, unmarshal).value;
    TokenMaskedAt(line, p);
    JoinShowsPair(RedactedArgs(line), p, " ");
  }

  lemma PrefixSurvivesAppend<T>(a: seq<T>, b: seq<T>, h: seq<T>)
    requires |h| <= |a| && a[..|h|] == h
    ensures |a + b| >= |h| && (a + b)[..|h|] == h
  {
    assert (a + b)[..|h|] == a[..|h|];
  }

  /** The `if`s of the install command that follow `HelmCmd`, with the
      timeout rewritten in place before it is appended. */
  method AppendReleaseFlags(argv: seq<string>, rel: ReleaseConfig, valuesFile: string) returns (r: seq<string>)
    ensures r == argv + Render(InstallTable(rel, valuesFile)) + ["--logtostderr"]
  {
    var t := InstallTable(rel, valuesFile);
    assert t[..0] == [];
    r := argv;
    var k := 0;
    while k < 6
      invariant 0 <= k <= 6
      invariant r == argv + Render(t[..k])
    {
      var next := AppendFlag(r, t[k]);
      AppendedPrefix(argv, t, k, r, next);
      r := next;
      k := k + 1;
    }
    var next := r;
    var timeout := rel.timeout;
    if timeout != "" {
      if ParsesAsInt(timeout) {
        timeout := timeout + "s";
      }
      next := r + ["--timeout", timeout];
    }
    AppendedPrefix(argv, t, 6, r, next);
    assert t[..7] == t;
    r := next + ["--logtostderr"];
  }

  // ---------------------------------------------------------------------------
  // Identity

  /** The resource id of an installed release. */
  function ReleaseId(namespace: string, name: string): string {
    namespace + "/" + name
  }

  /** Namespaces cannot hold '/', so the id names one release. */
  lemma ReleaseIdInjective(ns1: string, name1: string, ns2: string, name2: string)
    requires '/' !in ns1 && '/' !in ns2
    requires ReleaseId(ns1, name1) == ReleaseId(ns2, name2)
    ensures ns1 == ns2 && name1 == name2
  {
    SeparatedPairInjective(ns1, name1, ns2, name2, '/');
  }
}
