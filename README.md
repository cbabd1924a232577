# terrahelm provider core, modelled in Dafny

A model of the core of `terraform-provider-terrahelm`, a Terraform provider
that installs Helm charts by running the `helm` binary. It covers two areas.

- **Provider side** (`provider/provider.go`):
  - how the bearer token for the Kubernetes API is resolved: a static
    `kube_token` wins; otherwise an exec-credential command is run and its
    output is parsed as a raw token, a JSON string, or a JSON document;
  - how the token is searched for in that document: preferred key paths
    first, then a depth-first scan, with keys compared case- and
    separator-insensitively;
  - the environment the exec-credential command runs in;
  - how `helmCmdFunc` appends the connection flags to a Helm command line;
  - how `redactHelmArgs` masks the token in the command line that
    `helmCmdFunc` logs.
- **Resource side** (`provider/resource_terrahelm_release.go`):
  - the `helm_release` resource: the rule that exactly one chart source is
    set;
  - the argument vectors of `helm list`, `get values`, `install`/`upgrade`,
    `uninstall` and `dependency build`, and timeout normalisation;
  - the Git cache directory and the clone-only-when-absent rule, and the
    hashed values-file path;
  - splitting the chart string into name and version;
  - flattening the release values into dotted keys;
  - the state changes of read, create-or-update and delete;
  - the install line the resource logs unredacted (see "## Findings").

Modules, one per file:

- `Results` holds `Option` and `Result`.
- `Json` is the decoded JSON tree. An object is a sequence of members, in
  the order Go walks that map. Properties are proved for every such order,
  with one order per object (see "## Left out").
- `JsonString` holds the `json.Marshal` string escaping and its decoder.
- `Strings` holds `TrimSpace`, `Split`/`Join`, index search and the
  slash-join of paths.
- `Flags` describes command-line flags that are appended only when set.
- `KubeToken` covers token resolution and search.
- `KubeExecEnv` builds the exec-credential environment.
- `HelmCommand` covers `helmCmdFunc`, `helmCommandNeedsKubeToken` and
  `redactHelmArgs`.
- `Release` holds the pure rules of the release resource.
- `ReleaseValues` holds `sanitizeYAMLString` and `jsonMapToStringMap`.
- `ReleaseResource` holds the resource operations.

The resource operations work as follows:

- Read, create-or-update and delete are specified as functions from the old
  resource data to a `Step`: the new data, the result, and the effects in the
  order they happen. An effect is a directory made, a clone, a file written,
  or a Helm command run.
- The class `Resource` holds the resource data as fields. Its methods update
  those fields stage by stage. Each method is proved to produce exactly the
  `Step` its specification function gives.
- Everything outside the program is a parameter, bundled in the `Outside`
  datatype:
  - what the exec-credential command prints, each time a Helm command runs
    it (given as a function of that command's arguments);
  - what `json.Unmarshal` gives;
  - whether Helm succeeds and what it prints;
  - whether a directory can be made and a clone succeeds;
  - the YAML round trip, `%v` formatting, and SHA-256.
- Which directories already exist is the set `dirs`.

Some facts of the code that the model records:

- The values-file hash is 16 hex digits: the first 8 bytes of the SHA-256
  digest.
- The Git cache directory is `<cacheDir>/repos/<last URL segment>/<reference>`.
- The clone runs only when that directory is absent. An existing directory
  is reused and never deleted.
- Key matching accepts exactly the keys whose lower-cased form, without `_`
  and `-`, is `token`, `accesstoken` or `idtoken`.

## Model

| member | source | states |
|---|---|---|
| KubeToken.ResolveKubeToken | provider/provider.go:311-319 | a non-empty static token is returned unchanged; no static token and no exec config gives `""` with no error; an exec config without a command fails with "command is required"; any non-empty token from exec is trimmed |
| KubeToken.ExecToken | provider/provider.go:329-360 | an empty command fails before anything runs; a failed run is a `RunFailed` error carrying the trimmed stderr; a completed run's trimmed stdout is parsed by `ParseKubeExecToken`; a successful token is non-empty and trimmed |
| KubeToken.LooksLikeJson | provider/provider.go:413-423 | output looks like JSON exactly when it starts with `{`, `[` or `"`; empty output does not |
| KubeToken.ParseKubeExecToken | provider/provider.go:383-411 | empty output is an error; output that does not look like JSON is returned verbatim; undecodable JSON is "not valid JSON"; any other failure is "missing token field"; a JSON-derived token is non-empty and trimmed |
| KubeToken.ParsedOutputToken | provider/provider.go:397-410 | for decoded JSON, parsing succeeds exactly when the document carries a token (a non-blank string, or a token-family key somewhere), and what it returns is carried by the document |
| KubeToken.JsonTokenIff | provider/provider.go:397-410 | a JSON string yields its trimmed self; any other document yields a token exactly when it carries one |
| KubeToken.NormalizeTokenKey | provider/provider.go:500-505 | the normal form has no `_`, no `-` and no upper-case letter, and is no longer than the key |
| KubeToken.NormalizeAppend | provider/provider.go:500-505 | normalisation works character by character: it distributes over concatenation |
| KubeToken.NormalizeFixes | provider/provider.go:500-505 | a key already in normal form is unchanged |
| KubeToken.NormalizeIdempotent | provider/provider.go:500-505 | normalising twice is normalising once |
| KubeToken.SeparatorInsensitive | provider/provider.go:502-503 | inserting `_` or `-` anywhere does not change the normal form |
| KubeToken.CaseInsensitive | provider/provider.go:501 | upper-casing any one letter does not change the normal form |
| KubeToken.TokenKeyByNormalForm | provider/provider.go:507-514 | token-family membership depends only on the normalised key |
| KubeToken.AccessTokenSpellings | provider/provider.go:437-443 | `accessToken` and `access_token` both normalise to `accesstoken` |
| KubeToken.IdTokenSpellings | provider/provider.go:439-445 | `idToken` and `id_token` both normalise to `idtoken` |
| KubeToken.PreferredPathsAllEnd | provider/provider.go:435-446 | every preferred path ends in a token-family key |
| KubeToken.GetByNormalizedKeyMeaning | provider/provider.go:490-498 | a lookup finds the value of the first member, in walking order, whose key has the same normal form, and finds nothing exactly when no key does |
| KubeToken.StringAtPath | provider/provider.go:470-488 | the value at a path is always whitespace-trimmed |
| KubeToken.GetStringByPath | provider/provider.go:470-488 | the loop that walks the path one key at a time computes exactly `StringAtPath` |
| KubeToken.PathStep | provider/provider.go:472-481 | a non-empty path result descends through a member whose key matches the first path element |
| KubeToken.StringAtPathSound | provider/provider.go:470-488 | a non-empty result of a path ending in a token-family key is a token the document carries |
| KubeToken.FirstPreferred | provider/provider.go:447-452 | the first non-empty preferred-path result is trimmed |
| KubeToken.FirstPreferredIsFirstNonEmpty | provider/provider.go:447-452 | the preferred-path search returns the first non-empty entry of the list of path results |
| KubeToken.PreferredFrom | provider/provider.go:447-452 | when path j is the first with a non-empty result, the search returns that result |
| KubeToken.PreferredPathWins | provider/provider.go:435-452 | for an object, the first preferred path with a non-blank value decides the token, whatever the scan would find |
| KubeToken.FirstPreferredSound | provider/provider.go:447-452 | a preferred-path result is a token the document carries |
| KubeToken.ExtractToken | provider/provider.go:425-468 | the extracted token is always whitespace-trimmed |
| KubeToken.ExtractFromItems | provider/provider.go:427-433 | the array search result is trimmed |
| KubeToken.ScanMembers | provider/provider.go:453-464 | the depth-first member scan result is trimmed |
| KubeToken.ExtractTokenSound | provider/provider.go:425-468 | a non-empty extracted token is the trimmed string value of some token-family key somewhere in the document |
| KubeToken.ItemsSound | provider/provider.go:427-433 | a token found in an array comes from one of its items |
| KubeToken.ScanSound | provider/provider.go:453-464 | a token found by the scan is a token-family member of the object or comes from inside a member's value |
| KubeToken.ExtractTokenComplete | provider/provider.go:425-468 | if any token-family key anywhere holds a non-blank string, extraction does not come back empty |
| KubeToken.ItemsComplete | provider/provider.go:427-433 | a token carried by any item is found by the array search |
| KubeToken.ScanComplete | provider/provider.go:453-464 | a token carried by any member is found by the scan |
| KubeToken.ExtractTokenEmptyIff | provider/provider.go:425-468 | extraction is empty exactly when the document carries no token, e.g. `{"kind":"ExecCredential"}` gives "missing token field" |
| KubeToken.FirstNonEmptyAt | provider/provider.go:447-452 | the first non-empty entry of a list is the entry at the first index that is non-empty |
| KubeToken.Yields | provider/provider.go:447-448 | the list of path results holds, for each preferred path, its `StringAtPath` |
| KubeExecEnv.BuildExecEnv | provider/provider.go:362-381 | the ambient environment is a prefix, unchanged; then one `KEY=VALUE` entry for each configured variable and nothing else; then the `KUBERNETES_EXEC_INFO` record exactly when an API version is set and the user did not supply that key |
| KubeExecEnv.ConfiguredEntries | provider/provider.go:364-366 | the loop over the configured variables yields one entry per variable, in some order that covers every key once |
| KubeExecEnv.Entries | provider/provider.go:364-366 | entry i is `key=value` for the i-th key walked |
| KubeExecEnv.EntriesCover | provider/provider.go:364-366 | when the keys walked cover the map, every variable has its entry and every entry belongs to a variable |
| KubeExecEnv.Layout | provider/provider.go:362-381 | the three parts of the environment sit at the stated offsets |
| KubeExecEnv.EntryPrefixNamesKey | provider/provider.go:365 | an entry starts with `key=` exactly when it is the entry of `key` |
| KubeExecEnv.EnvEntryInjective | provider/provider.go:365 | distinct variables give distinct entries, and an entry gives back its value |
| KubeExecEnv.ExecInfoCarriesApiVersion | provider/provider.go:368-376 | the synthesised record, kind `ExecCredential` and not interactive, gives back the configured API version whatever characters it holds |
| KubeExecEnv.ApiVersionOf | provider/provider.go:321-327 | reading a record back needs at least the fixed prefix and suffix of the marshalled `execInfo` |
| JsonString.UnescapeEscape | provider/provider.go:375 | decoding the string `json.Marshal` writes for the API version gives the version back |
| JsonString.EscapeIsSafe | provider/provider.go:375 | the escaped form holds no control character and none of `<`, `>`, `&`, U+2028, U+2029 |
| JsonString.EscapeChar | provider/provider.go:375 | each character is written as itself, a two-character escape, or a six-character `\u` escape |
| JsonString.UnescapeChar | provider/provider.go:375 | decoding undoes the escape of one character, whichever form it took |
| JsonString.HexDigitValue | provider/provider.go:375 | a hexadecimal digit reads back as its value |
| HelmCommand.HelmCmd | provider/provider.go:260-299 | the method that grows the argument list by successive appends computes `HelmCommandLine` |
| HelmCommand.HelmCommandLine | provider/provider.go:260-299 | a built command starts with the Helm binary and the given arguments; it fails only when the command needs a token, there is no static token and an exec config is set |
| HelmCommand.AppendConnectionFlags | provider/provider.go:263-283 | the seven connection `if`s append exactly the rendered connection flags |
| HelmCommand.AppendFlag | provider/provider.go:263-295 | one conditional append adds the flag's words, or nothing when it is unset |
| HelmCommand.AuthTableNames | provider/provider.go:263-295 | the auth flags are considered in the fixed order apiserver, as-user, as-group, ca-file, context, insecure-skip-tls-verify, tls-server-name, token, kubeconfig |
| HelmCommand.AuthFlagsDistinct | provider/provider.go:263-295 | the auth flags have distinct names |
| HelmCommand.AuthFlagSegment | provider/provider.go:260-295 | the command line is the binary, the arguments, then the words of the emitted connection flags one after the other, and nothing else |
| HelmCommand.AuthFlagsPresence | provider/provider.go:263-295 | after the binary and the arguments, the command line is exactly the words of the emitted connection flags; each flag is emitted exactly when its setting is non-empty (or true), and then with that setting as its value; `--kube-token` is emitted exactly when the token passed is non-empty, with that token as its value |
| HelmCommand.AuthFlagsInOrder | provider/provider.go:263-295 | of two emitted connection flags, the one earlier in the fixed order has its name at the earlier position of the command line, each at the position where its words start |
| HelmCommand.AuthFlagNamesOrdered | provider/provider.go:263-295 | two emitted connection flags are named in the fixed order |
| HelmCommand.DependencyCommandsSkipToken | provider/provider.go:284-292 | for an empty argument list or a `dependency` command, no token is resolved, none is passed, and building never fails |
| HelmCommand.TokenFlagWhenResolved | provider/provider.go:284-292 | for other commands, building fails exactly when resolution fails; otherwise the words after the arguments are the emitted connection flags, and they hold `--kube-token` with the resolved token as its value exactly when that token is non-empty |
| HelmCommand.StaticTokenFollowsFlag | provider/provider.go:284-292 | with a static token, the command line holds `--kube-token` followed by that token |
| HelmCommand.TokenPosition | provider/provider.go:263-292 | the token flag comes after the binary, the arguments and the seven connection flags, and is followed by the token |
| HelmCommand.RedactedArgs | provider/provider.go:516-532 | redaction keeps the number of arguments |
| HelmCommand.MaskTokens | provider/provider.go:520-529 | the index-skipping loop over the copied array leaves it equal to `RedactedArgs` of the original |
| HelmCommand.RedactHelmArgs | provider/provider.go:516-532 | the logged line is the redacted copy joined with spaces; the input is not modified |
| HelmCommand.RedactedFrom | provider/provider.go:520-529 | one step of the loop: `--kube-token=…` becomes `--kube-token=REDACTED`, a bare `--kube-token` keeps itself and masks the next element, anything else is kept |
| HelmCommand.RedactionKeepsOthers | provider/provider.go:520-529 | every element is kept, unless it is a `--kube-token=` assignment or follows a bare `--kube-token` |
| HelmCommand.RedactedIsClean | provider/provider.go:520-529 | after redaction, every element after a bare `--kube-token` is `REDACTED` and every `--kube-token=` element is `--kube-token=REDACTED` |
| HelmCommand.RedactAppend | provider/provider.go:520-529 | redaction of a concatenation whose first part holds no bare `--kube-token` is the concatenation of the redactions |
| HelmCommand.TokenHiddenInLog | provider/provider.go:284-297 | the token the builder passes is masked in the line `helmCmdFunc` logs, provided no bare `--kube-token` appears among the binary, the arguments and the first seven connection flags |
| HelmCommand.TokenMaskedAt | provider/provider.go:520-529 | the first bare `--kube-token` of a list is kept by the redaction and the element after it becomes `REDACTED` |
| HelmCommand.ContextTokenLine | provider/provider.go:263-292 | with `kube_context` set to `--kube-token` and a static token, `helm list` is built as `helm list --kube-context --kube-token --kube-token <token>` |
| HelmCommand.ContextTokenRedacted | provider/provider.go:516-532 | the redaction of that line masks the real `--kube-token` flag and logs the token unmasked, so the proviso of `TokenHiddenInLog` is needed |
| HelmCommand.OnlyContextConnection | provider/provider.go:263-283 | with only a kube context configured, the connection flags are `--kube-context` and that context |
| Flags.RenderEmitted | provider/provider.go:263-295 | the rendered words are exactly the words of the set entries, in table order; unset entries add nothing |
| Flags.SetIndices | provider/provider.go:263-295 | the k-th emitted flag is the table entry at index `SetIndices(t)[k]`, and these indices strictly increase; with `RenderEmitted`, the rendered words are those of `t[SetIndices(t)[k]]` for k in order |
| Flags.EmittedMembership | provider/provider.go:263-295 | an entry is emitted exactly when it is a set entry of the table |
| Flags.FlagEmittedIff | provider/provider.go:263-295 | with distinct names, an entry's name is among the emitted flags exactly when the entry is set, and then the entry itself, with its value, is emitted |
| Flags.EmittedNameOrigin | provider/provider.go:263-295 | an emitted flag name is the name of a set entry |
| Flags.SetEntryEmitted | provider/provider.go:263-295 | a set entry is emitted under its own name |
| Flags.EmittedOrigins | provider/provider.go:263-295 | two emitted flags come from table entries in the same order |
| Flags.RenderAt | provider/provider.go:263-295 | the words of the k-th flag come right after the words of the flags before it |
| Flags.FlagPosition | provider/provider.go:263-295 | a set flag's name sits where the words of the flags before it end, and its value, if it has one, right after |
| Flags.PositionsIncrease | provider/provider.go:263-295 | a set flag earlier in the table starts at an earlier position |
| Flags.FlagsInLine | provider/provider.go:263-295 | in leading words, then the emitted flags' words, then trailing words, two emitted flags appear by name at those positions, in table order |
| Flags.RenderNothingSet | provider/provider.go:263-295 | a table with nothing set adds no words |
| Flags.RenderAppend | provider/provider.go:263-295 | appending two runs of conditional flags renders as the two renderings in sequence |
| Flags.IfNonEmpty | provider/provider.go:263-283 | a string flag is set exactly when its value is non-empty and then carries that value |
| Flags.IfTrue | provider/provider.go:278-280 | a boolean flag is set exactly when true and carries no value |
| Flags.Words | provider/provider.go:263-295 | an unset flag adds nothing; a bare one adds its name alone; a valued one adds its name and then its value |
| Strings.TrimSpace | provider/provider.go:398 | the result starts and ends with no white space |
| Strings.TrimSpaceInfix | provider/provider.go:398 | the result is a slice of the input with only white space cut at either end |
| Strings.TrimSpaceIdempotent | provider/provider.go:456-457 | trimming twice is trimming once, so the scan's returned token is trimmed |
| Strings.TrimSpaceEmptyIff | provider/resource_terrahelm_release.go:379 | trimming gives `""` exactly when the input is all white space |
| Strings.Split | provider/resource_terrahelm_release.go:216 | a split always has at least one piece |
| Strings.SplitPiecesFree | provider/resource_terrahelm_release.go:216 | no piece of a split holds the separator |
| Strings.JoinSplit | provider/resource_terrahelm_release.go:216-218 | joining the pieces of a split with the separator rebuilds the string |
| Strings.JoinShowsPair | provider/resource_terrahelm_release.go:361 | in `strings.Join`, two neighbouring elements appear in the text with the separator between them |
| Strings.LastIndexOf | provider/resource_terrahelm_release.go:283 | `strings.LastIndex` gives -1 or an index holding the character |
| Strings.Lower | provider/provider.go:501 | a lowered character is never an upper-case ASCII letter, and a lower-case letter either was one or is its upper-case form moved by 32 |
| Strings.LastIndexOfIsLast | provider/resource_terrahelm_release.go:283 | no occurrence of the character lies after the last index |
| Release.CheckSource | provider/resource_terrahelm_release.go:149-162 | the configuration is accepted exactly when one of `git_repository` and `helm_repository` is set; neither and both are each rejected with their own error |
| Release.NormalizeTimeout | provider/resource_terrahelm_release.go:350-355 | no flag exactly for an empty timeout; a timeout `strconv.Atoi` accepts (sign, digits, 64-bit range) gets `s` appended; anything else passes through unchanged |
| Release.NormalizeTimeoutIdempotent | provider/resource_terrahelm_release.go:350-355 | a normalised timeout never parses as an integer, so normalising again changes nothing |
| Release.NormalizeTimeoutExamples | provider/resource_terrahelm_release.go:350-355 | `60` gives `60s`, `-5` gives `-5s`, `5m` stays, `""` stays |
| Release.HexRoundTrip | provider/resource_terrahelm_release.go:324 | hex encoding is lower-case, two digits per byte, and decodes back to the bytes |
| Release.ValuesHash | provider/resource_terrahelm_release.go:323-324 | the file hash is 16 hex digits |
| Release.ValuesHashDecodes | provider/resource_terrahelm_release.go:323-324 | the file hash encodes exactly the first 8 bytes of the SHA-256 digest |
| Release.ValuesFileLayout | provider/resource_terrahelm_release.go:325-336 | the values file is `<cacheDir>/values/<repoName>/<gitReference, else repoName>/<name>-<hash>-values.yaml` |
| Release.ValuesPathSeparatesHashes | provider/resource_terrahelm_release.go:325-336 | two different hashes of the same length give different values-file paths |
| Release.PathJoinSnoc | provider/resource_terrahelm_release.go:325-336 | joining a joined path with one more non-empty element is joining all elements at once |
| Release.NonEmptyDropsEmpty | provider/resource_terrahelm_release.go:325-330 | an empty trailing path element is dropped by the join |
| Release.GitRepoNameIsLastSegment | provider/resource_terrahelm_release.go:283 | the repository name is the part of the URL after its last `/`, holds no `/`, and is the whole URL when it has no `/` |
| Release.GitRepoNameAfterSlash | provider/resource_terrahelm_release.go:283 | whatever precedes the last `/`, the name is what follows it |
| Release.GitRepoNameExample | provider/resource_terrahelm_release.go:283 | `https://github.com/helm/charts.git` gives `charts.git` |
| Release.SplitChartAtLastHyphen | provider/resource_terrahelm_release.go:216-218 | a chart string splits at its last `-` into name and version |
| Release.SplitChartRebuilds | provider/resource_terrahelm_release.go:216-218 | when a hyphen exists, `name + "-" + version` rebuilds the chart string |
| Release.SplitChartWithoutHyphen | provider/resource_terrahelm_release.go:216-218 | without a hyphen, the name is `""` and the version is the whole string |
| Release.SplitChartExample | provider/resource_terrahelm_release.go:216-218 | `nginx-13.2.32` gives `nginx` and `13.2.32` |
| Release.SplitSnoc | provider/resource_terrahelm_release.go:216 | splitting `a-b` where `b` has no hyphen splits `a` and adds `b` as the last piece |
| Release.InstallVerb | provider/resource_terrahelm_release.go:307-310 | the verb is `upgrade` exactly on update and `install` exactly otherwise |
| Release.GitSourceChartPath | provider/resource_terrahelm_release.go:280-297 | for a Git source the install chart is the bare chart path, because line 297 shadows `fullChartPath` |
| Release.OnlyDependencyBuildSkipsToken | provider/provider.go:534-545 | list, get values, install/upgrade and uninstall all resolve the token; only `dependency build` does not |
| Release.InstallTableNames | provider/resource_terrahelm_release.go:312-355 | the install flags are considered in the order namespace, create-namespace, version, `-f`, wait, atomic, timeout |
| Release.InstallFlagsDistinct | provider/resource_terrahelm_release.go:312-355 | the install flags have distinct names |
| Release.InstallFlagSegment | provider/resource_terrahelm_release.go:307-356 | a built install line is Helm's own command, then the words of the emitted release flags one after the other, then `--logtostderr` |
| Release.InstallFlagsPresence | provider/resource_terrahelm_release.go:312-355 | the install line is Helm's own command, the words of the emitted release flags and `--logtostderr`; each release flag is emitted exactly when its setting is non-empty (or true), and then with that setting as its value; the timeout's value is the normalised timeout |
| Release.InstallFlagsInOrder | provider/resource_terrahelm_release.go:312-355 | in a line made of Helm's own command, the emitted release flags and `--logtostderr` (the install line, by `InstallFlagSegment`), of two emitted flags the one earlier in the fixed order has its name at the earlier position, each where its words start |
| Release.InstallFlagNamesOrdered | provider/resource_terrahelm_release.go:312-355 | two emitted release flags are named in the fixed order |
| Release.InstallLineOfToken | provider/resource_terrahelm_release.go:307-356 | with a resolved token, the install line is Helm's own command carrying that token, then the release flags and `--logtostderr` |
| Release.InstallTokenPosition | provider/resource_terrahelm_release.go:307-356 | a resolved non-empty token sits in the install line right after `--kube-token`, which follows the binary, the install arguments and the first seven connection flags |
| Release.InstallLogShowsToken | provider/resource_terrahelm_release.go:361-363 | as written, whenever a non-empty token is resolved, the text logged before an install or upgrade holds `--kube-token` followed by that token |
| Release.InstallLogHidesToken | provider/resource_terrahelm_release.go:361-363 | logged through `RedactedArgs`, the token after the builder's `--kube-token` is `REDACTED` and the text holds `--kube-token REDACTED`, under the proviso of `TokenHiddenInLog` |
| Release.InstallCommandLine | provider/resource_terrahelm_release.go:307-356 | a built install line starts with the binary, the verb, the name and `filepath.Join(helmRepository, chartPath)`, ends with `--logtostderr`, and fails exactly when the token cannot be resolved |
| Release.AppendReleaseFlags | provider/resource_terrahelm_release.go:312-356 | the conditional appends and the timeout reassignment append the rendered install flags, then `--logtostderr` |
| Release.ReleaseIdInjective | provider/resource_terrahelm_release.go:370 | the `namespace/name` id names one release, as namespaces hold no `/` |
| ReleaseValues.SanitizeYamlString | provider/resource_terrahelm_release.go:378-395 | blank or all-white-space input gives `""` with no error; other input succeeds exactly when the YAML round trip does, with its output |
| ReleaseValues.JsonMapToStringMap | provider/resource_terrahelm_release.go:397-425 | the conversion never fails and gives exactly `Flatten` of the values |
| ReleaseValues.Traverse | provider/resource_terrahelm_release.go:402-415 | the recursive closure stores each leaf under its dotted key, in walk order, into the map it is given |
| ReleaseValues.Leaves | provider/resource_terrahelm_release.go:402-415 | every leaf is a non-object and its key extends the parent key |
| ReleaseValues.MemberLeaves | provider/resource_terrahelm_release.go:405-410 | the leaves of an object's members are non-objects under the parent key |
| ReleaseValues.RootLeaves | provider/resource_terrahelm_release.go:417-422 | the leaves of the top-level values are non-objects |
| ReleaseValues.Store | provider/resource_terrahelm_release.go:412 | storing leaves adds exactly their keys to the map |
| ReleaseValues.StoreLookup | provider/resource_terrahelm_release.go:412 | a key no leaf names keeps its old value; a key takes the formatted value of the last leaf that names it |
| ReleaseValues.StoreAppend | provider/resource_terrahelm_release.go:412-422 | storing two runs of leaves is storing the first and then the second |
| ReleaseValues.FlattenValues | provider/resource_terrahelm_release.go:397-425 | every entry of the result holds the formatted value of a non-object leaf with that dotted key |
| ReleaseValues.FlattenExact | provider/resource_terrahelm_release.go:397-425 | when dotted keys do not collide, each leaf yields its entry holding its formatted value, whatever order the maps are walked in |
| ReleaseValues.NestedKeys | provider/resource_terrahelm_release.go:406 | a nested member's key is `parent.child` |
| ReleaseValues.FlattenExample | provider/resource_terrahelm_release.go:397-425 | `{"foo":{"bar":42,"baz":"hello"},"qux":true}` gives `foo.bar:42`, `foo.baz:hello`, `qux:true` |
| ReleaseValues.DecodeValues | provider/resource_terrahelm_release.go:245-248 | the all-values output is accepted exactly when it decodes to an object or `null` (an empty map) |
| ReleaseResource.Resource.constructor | provider/resource_terrahelm_release.go:182-260 | a new resource holds its configuration and no id or read attributes |
| ReleaseResource.Resource.Read | provider/resource_terrahelm_release.go:182-260 | the resource data and effects after a read are those of `ReadSpec` |
| ReleaseResource.Resource.ReadValues | provider/resource_terrahelm_release.go:225-257 | the values half of a read updates the data as `ReadValuesSpec` says |
| ReleaseResource.Resource.CreateOrUpdate | provider/resource_terrahelm_release.go:263-376 | the resource data and effects after a create or update are those of `CreateOrUpdateSpec` |
| ReleaseResource.Resource.Delete | provider/resource_terrahelm_release.go:166-180 | the resource data and effects after a delete are those of `DeleteSpec` |
| ReleaseResource.RunHelmCommand | provider/provider.go:260-299 | running a Helm command gives the outcome `HelmOutcomeOf` describes: no command, rejected, or output |
| ReleaseResource.ListRelease | provider/resource_terrahelm_release.go:189-213 | the list stage gives the first entry, or a list, decode or not-found error, with the commands it ran |
| ReleaseResource.GetUserValues | provider/resource_terrahelm_release.go:226-236 | the user-values stage gives the sanitised YAML, or its error |
| ReleaseResource.GetAllValues | provider/resource_terrahelm_release.go:239-257 | the all-values stage gives the flattened values, or its error |
| ReleaseResource.PrepareGitChart | provider/resource_terrahelm_release.go:281-304 | the Git branch clones when needed and then builds dependencies, and is skipped for a Helm repository |
| ReleaseResource.CloneIntoCache | provider/resource_terrahelm_release.go:285-295 | making the directory and cloning happen only when the directory is absent |
| ReleaseResource.BuildDependencies | provider/resource_terrahelm_release.go:297-303 | `helm dependency build` runs on the chart inside the clone |
| ReleaseResource.WriteValuesFile | provider/resource_terrahelm_release.go:321-343 | with values, the values directory is made and the values file written; without values, nothing happens |
| ReleaseResource.BuildInstallCommand | provider/resource_terrahelm_release.go:307-356 | the install stage gives the full install or upgrade line, with the values file written on the way |
| ReleaseResource.ReadEmptyListNotFound | provider/resource_terrahelm_release.go:209-211 | an empty `helm list` result fails with the release's name and changes nothing |
| ReleaseResource.ReadRecordsFirstEntry | provider/resource_terrahelm_release.go:213-223 | a read stores the first entry's revision and status, and its chart split into name and version |
| ReleaseResource.ReadSuccess | provider/resource_terrahelm_release.go:225-257 | a successful read stores the sanitised user values and the flattened values of the all-values output |
| ReleaseResource.ReadKeepsIdentity | provider/resource_terrahelm_release.go:182-260 | a read never changes the id or any configuration attribute other than `values` |
| ReleaseResource.ReadValuesKeepsAttributes | provider/resource_terrahelm_release.go:225-257 | the values half of a read changes only `values` and `release_values` |
| ReleaseResource.ReadOnlyQueries | provider/resource_terrahelm_release.go:182-260 | a read runs only `helm list` and `helm get` commands |
| ReleaseResource.ReadValuesQueries | provider/resource_terrahelm_release.go:225-257 | the values half of a read runs only `helm get` commands |
| ReleaseResource.UserValuesQueries | provider/resource_terrahelm_release.go:226 | the user-values stage runs only a `helm get` command |
| ReleaseResource.AllValuesQueries | provider/resource_terrahelm_release.go:239 | the all-values stage runs only a `helm get` command |
| ReleaseResource.HelmOutcomeVerb | provider/provider.go:260-261 | a command that is built carries the subcommand right after the binary |
| ReleaseResource.CloneOnlyWhenAbsent | provider/resource_terrahelm_release.go:282-295 | any clone made by create-or-update is of the configured repository and reference into `<cacheDir>/repos/<name>/<reference>`, only for a Git source and only when that directory is absent |
| ReleaseResource.GitStageClones | provider/resource_terrahelm_release.go:282-304 | a clone in the Git branch is the configured clone, made only when the directory is absent |
| ReleaseResource.CloneStageClones | provider/resource_terrahelm_release.go:285-295 | a clone is made only when the directory is absent |
| ReleaseResource.CloneWhenAbsent | provider/resource_terrahelm_release.go:285-291 | for a Git source with the directory absent, create-or-update first makes the directory and then clones into it |
| ReleaseResource.DependencyBuildInClone | provider/resource_terrahelm_release.go:297-303 | a successful Git branch ends with `helm dependency build` on `<repoPath>/<chartPath>`, with no token |
| ReleaseResource.DependencyStageRunsHelm | provider/resource_terrahelm_release.go:297-303 | the dependency stage only runs Helm |
| ReleaseResource.InstallStageOnlyWrites | provider/resource_terrahelm_release.go:307-356 | building the install line only makes directories and writes the values file |
| ReleaseResource.InstallNeverClones | provider/resource_terrahelm_release.go:305-375 | after the Git branch, nothing is cloned |
| ReleaseResource.InstallRunsInstallCommand | provider/resource_terrahelm_release.go:307-365 | the command run is the install line over the values file, which is `""` without values and otherwise the hashed values path under the Helm repository's name, written with the values |
| ReleaseResource.InstallSetsId | provider/resource_terrahelm_release.go:365-370 | a successful install sets the id to `namespace/name` |
| ReleaseResource.CreateSetsId | provider/resource_terrahelm_release.go:263-376 | a successful create or update leaves the id `namespace/name` |
| ReleaseResource.FailedInstallKeepsData | provider/resource_terrahelm_release.go:282-367 | when the Git branch, the line building or the install fails, the data is unchanged and the result is an error |
| ReleaseResource.DeleteClearsId | provider/resource_terrahelm_release.go:166-180 | a delete succeeds exactly when `helm uninstall` does, and then clears the id; on failure nothing changes |

## Left out

- Process execution, timing and logging are not modelled.
  - The exec-credential command's outcome is a parameter. So are the outcome of each Helm command and of `git clone`.
  - The kube_exec timeout and its "timed out after N seconds" message are not modelled. A failed run keeps its trimmed stderr but not the process error.
  - Logging is not an effect of the model. Two logged lines are modelled as text: the line `helmCmdFunc` logs through `redactHelmArgs` (`HelmCommand.RedactHelmArgs`), and the install line the resource logs (`Release.InstallLogAsWritten`, see "## Findings"). Other debug and info messages are not modelled.
- The filesystem is abstract.
  - The existing directories are the set `dirs`. Whether a directory can be made or a file written is a parameter.
  - `os.Stat` errors other than "does not exist" are not distinguished.
- Foreign libraries are parameters: `json.Unmarshal` (a `Decoded` tree or `Malformed`), the decoding of `helm list` output, the YAML parse-and-marshal round trip, `%v` formatting of a leaf, and SHA-256. Hex encoding is modelled.
- Strings.PathJoin: `filepath.Join` is modelled as joining the non-empty elements with `/`. It does no lexical cleaning (`..`, duplicate slashes).
- Strings.Lower: `strings.ToLower` is modelled for ASCII letters only. Case-insensitive key matching is therefore proved for ASCII keys.
- Strings.IsSpace: it lists the code points `unicode.IsSpace` accepts. Code points beyond U+3000 are not white space in either.
- KubeExecEnv.BuildExecEnv: `json.Marshal` of `execInfo` cannot fail, so its error branch, which skips the record, is not modelled. The escaping of the API version follows `json.Marshal` of Go 1.22 and later, which writes `\b` and `\f` as short escapes. Older releases wrote `\u0008` and `\u000c`.
- ReleaseResource.Resource.Read: the ignored error of `d.Set` is not modelled. The error `jsonMapToStringMap` never returns is not modelled either.
- ReleaseResource: the resource calls `HelmCmd` as if it returned one value, and without the `callCtx` argument the provider's function takes. The model propagates a token-resolution failure as a `TokenFailed` error of the operation.
- ReleaseResource.Outside: the exec-credential outcome is a function of the Helm command's arguments. Each Helm command of an operation (install, list, the two `get values`) has its own outcome. Two runs of a command with the same arguments within one operation would get the same outcome, but no operation runs one command twice.
- KubeToken.GetByNormalizedKey: the model walks each object in one fixed order. Go walks a map in a new random order on each lookup. For an object with two keys of the same normal form, the model therefore covers only some of Go's outcomes. For example, in `{"status":{"idToken":"a"},"Status":{"token":"b"},"token":"d"}` Go can return `d`, and the model cannot.
- HelmCommand.TokenHiddenInLog: the token is proved masked only in the line `helmCmdFunc` logs, and only when no bare `--kube-token` comes earlier on that line. Without that, Go logs the token: `ContextTokenRedacted` shows this for `kube_context` set to `--kube-token`. Independently of this proviso, the install and upgrade line is logged without any redaction (see "## Findings").
- ReleaseResource.Resource.CreateOrUpdate: the effects do not include the install line logged at provider/resource_terrahelm_release.go:361-363. That line is modelled as text by `Release.InstallLogAsWritten`, and it carries the token in clear.
- Release.CloneArgv: the clone runs the literal `git` from the search path, as the code does. The configured Git binary path is unused.
- Release.InstallChart: the install chart is `filepath.Join(helmRepository, chartPath)` as written. Line 297 declares a new `fullChartPath`, so a Git source installs the bare `chartPath`.
- ReleaseResource.ValuesFileStage: the values directory uses `helmRepository` as the repository name, as written. Line 283 declares a new `repoName`.
- Provider schema, `configureProvider`, `installHelmCLI`, `downloadFile`, `StateFunc`/`DiffSuppressFunc` and the data source are Terraform SDK wiring or network download, and are not modelled. `main.go` is not part of this model.

## Findings

| source | as written | input that shows it | evidently intended | confidence | as-written member | corrected member |
|---|---|---|---|---|---|---|
| provider/resource_terrahelm_release.go:361-363 | the install or upgrade line is joined with spaces and logged at info level without redaction, so `--kube-token <token>` reaches the log | `kube_token = "s3cret"` and any release: the logged line holds `--kube-token s3cret` | log the line through `redactHelmArgs`, as `helmCmdFunc` does for its own commands (provider/provider.go:297), so the token shows as `REDACTED` | not executed | Release.InstallLogShowsToken | Release.InstallLogHidesToken |

`Release.InstallLogAsWritten` is the logged text as written. `Release.InstallLogRedacted` is the intended text: the same line through `RedactedArgs`, which is what `HelmCommand.RedactHelmArgs` computes.
