/** The environment the exec-credential command runs in: the provider's own
    environment, then the configured variables, then a synthesised
    `KUBERNETES_EXEC_INFO` describing the request, unless the configuration
    already supplies that variable. */
module KubeExecEnv {
  import opened Results
  import opened KubeToken
  import opened JsonString
  import opened Strings

  const ExecInfoKey := "KUBERNETES_EXEC_INFO"

  /** One `KEY=VALUE` environment entry. */
  function EnvEntry(key: string, value: string): string {
    key + "=" + value
  }

  /** For keys without '=', as environment variable names are, an entry starts
      with `key=` exactly when it is an entry of `key`: looking a variable up by
      that prefix finds its own entries and no other. */
  lemma EntryPrefixNamesKey(k: string, v: string, key: string)
    requires '=' !in k && '=' !in key
    ensures HasPrefix(EnvEntry(k, v), key + "=") <==> k == key
  {
    var e := EnvEntry(k, v);
    if HasPrefix(e, key + "=") {
      var rest := e[|key| + 1..];
      assert e == key + "=" + rest;
      SeparatedPairInjective(k, v, key, rest, '=');
    }
  }

  /** Distinct variables give distinct entries, and an entry gives back its
      value. */
  lemma EnvEntryInjective(k1: string, v1: string, k2: string, v2: string)
    requires '=' !in k1 && '=' !in k2
    requires EnvEntry(k1, v1) == EnvEntry(k2, v2)
    ensures k1 == k2 && v1 == v2
  {
    SeparatedPairInjective(k1, v1, k2, v2, '=');
  }

  /** What `json.Marshal` writes for the `execInfo` record, around the escaped
      API version. */
  const ExecInfoPrefix := "{\"kind\":\"ExecCredential\",\"apiVersion\":\""
  const ExecInfoSuffix := "\",\"spec\":{\"interactive\":false}}"

  /** The marshalled `execInfo` record: kind `ExecCredential`, the configured
      API version, and a spec that is not interactive. */
  function ExecInfoJson(apiVersion: string): string {
    ExecInfoPrefix + Escape(apiVersion) + ExecInfoSuffix
  }

  function ExecInfoEntry(apiVersion: string): string {
    EnvEntry(ExecInfoKey, ExecInfoJson(apiVersion))
  }

  /** Reads the API version back out of a record laid out as `ExecInfoJson`
      lays it out: None for anything else. */
  function ApiVersionOf(json: string): (r: Option<string>)
    ensures r.Some? ==> |ExecInfoPrefix| + |ExecInfoSuffix| <= |json|
  {
    if |json| < |ExecInfoPrefix| + |ExecInfoSuffix| then None
    else if json[..|ExecInfoPrefix|] != ExecInfoPrefix then None
    else if json[|json| - |ExecInfoSuffix|..] != ExecInfoSuffix then None
    else Unescape(json[|ExecInfoPrefix|..|json| - |ExecInfoSuffix|])
  }

  /** The synthesised record carries the configured API version: reading it
      back gives that version, whatever characters it holds. */
  lemma ExecInfoCarriesApiVersion(apiVersion: string)
    ensures ApiVersionOf(ExecInfoJson(apiVersion)) == Some(apiVersion)
  {
    var json := ExecInfoJson(apiVersion);
    var body := Escape(apiVersion);
    assert json[..|ExecInfoPrefix|] == ExecInfoPrefix;
    assert json[|json| - |ExecInfoSuffix|..] == ExecInfoSuffix;
    assert json[|ExecInfoPrefix|..|json| - |ExecInfoSuffix|] == body;
    UnescapeEscape(apiVersion);
  }

  /** The record is added only for a configured API version, and never over a
      `KUBERNETES_EXEC_INFO` the configuration sets itself. */
  predicate AddsExecInfo(exec: KubeExec) {
    exec.apiVersion != "" && ExecInfoKey !in exec.env
  }

  /** The entries of the configured variables listed in `keys`, in that order. */
  function Entries(env: map<string, string>, keys: seq<string>): (r: seq<string>)
    requires forall i :: 0 <= i < |keys| ==> keys[i] in env
    ensures |r| == |keys|
    ensures forall i :: 0 <= i < |keys| ==> r[i] == EnvEntry(keys[i], env[keys[i]])
  {
    if keys == [] then [] else Entries(env, keys[..|keys| - 1]) + [EnvEntry(keys[|keys| - 1], env[keys[|keys| - 1]])]
  }

  lemma EntriesSnoc(env: map<string, string>, keys: seq<string>, key: string)
    requires forall i :: 0 <= i < |keys| ==> keys[i] in env
    requires key in env
    ensures Entries(env, keys + [key]) == Entries(env, keys) + [EnvEntry(key, env[key])]
  {
    assert (keys + [key])[..|keys|] == keys;
  }

  /** When `keys` lists every configured variable, the entries hold one entry
      per variable and nothing else. */
  lemma EntriesCover(env: map<string, string>, keys: seq<string>)
    requires forall i :: 0 <= i < |keys| ==> keys[i] in env
    requires forall k :: k in env ==> k in keys
    ensures forall k :: k in env ==> EnvEntry(k, env[k]) in Entries(env, keys)
    ensures forall i :: 0 <= i < |keys| ==> IsConfiguredEntry(env, Entries(env, keys)[i])
  {
    var entries := Entries(env, keys);
    forall k | k in env
      ensures EnvEntry(k, env[k]) in entries
    {
      var i :| 0 <= i < |keys| && keys[i] == k;
      assert entries[i] == EnvEntry(k, env[k]);
    }
    forall i | 0 <= i < |keys|
      ensures IsConfiguredEntry(env, entries[i])
    {
      assert entries[i] == EnvEntry(keys[i], env[keys[i]]);
    }
  }

  /** The loop of `kubeExecEnv` over the configured variables: one entry per
      variable, in the order the map is walked (`order`, which the source leaves
      unspecified). */
  method ConfiguredEntries(vars: map<string, string>) returns (entries: seq<string>, ghost order: seq<string>)
    ensures forall i :: 0 <= i < |order| ==> order[i] in vars
    ensures forall k :: k in vars ==> k in order
    ensures |order| == |vars|
    ensures entries == Entries(vars, order)
  {
    entries := [];
    var pending := vars.Keys;
    order := [];
    assert |vars.Keys| == |vars|;
    while pending != {}
      invariant pending <= vars.Keys
      invariant forall i :: 0 <= i < |order| ==> order[i] in vars && order[i] !in pending
      invariant forall k :: k in vars && k !in pending ==> k in order
      invariant |order| + |pending| == |vars|
      invariant entries == Entries(vars, order)
      decreases |pending|
    {
      var key :| key in pending;
      entries := entries + [EnvEntry(key, vars[key])];
      EntriesSnoc(vars, order, key);
      order := order + [key];
      pending := pending - {key};
    }
  }

  /** An entry of one of the configured variables. */
  predicate IsConfiguredEntry(vars: map<string, string>, e: string) {
    exists k :: k in vars && e == EnvEntry(k, vars[k])
  }

  /** `kubeExecEnv`: the ambient environment `environ` comes first and is kept
      as it is; then one `KEY=VALUE` entry for each configured variable, in the
      (unspecified) order the map is walked; then the synthesised record when
      `AddsExecInfo` holds. */
  method BuildExecEnv(environ: seq<string>, exec: KubeExec) returns (env: seq<string>)
    ensures |env| == |environ| + |exec.env| + (if AddsExecInfo(exec) then 1 else 0)
    ensures env[..|environ|] == environ
    ensures forall k :: k in exec.env ==> EnvEntry(k, exec.env[k]) in env[|environ|..|environ| + |exec.env|]
    ensures forall i :: |environ| <= i < |environ| + |exec.env| ==> IsConfiguredEntry(exec.env, env[i])
    ensures AddsExecInfo(exec) ==> env[|env| - 1] == ExecInfoEntry(exec.apiVersion)
  {
    var entries, order := ConfiguredEntries(exec.env);
    var synthesised := [];
    if exec.apiVersion != "" && ExecInfoKey !in exec.env {
      synthesised := [ExecInfoEntry(exec.apiVersion)];
    }
    env := environ + entries + synthesised;
    Layout(environ, exec.env, order, synthesised);
  }

  /** Where the three parts of the environment sit, and what the middle one
      holds. */
  lemma Layout(environ: seq<string>, vars: map<string, string>, order: seq<string>, tail: seq<string>)
    requires forall i :: 0 <= i < |order| ==> order[i] in vars
    requires forall k :: k in vars ==> k in order
    requires |order| == |vars|
    ensures var env := environ + Entries(vars, order) + tail;
      && |env| == |environ| + |vars| + |tail|
      && env[..|environ|] == environ
      && (forall k :: k in vars ==> EnvEntry(k, vars[k]) in env[|environ|..|environ| + |vars|])
      && (forall i :: |environ| <= i < |environ| + |vars| ==> IsConfiguredEntry(vars, env[i]))
  {
    var entries := Entries(vars, order);
    EntriesCover(vars, order);
    ThreeParts(environ, entries, tail);
  }

  /** Where the middle part of a three-part concatenation sits. */
  lemma ThreeParts<T>(x: seq<T>, y: seq<T>, z: seq<T>)
    ensures |x + y + z| == |x| + |y| + |z|
    ensures (x + y + z)[..|x|] == x
    ensures (x + y + z)[|x|..|x| + |y|] == y
  {
    assert (x + y + z)[..|x|] == x;
    assert (x + y + z)[|x|..|x| + |y|] == y;
  }
}
