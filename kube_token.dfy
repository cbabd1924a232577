/** Resolution of the Kubernetes bearer token handed to Helm: a static token, or
    the output of an exec-credential command, which may be a raw token, a JSON
    string, or a JSON document holding the token under one of several keys. */
module KubeToken {
  import opened Results
  import opened Strings
  import opened Json

  /** The `kube_exec` block of the provider configuration. */
  datatype KubeExec = KubeExec(
    apiVersion: string,
    command: string,
    args: seq<string>,
    env: map<string, string>,
    timeoutSeconds: int)

  /** Connection settings applied to every Helm invocation. */
  datatype KubeAuth = KubeAuth(
    apiServer: string,
    asGroup: string,
    asUser: string,
    caFile: string,
    context: string,
    insecureSkipTlsVerify: bool,
    tlsServerName: string,
    token: string,
    kubeconfig: string,
    exec: Option<KubeExec>)

  /** What running the exec-credential command gave: its standard output when it
      exited successfully, its standard error otherwise. */
  datatype ExecRun = Completed(stdout: string) | Failed(stderr: string)

  datatype TokenError =
    | CommandRequired             // "kube_exec command is required"
    | RunFailed(stderr: string)   // "failed to run kube_exec command: ... (stderr: ...)"
    | EmptyOutput                 // "kube_exec command returned empty output"
    | NotValidJson                // "kube_exec output is not valid JSON: ..."
    | MissingTokenField           // "kube_exec output JSON missing token field"

  // ---------------------------------------------------------------------------
  // Key normalisation

  /** Lower-cases the key and drops every '_' and '-'. */
  function NormalizeTokenKey(key: string): (r: string)
    ensures |r| <= |key|
    ensures forall i :: 0 <= i < |r| ==> r[i] != '_' && r[i] != '-' && !('A' <= r[i] <= 'Z')
  {
    if key == [] then []
    else (if key[0] == '_' || key[0] == '-' then [] else [Lower(key[0])]) + NormalizeTokenKey(key[1..])
  }

  /** Normalisation works character by character. */
  lemma {:induction false} NormalizeAppend(a: string, b: string)
    ensures NormalizeTokenKey(a + b) == NormalizeTokenKey(a) + NormalizeTokenKey(b)
  {
    if a != [] {
      var head := if a[0] == '_' || a[0] == '-' then [] else [Lower(a[0])];
      calc {
        NormalizeTokenKey(a + b);
        { assert (a + b)[0] == a[0] && (a + b)[1..] == a[1..] + b; }
        head + NormalizeTokenKey(a[1..] + b);
        { NormalizeAppend(a[1..], b); }
        head + (NormalizeTokenKey(a[1..]) + NormalizeTokenKey(b));
        (head + NormalizeTokenKey(a[1..])) + NormalizeTokenKey(b);
      }
    } else {
      assert a + b == b;
    }
  }

  /** A key that is already lower-case and free of separators is left alone. */
  lemma {:induction false} NormalizeFixes(key: string)
    requires forall i :: 0 <= i < |key| ==> key[i] != '_' && key[i] != '-' && !('A' <= key[i] <= 'Z')
    ensures NormalizeTokenKey(key) == key
  {
    if key != [] {
      NormalizeFixes(key[1..]);
    }
  }

  lemma NormalizeIdempotent(key: string)
    ensures NormalizeTokenKey(NormalizeTokenKey(key)) == NormalizeTokenKey(key)
  {
    NormalizeFixes(NormalizeTokenKey(key));
  }

  /** Inserting a separator anywhere in a key does not change how it compares. */
  lemma SeparatorInsensitive(a: string, b: string, sep: char)
    requires sep == '_' || sep == '-'
    ensures NormalizeTokenKey(a + [sep] + b) == NormalizeTokenKey(a + b)
  {
    NormalizeAppend(a + [sep], b);
    NormalizeAppend(a, [sep]);
    NormalizeAppend(a, b);
  }

  /** Changing the case of one letter in a key does not change how it compares. */
  lemma CaseInsensitive(a: string, b: string, c: char)
    requires 'A' <= c <= 'Z'
    ensures NormalizeTokenKey(a + [c] + b) == NormalizeTokenKey(a + [Lower(c)] + b)
  {
    NormalizeAppend(a + [c], b);
    NormalizeAppend(a, [c]);
    NormalizeAppend(a + [Lower(c)], b);
    NormalizeAppend(a, [Lower(c)]);
  }

  /** Keys of the token family: `token`, `accessToken`, `id_token`, ... */
  predicate IsTokenKey(key: string) {
    var n := NormalizeTokenKey(key);
    n == "token" || n == "accesstoken" || n == "idtoken"
  }

  /** Token-family membership depends only on the normalised key. */
  lemma TokenKeyByNormalForm(key: string)
    ensures IsTokenKey(key) <==> IsTokenKey(NormalizeTokenKey(key))
  {
    NormalizeIdempotent(key);
  }

  // ---------------------------------------------------------------------------
  // Output classification

  /** The output starts the way a JSON object, array or string does. */
  predicate LooksLikeJson(output: string)
    ensures LooksLikeJson(output) <==> HasPrefix(output, "{") || HasPrefix(output, "[") || HasPrefix(output, "\"")
  {
    output != [] && (output[0] == '{' || output[0] == '[' || output[0] == '"')
  }

  // ---------------------------------------------------------------------------
  // Searching a JSON document for the token

  /** The key paths tried first, in priority order. */
  const PreferredPaths: seq<seq<string>> := [
    ["status", "token"],
    ["status", "accessToken"],
    ["status", "access_token"],
    ["status", "idToken"],
    ["status", "id_token"],
    ["token"],
    ["accessToken"],
    ["access_token"],
    ["idToken"],
    ["id_token"]
  ]

  /** The value of the first member (in iteration order) whose key normalises to
      the same string as `lookup`. */
  function GetByNormalizedKey(members: seq<(string, Json)>, lookup: string): Option<Json> {
    if members == [] then None
    else if NormalizeTokenKey(members[0].0) == NormalizeTokenKey(lookup) then Some(members[0].1)
    else GetByNormalizedKey(members[1..], lookup)
  }

  /** The lookup finds the value of a member whose key matches, and finds
      nothing exactly when no key matches. */
  lemma {:induction false} GetByNormalizedKeyMeaning(members: seq<(string, Json)>, lookup: string)
    ensures var r := GetByNormalizedKey(members, lookup);
      && (r.Some? ==> exists i :: 0 <= i < |members| && members[i].1 == r.value
                                  && NormalizeTokenKey(members[i].0) == NormalizeTokenKey(lookup)
                                  && forall j :: 0 <= j < i ==> NormalizeTokenKey(members[j].0) != NormalizeTokenKey(lookup))
      && (r.None? <==> forall i :: 0 <= i < |members| ==> NormalizeTokenKey(members[i].0) != NormalizeTokenKey(lookup))
  {
    if members != [] && NormalizeTokenKey(members[0].0) != NormalizeTokenKey(lookup) {
      GetByNormalizedKeyMeaning(members[1..], lookup);
      assert forall i :: 1 <= i < |members| ==> members[i] == members[1..][i - 1];
    }
  }

  /** The trimmed string reached by following `path` through nested objects, or
      "" when some step is missing or the end is not a string. */
  function StringAtPath(v: Json, path: seq<string>): (r: string)
    ensures IsTrimmed(r)
    decreases |path|
  {
    if path == [] then
      if v.JString? then TrimSpace(v.s) else ""
    else if !v.JObject? then ""
    else match GetByNormalizedKey(v.members, path[0])
      case None => ""
      case Some(next) => StringAtPath(next, path[1..])
  }

  /** The loop of the source that walks `path` from the object `raw`. */
  method GetStringByPath(raw: seq<(string, Json)>, path: seq<string>) returns (r: string)
    ensures r == StringAtPath(JObject(raw), path)
  {
    var current := JObject(raw);
    var i := 0;
    while i < |path|
      invariant 0 <= i <= |path|
      invariant StringAtPath(current, path[i..]) == StringAtPath(JObject(raw), path)
    {
      if !current.JObject? {
        return "";
      }
      var next := GetByNormalizedKey(current.members, path[i]);
      if next.None? {
        return "";
      }
      assert path[i..][1..] == path[i + 1..];
      current := next.value;
      i := i + 1;
    }
    if !current.JString? {
      return "";
    }
    r := TrimSpace(current.s);
  }

  /** The first non-empty result among `paths` from index `j` on; the search
      walks `PreferredPaths`. */
  function FirstPreferred(v: Json, paths: seq<seq<string>>, j: nat): (r: string)
    requires j <= |paths|
    ensures IsTrimmed(r)
    decreases |paths| - j
  {
    if j == |paths| then ""
    else
      var t := StringAtPath(v, paths[j]);
      if t != "" then t else FirstPreferred(v, paths, j + 1)
  }

  /** The token found in `v`: for an array the first token among its items; for
      an object the first preferred path that yields one, else a depth-first scan
      of its members; "" for anything else or when nothing is found. */
  function ExtractToken(v: Json): (r: string)
    ensures IsTrimmed(r)
    decreases v, 1
  {
    match v
    case JArray(_) => ExtractFromItems(v, 0)
    case JObject(_) =>
      var preferred := FirstPreferred(v, PreferredPaths, 0);
      if preferred != "" then preferred else ScanMembers(v, 0)
    case _ => ""
  }

  function ExtractFromItems(v: Json, i: nat): (r: string)
    requires v.JArray? && i <= |v.items|
    ensures IsTrimmed(r)
    decreases v, 0, |v.items| - i
  {
    if i == |v.items| then ""
    else
      var t := ExtractToken(v.items[i]);
      if t != "" then t else ExtractFromItems(v, i + 1)
  }

  /** A member whose key is of the token family and whose value is a string that
      is not blank; `t` is that string trimmed. */
  predicate TokenMember(key: string, value: Json, t: string) {
    IsTokenKey(key) && value.JString? && t == TrimSpace(value.s) && t != ""
  }

  /** The depth-first scan over the members of an object, from member `i` on. */
  function ScanMembers(v: Json, i: nat): (r: string)
    requires v.JObject? && i <= |v.members|
    ensures IsTrimmed(r)
    decreases v, 0, |v.members| - i
  {
    if i == |v.members| then ""
    else
      var key := v.members[i].0;
      var nested := v.members[i].1;
      if IsTokenKey(key) && nested.JString? && TrimSpace(nested.s) != "" then TrimSpace(nested.s)
      else
        var t := ExtractToken(nested);
        if t != "" then t else ScanMembers(v, i + 1)
  }

  /** `t` is the trimmed, non-blank string value of some token-family key
      somewhere inside `v`. */
  ghost predicate TokenIn(v: Json, t: string)
    decreases v
  {
    match v
    case JArray(items) => exists i :: 0 <= i < |items| && TokenIn(items[i], t)
    case JObject(members) =>
      exists i :: 0 <= i < |members| &&
        (TokenMember(members[i].0, members[i].1, t) || TokenIn(members[i].1, t))
    case _ => false
  }

  /** A non-empty string found along a path ending in a token-family key is a
      token inside the document. */
  lemma {:induction false} StringAtPathSound(v: Json, path: seq<string>)
    requires |path| >= 1 && IsTokenKey(path[|path| - 1])
    requires StringAtPath(v, path) != ""
    ensures TokenIn(v, StringAtPath(v, path))
    decreases |path|
  {
    var i := PathStep(v, path);
    if |path| == 1 {
      LastStepFindsMember(v, path, i);
    } else {
      var rest := path[1..];
      assert rest[|rest| - 1] == path[|path| - 1];
      StringAtPathSound(v.members[i].1, rest);
    }
    TokenInMember(v, i, StringAtPath(v, path));
  }

  /** A token member of an object, or a token inside one of its member values,
      is a token inside the object. */
  lemma TokenInMember(v: Json, i: nat, t: string)
    requires v.JObject? && i < |v.members|
    requires TokenMember(v.members[i].0, v.members[i].1, t) || TokenIn(v.members[i].1, t)
    ensures TokenIn(v, t)
  {
  }

  /** On the last step of a path ending in a token-family key, the member
      reached is itself a token member. */
  lemma LastStepFindsMember(v: Json, path: seq<string>, i: nat)
    requires |path| == 1 && IsTokenKey(path[0])
    requires v.JObject? && i < |v.members|
    requires NormalizeTokenKey(v.members[i].0) == NormalizeTokenKey(path[0])
    requires StringAtPath(v.members[i].1, []) != ""
    ensures TokenMember(v.members[i].0, v.members[i].1, StringAtPath(v.members[i].1, []))
  {
  }

  /** A path that yields a string starts with a member of `v` whose key matches
      the first step, and the rest of the path yields the same string from that
      member's value. */
  lemma PathStep(v: Json, path: seq<string>) returns (i: nat)
    requires |path| >= 1 && StringAtPath(v, path) != ""
    ensures v.JObject? && i < |v.members|
    ensures NormalizeTokenKey(v.members[i].0) == NormalizeTokenKey(path[0])
    ensures StringAtPath(v.members[i].1, path[1..]) == StringAtPath(v, path)
  {
    var found := GetByNormalizedKey(v.members, path[0]);
    GetByNormalizedKeyMeaning(v.members, path[0]);
    i :| 0 <= i < |v.members| && v.members[i].1 == found.value
         && NormalizeTokenKey(v.members[i].0) == NormalizeTokenKey(path[0]);
  }

  /** Normalising `a + [c] + b`, with `a` and `b` already normal, only
      lower-cases `c` (or drops it when it is a separator). */
  lemma NormalizeAround(a: string, c: char, b: string)
    requires forall i :: 0 <= i < |a| ==> a[i] != '_' && a[i] != '-' && !('A' <= a[i] <= 'Z')
    requires forall i :: 0 <= i < |b| ==> b[i] != '_' && b[i] != '-' && !('A' <= b[i] <= 'Z')
    ensures NormalizeTokenKey(a + [c] + b) == a + (if c == '_' || c == '-' then [] else [Lower(c)]) + b
  {
    var head := if c == '_' || c == '-' then [] else [Lower(c)];
    assert NormalizeTokenKey([c]) == head by {
      assert [c][1..] == [];
    }
    NormalizeAppend(a, [c]);
    NormalizeAppend(a + [c], b);
    NormalizeFixes(a);
    NormalizeFixes(b);
  }

  lemma AccessTokenSpellings()
    ensures NormalizeTokenKey("accessToken") == "accesstoken"
    ensures NormalizeTokenKey("access_token") == "accesstoken"
  {
    var a, b := "access", "oken";
    NormalizeAround(a, 'T', b);
    assert a + ['T'] + b == "accessToken";
    assert a + [Lower('T')] + b == "accesstoken";
    var c := "token";
    NormalizeAround(a, '_', c);
    assert a + ['_'] + c == "access_token";
    assert a + [] + c == "accesstoken";
  }

  lemma IdTokenSpellings()
    ensures NormalizeTokenKey("idToken") == "idtoken"
    ensures NormalizeTokenKey("id_token") == "idtoken"
  {
    var a, b := "id", "oken";
    NormalizeAround(a, 'T', b);
    assert a + ['T'] + b == "idToken";
    assert a + [Lower('T')] + b == "idtoken";
    var c := "token";
    NormalizeAround(a, '_', c);
    assert a + ['_'] + c == "id_token";
    assert a + [] + c == "idtoken";
  }

  lemma PreferredPathsEndInTokenKeys(j: nat)
    requires j < |PreferredPaths|
    ensures IsTokenKey(PreferredPaths[j][|PreferredPaths[j]| - 1])
  {
    var key := PreferredPaths[j][|PreferredPaths[j]| - 1];
    if j == 0 || j == 5 {
      assert key == "token";
      NormalizeFixes("token");
    } else if j == 1 || j == 6 {
      assert key == "accessToken";
      AccessTokenSpellings();
    } else if j == 2 || j == 7 {
      assert key == "access_token";
      AccessTokenSpellings();
    } else if j == 3 || j == 8 {
      assert key == "idToken";
      IdTokenSpellings();
    } else {
      assert key == "id_token";
      IdTokenSpellings();
    }
  }

  /** Every path of `paths` ends in a token-family key. */
  predicate EndInTokenKeys(paths: seq<seq<string>>) {
    forall k :: 0 <= k < |paths| ==> |paths[k]| >= 1 && IsTokenKey(paths[k][|paths[k]| - 1])
  }

  lemma PreferredPathsAllEnd()
    ensures EndInTokenKeys(PreferredPaths)
  {
    forall k | 0 <= k < |PreferredPaths|
      ensures |PreferredPaths[k]| >= 1 && IsTokenKey(PreferredPaths[k][|PreferredPaths[k]| - 1])
    {
      PreferredPathsEndInTokenKeys(k);
    }
  }

  lemma {:induction false} FirstPreferredSound(v: Json, paths: seq<seq<string>>, j: nat)
    requires EndInTokenKeys(paths)
    requires j <= |paths|
    requires FirstPreferred(v, paths, j) != ""
    ensures TokenIn(v, FirstPreferred(v, paths, j))
    decreases |paths| - j
  {
    if StringAtPath(v, paths[j]) != "" {
      StringAtPathSound(v, paths[j]);
    } else {
      FirstPreferredSound(v, paths, j + 1);
    }
  }

  /** Soundness: whatever the search returns, if not empty, is a token-family
      string of the document. */
  lemma {:induction false} ExtractTokenSound(v: Json)
    requires ExtractToken(v) != ""
    ensures TokenIn(v, ExtractToken(v))
    decreases v, 1
  {
    match v
    case JArray(_) => ItemsSound(v, 0);
    case JObject(_) =>
      if FirstPreferred(v, PreferredPaths, 0) != "" {
        PreferredPathsAllEnd();
        FirstPreferredSound(v, PreferredPaths, 0);
      } else {
        ScanSound(v, 0);
      }
  }

  lemma {:induction false} ItemsSound(v: Json, i: nat)
    requires v.JArray? && i <= |v.items|
    requires ExtractFromItems(v, i) != ""
    ensures exists k :: i <= k < |v.items| && TokenIn(v.items[k], ExtractFromItems(v, i))
    decreases v, 0, |v.items| - i
  {
    if ExtractToken(v.items[i]) != "" {
      ExtractTokenSound(v.items[i]);
    } else {
      ItemsSound(v, i + 1);
    }
  }

  lemma {:induction false} ScanSound(v: Json, i: nat)
    requires v.JObject? && i <= |v.members|
    requires ScanMembers(v, i) != ""
    ensures exists k :: (i <= k < |v.members|
      && (TokenMember(v.members[k].0, v.members[k].1, ScanMembers(v, i)) || TokenIn(v.members[k].1, ScanMembers(v, i))))
    decreases v, 0, |v.members| - i
  {
    var key := v.members[i].0;
    var nested := v.members[i].1;
    if IsTokenKey(key) && nested.JString? && TrimSpace(nested.s) != "" {
      assert TokenMember(key, nested, ScanMembers(v, i));
    } else if ExtractToken(nested) != "" {
      ExtractTokenSound(nested);
    } else {
      ScanSound(v, i + 1);
    }
  }

  /** Completeness: if the document holds a token-family string anywhere, the
      search finds one (not necessarily that one). */
  lemma {:induction false} ExtractTokenComplete(v: Json, t: string)
    requires TokenIn(v, t)
    ensures ExtractToken(v) != ""
    decreases v, 1
  {
    match v
    case JArray(items) =>
      var k :| 0 <= k < |items| && TokenIn(items[k], t);
      ItemsComplete(v, 0, k, t);
    case JObject(members) =>
      if FirstPreferred(v, PreferredPaths, 0) == "" {
        var k :| 0 <= k < |members| && (TokenMember(members[k].0, members[k].1, t) || TokenIn(members[k].1, t));
        ScanComplete(v, 0, k, t);
      }
  }

  lemma {:induction false} ItemsComplete(v: Json, i: nat, k: nat, t: string)
    requires v.JArray? && i <= k < |v.items|
    requires TokenIn(v.items[k], t)
    ensures ExtractFromItems(v, i) != ""
    decreases v, 0, |v.items| - i
  {
    if ExtractToken(v.items[i]) == "" {
      if i == k {
        ExtractTokenComplete(v.items[k], t);
      } else {
        ItemsComplete(v, i + 1, k, t);
      }
    }
  }

  lemma {:induction false} ScanComplete(v: Json, i: nat, k: nat, t: string)
    requires v.JObject? && i <= k < |v.members|
    requires TokenMember(v.members[k].0, v.members[k].1, t) || TokenIn(v.members[k].1, t)
    ensures ScanMembers(v, i) != ""
    decreases v, 0, |v.members| - i
  {
    var key := v.members[i].0;
    var nested := v.members[i].1;
    if !(IsTokenKey(key) && nested.JString? && TrimSpace(nested.s) != "") && ExtractToken(nested) == "" {
      if i == k {
        ExtractTokenComplete(nested, t);
      } else {
        ScanComplete(v, i + 1, k, t);
      }
    }
  }

  /** The search comes back empty exactly when the document holds no token. */
  lemma ExtractTokenEmptyIff(v: Json)
    ensures ExtractToken(v) == "" <==> forall t :: !TokenIn(v, t)
  {
    if ExtractToken(v) != "" {
      ExtractTokenSound(v);
      assert TokenIn(v, ExtractToken(v));
    }
    forall t | TokenIn(v, t) ensures ExtractToken(v) != "" {
      ExtractTokenComplete(v, t);
    }
  }

  /** Priority: for an object, the first preferred path that yields a token wins
      over every later path and over the scan. */
  lemma {:induction false} PreferredPathWins(v: Json, j: nat)
    requires v.JObject? && j < |PreferredPaths|
    requires StringAtPath(v, PreferredPaths[j]) != ""
    requires forall k :: 0 <= k < j ==> StringAtPath(v, PreferredPaths[k]) == ""
    ensures ExtractToken(v) == StringAtPath(v, PreferredPaths[j])
  {
    PreferredFrom(v, PreferredPaths, 0, j);
  }

  lemma {:induction false} PreferredFrom(v: Json, paths: seq<seq<string>>, i: nat, j: nat)
    requires i <= j < |paths|
    requires StringAtPath(v, paths[j]) != ""
    requires forall k :: i <= k < j ==> StringAtPath(v, paths[k]) == ""
    ensures FirstPreferred(v, paths, i) == StringAtPath(v, paths[j])
  {
    var ys := Yields(v, paths);
    FirstPreferredIsFirstNonEmpty(v, paths, i);
    FirstNonEmptyAt(ys, i, j);
  }

  /** What each path yields, in order. */
  function Yields(v: Json, paths: seq<seq<string>>): (r: seq<string>)
    ensures |r| == |paths|
    ensures forall k :: 0 <= k < |paths| ==> r[k] == StringAtPath(v, paths[k])
  {
    seq(|paths|, k requires 0 <= k < |paths| => StringAtPath(v, paths[k]))
  }

  /** The first non-empty string of `ts` from index `i` on, or "". */
  function FirstNonEmpty(ts: seq<string>, i: nat): string
    requires i <= |ts|
    decreases |ts| - i
  {
    if i == |ts| then "" else if ts[i] != "" then ts[i] else FirstNonEmpty(ts, i + 1)
  }

  /** The search over paths is the first non-empty string among their yields. */
  lemma {:induction false} FirstPreferredIsFirstNonEmpty(v: Json, paths: seq<seq<string>>, i: nat)
    requires i <= |paths|
    ensures FirstPreferred(v, paths, i) == FirstNonEmpty(Yields(v, paths), i)
    decreases |paths| - i
  {
    if i < |paths| && StringAtPath(v, paths[i]) == "" {
      FirstPreferredIsFirstNonEmpty(v, paths, i + 1);
    }
  }

  /** A non-empty string preceded only by empty ones is the one found. */
  lemma {:induction false} FirstNonEmptyAt(ts: seq<string>, i: nat, j: nat)
    requires i <= j < |ts| && ts[j] != ""
    requires forall k :: i <= k < j ==> ts[k] == ""
    ensures FirstNonEmpty(ts, i) == ts[j]
    decreases j - i
  {
    if i < j {
      FirstNonEmptyAt(ts, i + 1, j);
    }
  }

  // ---------------------------------------------------------------------------
  // Parsing the command output

  /** What the token comes from when the output is JSON: a JSON string gives its
      trimmed value, any other document a token-family string inside it. */
  ghost predicate CarriesToken(v: Json, t: string) {
    if v.JString? then t == TrimSpace(v.s) && t != "" else TokenIn(v, t)
  }

  /** Turns the (trimmed) command output into a token. `unmarshal` stands for
      `json.Unmarshal`. */
  function ParseKubeExecToken(output: string, unmarshal: string -> Decoded): (r: Result<string, TokenError>)
    ensures output == "" ==> r == Err(EmptyOutput)
    ensures output != "" && !LooksLikeJson(output) ==> r == Ok(output)
    ensures LooksLikeJson(output) && unmarshal(output).Malformed? ==> r == Err(NotValidJson)
    ensures LooksLikeJson(output) && unmarshal(output).Parsed? && r.Err? ==> r.error == MissingTokenField
    ensures LooksLikeJson(output) && r.Ok? ==> r.value != "" && IsTrimmed(r.value)
  {
    if output == "" then Err(EmptyOutput)
    else if !LooksLikeJson(output) then Ok(output)
    else match unmarshal(output)
      case Malformed => Err(NotValidJson)
      case Parsed(JString(s)) =>
        var token := TrimSpace(s);
        if token == "" then Err(MissingTokenField) else Ok(token)
      case Parsed(value) =>
        var token := ExtractToken(value);
        if token == "" then Err(MissingTokenField) else Ok(token)
  }

  /** What the JSON branch of `ParseKubeExecToken` takes as the token of a
      decoded document ("" for none). */
  function JsonToken(v: Json): string {
    if v.JString? then TrimSpace(v.s) else ExtractToken(v)
  }

  /** A document yields a token exactly when it carries one, and what it yields
      is carried by it. */
  lemma JsonTokenIff(v: Json)
    ensures JsonToken(v) != "" <==> exists t :: CarriesToken(v, t)
    ensures JsonToken(v) != "" ==> CarriesToken(v, JsonToken(v))
  {
    if v.JString? {
      if JsonToken(v) != "" {
        assert CarriesToken(v, JsonToken(v));
      }
    } else {
      ExtractTokenEmptyIff(v);
      if JsonToken(v) != "" {
        ExtractTokenSound(v);
        assert CarriesToken(v, JsonToken(v));
      }
      if exists t :: CarriesToken(v, t) {
        var t :| CarriesToken(v, t);
        assert TokenIn(v, t);
      }
    }
  }

  /** For JSON output, a token comes back exactly when the document carries one,
      and what comes back is carried by the document. */
  lemma ParsedOutputToken(output: string, unmarshal: string -> Decoded)
    requires LooksLikeJson(output) && unmarshal(output).Parsed?
    ensures var r := ParseKubeExecToken(output, unmarshal);
            var v := unmarshal(output).value;
            && (r.Ok? <==> exists t :: CarriesToken(v, t))
            && (r.Ok? ==> CarriesToken(v, r.value))
  {
    var v := unmarshal(output).value;
    var r := ParseKubeExecToken(output, unmarshal);
    assert r == if JsonToken(v) == "" then Err(MissingTokenField) else Ok(JsonToken(v));
    JsonTokenIff(v);
  }

  /** The exec branch of `resolveKubeToken`: the command must be named; its
      output is trimmed before it is parsed. */
  function ExecToken(exec: KubeExec, run: ExecRun, unmarshal: string -> Decoded): (r: Result<string, TokenError>)
    ensures exec.command == "" ==> r == Err(CommandRequired)
    ensures exec.command != "" && run.Failed? ==> r == Err(RunFailed(TrimSpace(run.stderr)))
    ensures exec.command != "" && run.Completed? ==> r == ParseKubeExecToken(TrimSpace(run.stdout), unmarshal)
    ensures r.Ok? ==> r.value != "" && IsTrimmed(r.value)
  {
    if exec.command == "" then Err(CommandRequired)
    else match run
      case Failed(stderr) => Err(RunFailed(TrimSpace(stderr)))
      case Completed(stdout) => ParseKubeExecToken(TrimSpace(stdout), unmarshal)
  }

  /** A static token wins; without one and without an exec block there is no
      token and no error; otherwise the exec command supplies it. */
  function ResolveKubeToken(auth: KubeAuth, run: ExecRun, unmarshal: string -> Decoded): (r: Result<string, TokenError>)
    ensures auth.token != "" ==> r == Ok(auth.token)
    ensures auth.token == "" && auth.exec.None? ==> r == Ok("")
    ensures auth.token == "" && auth.exec.Some? && auth.exec.value.command == "" ==> r == Err(CommandRequired)
    ensures auth.token == "" && r.Ok? && r.value != "" ==> auth.exec.Some? && IsTrimmed(r.value)
  {
    if auth.token != "" then Ok(auth.token)
    else if auth.exec.None? then Ok("")
    else ExecToken(auth.exec.value, run, unmarshal)
  }
}
