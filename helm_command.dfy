/** The Helm command builder the provider hands to its resources: the Helm
    binary, the caller's arguments, then the Kubernetes connection flags in a
    fixed order; plus the redaction of the bearer token before the command line
    is logged. */
module HelmCommand {
  import opened Results
  import opened Strings
  import opened Json
  import opened KubeToken
  import opened Flags

  /** The configured provider as the resources see it. */
  datatype ProviderConfig = ProviderConfig(
    helmBinPath: string,
    gitBinPath: string,
    helmVersion: string,
    cacheDir: string,
    kubeAuth: KubeAuth)

  /** Every Helm command resolves the bearer token except an empty one and the
      `dependency` family, which never contacts the cluster. */
  predicate NeedsKubeToken(args: seq<string>) {
    |args| > 0 && args[0] != "dependency"
  }

  const TokenFlag := "--kube-token"

  /** The connection flags, in the order they are appended. */
  const AuthFlagOrder: seq<string> := [
    "--kube-apiserver",
    "--kube-as-user",
    "--kube-as-group",
    "--kube-ca-file",
    "--kube-context",
    "--kube-insecure-skip-tls-verify",
    "--kube-tls-server-name",
    TokenFlag,
    "--kubeconfig"
  ]

  /** The connection flags that do not depend on the token: the first seven
      of `AuthFlagOrder`. */
  function ConnectionTable(auth: KubeAuth): (table: seq<Entry>) {
    [ IfNonEmpty("--kube-apiserver", auth.apiServer),
      IfNonEmpty("--kube-as-user", auth.asUser),
      IfNonEmpty("--kube-as-group", auth.asGroup),
      IfNonEmpty("--kube-ca-file", auth.caFile),
      IfNonEmpty("--kube-context", auth.context),
      IfTrue("--kube-insecure-skip-tls-verify", auth.insecureSkipTlsVerify),
      IfNonEmpty("--kube-tls-server-name", auth.tlsServerName) ]
  }

  /** The connection flags the builder may append, given the token to pass
      ("" for none); the flag names are those of `AuthFlagOrder`, in that order. */
  function AuthTable(auth: KubeAuth, token: string): seq<Entry> {
    ConnectionTable(auth) + [IfNonEmpty(TokenFlag, token), IfNonEmpty("--kubeconfig", auth.kubeconfig)]
  }

  /** The flags of the table are those of `AuthFlagOrder`, in that order. */
  lemma AuthTableNames(auth: KubeAuth, token: string)
    ensures Names(AuthTable(auth, token)) == AuthFlagOrder
  {
    var t := AuthTable(auth, token);
    assert forall i :: 0 <= i < 9 ==> t[i].name == AuthFlagOrder[i];
  }

  lemma AuthFlagsDistinct(auth: KubeAuth, token: string)
    ensures DistinctNames(AuthTable(auth, token))
  {
    var t := AuthTable(auth, token);
    forall i, j | 0 <= i < j < |t| ensures t[i].name != t[j].name {
      assert t[i].name == AuthFlagOrder[i] && t[j].name == AuthFlagOrder[j];
      assert AuthFlagOrder[i][..8] != AuthFlagOrder[j][..8] || |AuthFlagOrder[i]| != |AuthFlagOrder[j]|
        || AuthFlagOrder[i][8..] != AuthFlagOrder[j][8..];
    }
  }

  /** The command line for `args` when `token` is the token to pass. */
  function HelmArgv(cfg: ProviderConfig, args: seq<string>, token: string): seq<string> {
    [cfg.helmBinPath] + args + Render(AuthTable(cfg.kubeAuth, token))
  }

  /** The token a command passes: none for commands that need none (nothing is
      resolved for them), else the resolved one. */
  function TokenFor(cfg: ProviderConfig, args: seq<string>, run: ExecRun, unmarshal: string -> Decoded): Result<string, TokenError> {
    if NeedsKubeToken(args) then ResolveKubeToken(cfg.kubeAuth, run, unmarshal) else Ok("")
  }

  /** What `helmCmdFunc` gives for `args`: the command line, or the error of
      resolving the token. `run` is what the exec-credential command gives when
      it is run. */
  function HelmCommandLine(cfg: ProviderConfig, args: seq<string>, run: ExecRun, unmarshal: string -> Decoded): (r: Result<seq<string>, TokenError>)
    ensures r.Ok? ==> |r.value| >= 1 + |args| && r.value[..1 + |args|] == [cfg.helmBinPath] + args
    ensures r.Err? ==> NeedsKubeToken(args) && cfg.kubeAuth.token == "" && cfg.kubeAuth.exec.Some?
  {
    match TokenFor(cfg, args, run, unmarshal)
    case Err(e) => Err(e)
    case Ok(token) =>
      var argv := HelmArgv(cfg, args, token);
      assert argv[..1 + |args|] == [cfg.helmBinPath] + args;
      Ok(argv)
  }

  /** One `if` of the builder: appends the entry's words when it is set. */
  method AppendFlag(argv: seq<string>, e: Entry) returns (r: seq<string>)
    ensures r == argv + Words(e)
  {
    match e.setting
    case Unset => r := argv;
    case Bare => r := argv + [e.name];
    case Valued(v) => r := argv + [e.name, v];
  }

  /** The first seven `if`s of `helmCmdFunc`, taken in turn: one entry of the
      connection table each. */
  method AppendConnectionFlags(argv: seq<string>, auth: KubeAuth) returns (r: seq<string>)
    ensures r == argv + Render(ConnectionTable(auth))
  {
    var t := ConnectionTable(auth);
    r := argv;
    assert t[..0] == [];
    var k := 0;
    while k < |t|
      invariant 0 <= k <= |t|
      invariant r == argv + Render(t[..k])
    {
      var next := AppendFlag(r, t[k]);
      AppendedPrefix(argv, t, k, r, next);
      r := next;
      k := k + 1;
    }
    assert t[..k] == t;
  }

  /** After appending the words of entry `k`, the line renders one more entry of
      the table. */
  lemma AppendedPrefix(head: seq<string>, t: seq<Entry>, k: nat, before: seq<string>, after: seq<string>)
    requires k < |t|
    requires before == head + Render(t[..k])
    requires after == before + Words(t[k])
    ensures after == head + Render(t[..k + 1])
  {
    assert t[..k + 1] == t[..k] + [t[k]];
    RenderSnoc(t[..k], t[k]);
  }

  /** The body of `helmCmdFunc`: appends the connection flags one at a time, in
      the order of `AuthFlagOrder`; the token is resolved only for commands that
      need it, and a resolution error ends the build. */
  method HelmCmd(cfg: ProviderConfig, args: seq<string>, run: ExecRun, unmarshal: string -> Decoded)
    returns (r: Result<seq<string>, TokenError>)
    ensures r == HelmCommandLine(cfg, args, run, unmarshal)
  {
    var auth := cfg.kubeAuth;
    var argv := [cfg.helmBinPath] + args;
    ghost var head := argv;
    argv := AppendConnectionFlags(argv, auth);

    var token := "";
    if NeedsKubeToken(args) {
      var resolved := ResolveKubeToken(auth, run, unmarshal);
      if resolved.Err? {
        assert TokenFor(cfg, args, run, unmarshal) == resolved;
        return Err(resolved.error);
      }
      token := resolved.value;
    }
    ghost var t := AuthTable(auth, token);
    assert t[..7] == ConnectionTable(auth);
    var withToken := AppendFlag(argv, IfNonEmpty(TokenFlag, token));
    AppendedPrefix(head, t, 7, argv, withToken);
    argv := AppendFlag(withToken, IfNonEmpty("--kubeconfig", auth.kubeconfig));
    AppendedPrefix(head, t, 8, withToken, argv);
    assert t[..9] == t;

    assert TokenFor(cfg, args, run, unmarshal) == Ok(token);
    r := Ok(argv);
  }

  // ---------------------------------------------------------------------------
  // Properties of the command line

  /** The words after the binary and the arguments are those of the emitted
      connection flags. */
  lemma AuthFlagSegment(cfg: ProviderConfig, args: seq<string>, token: string)
    ensures HelmArgv(cfg, args, token) == [cfg.helmBinPath] + args + Render(Emitted(AuthTable(cfg.kubeAuth, token)))
    ensures HelmArgv(cfg, args, token)[1 + |args|..] == Render(Emitted(AuthTable(cfg.kubeAuth, token)))
  {
    var t := AuthTable(cfg.kubeAuth, token);
    RenderEmitted(t);
    assert ([cfg.helmBinPath] + args + Render(t))[1 + |args|..] == Render(t);
  }

  /** After the binary and the arguments, the command line is exactly the words
      of the emitted connection flags, one after the other. Each flag is
      emitted exactly when its setting is given, and then with that setting as
      its value. */
  lemma AuthFlagsPresence(cfg: ProviderConfig, args: seq<string>, token: string)
    ensures var auth := cfg.kubeAuth;
      var flags := Emitted(AuthTable(auth, token));
      var emitted := Names(flags);
      && HelmArgv(cfg, args, token)[1 + |args|..] == Render(flags)
      && ("--kube-apiserver" in emitted <==> auth.apiServer != "")
      && ("--kube-as-user" in emitted <==> auth.asUser != "")
      && ("--kube-as-group" in emitted <==> auth.asGroup != "")
      && ("--kube-ca-file" in emitted <==> auth.caFile != "")
      && ("--kube-context" in emitted <==> auth.context != "")
      && ("--kube-insecure-skip-tls-verify" in emitted <==> auth.insecureSkipTlsVerify)
      && ("--kube-tls-server-name" in emitted <==> auth.tlsServerName != "")
      && (TokenFlag in emitted <==> token != "")
      && ("--kubeconfig" in emitted <==> auth.kubeconfig != "")
      && (auth.apiServer != "" ==> Entry("--kube-apiserver", Valued(auth.apiServer)) in flags)
      && (auth.asUser != "" ==> Entry("--kube-as-user", Valued(auth.asUser)) in flags)
      && (auth.asGroup != "" ==> Entry("--kube-as-group", Valued(auth.asGroup)) in flags)
      && (auth.caFile != "" ==> Entry("--kube-ca-file", Valued(auth.caFile)) in flags)
      && (auth.context != "" ==> Entry("--kube-context", Valued(auth.context)) in flags)
      && (auth.insecureSkipTlsVerify ==> Entry("--kube-insecure-skip-tls-verify", Bare) in flags)
      && (auth.tlsServerName != "" ==> Entry("--kube-tls-server-name", Valued(auth.tlsServerName)) in flags)
      && (token != "" ==> Entry(TokenFlag, Valued(token)) in flags)
      && (auth.kubeconfig != "" ==> Entry("--kubeconfig", Valued(auth.kubeconfig)) in flags)
  {
    var t := AuthTable(cfg.kubeAuth, token);
    AuthFlagSegment(cfg, args, token);
    AuthFlagsDistinct(cfg.kubeAuth, token);
    FlagEmittedIff(t, 0);
    FlagEmittedIff(t, 1);
    FlagEmittedIff(t, 2);
    FlagEmittedIff(t, 3);
    FlagEmittedIff(t, 4);
    FlagEmittedIff(t, 5);
    FlagEmittedIff(t, 6);
    FlagEmittedIff(t, 7);
    FlagEmittedIff(t, 8);
  }

  /** The emitted connection flags come in the order of `AuthFlagOrder`: of two
      emitted flags, the earlier one's name sits earlier on the command line. */
  lemma AuthFlagsInOrder(cfg: ProviderConfig, args: seq<string>, token: string, k: nat, l: nat)
    requires k < l < |Emitted(AuthTable(cfg.kubeAuth, token))|
    ensures var flags := Emitted(AuthTable(cfg.kubeAuth, token));
      var argv := HelmArgv(cfg, args, token);
      var p, q := 1 + |args| + |Render(flags[..k])|, 1 + |args| + |Render(flags[..l])|;
      && p < q < |argv| && argv[p] == flags[k].name && argv[q] == flags[l].name
      && exists i, j :: 0 <= i < j < |AuthFlagOrder| && flags[k].name == AuthFlagOrder[i] && flags[l].name == AuthFlagOrder[j]
  {
    var flags := Emitted(AuthTable(cfg.kubeAuth, token));
    var argv := HelmArgv(cfg, args, token);
    AuthFlagSegment(cfg, args, token);
    FlagsAt(argv, cfg.helmBinPath, args, flags, k, l);
    AuthFlagNamesOrdered(cfg.kubeAuth, token, k, l);
  }

  /** `FlagsInLine` for a command line made of a binary, its arguments and
      the words of `flags`. */
  lemma FlagsAt(argv: seq<string>, bin: string, args: seq<string>, flags: seq<Entry>, k: nat, l: nat)
    requires argv == [bin] + args + Render(flags)
    requires k < l < |flags| && !flags[k].setting.Unset? && !flags[l].setting.Unset?
    ensures var p, q := 1 + |args| + |Render(flags[..k])|, 1 + |args| + |Render(flags[..l])|;
      p < q < |argv| && argv[p] == flags[k].name && argv[q] == flags[l].name
  {
    var head := [bin] + args;
    assert |head| == 1 + |args|;
    FlagPosition(flags, k);
    FlagPosition(flags, l);
    PositionsIncrease(flags, k, l);
    assert argv[|head|..] == Render(flags);
  }

  /** Two emitted connection flags are named in the order of `AuthFlagOrder`. */
  lemma AuthFlagNamesOrdered(auth: KubeAuth, token: string, k: nat, l: nat)
    requires k < l < |Emitted(AuthTable(auth, token))|
    ensures var flags := Emitted(AuthTable(auth, token));
      exists i, j :: 0 <= i < j < |AuthFlagOrder| && flags[k].name == AuthFlagOrder[i] && flags[l].name == AuthFlagOrder[j]
  {
    var t := AuthTable(auth, token);
    var i, j := EmittedOrigins(t, k, l);
    AuthTableNames(auth, token);
    assert Names(t)[i] == t[i].name && Names(t)[j] == t[j].name;
  }

  /** A `dependency` command (or an empty one) never resolves the token: it
      cannot fail, whatever the exec command would do, and carries no token
      flag. */
  lemma DependencyCommandsSkipToken(cfg: ProviderConfig, args: seq<string>, run: ExecRun, unmarshal: string -> Decoded)
    requires args == [] || args[0] == "dependency"
    ensures HelmCommandLine(cfg, args, run, unmarshal) == Ok(HelmArgv(cfg, args, ""))
    ensures TokenFlag !in Names(Emitted(AuthTable(cfg.kubeAuth, "")))
  {
    AuthFlagsPresence(cfg, args, "");
  }

  /** Any other command fails exactly when resolution fails; otherwise its
      connection flags carry the token flag exactly when a non-empty token was
      resolved, with that token as its value. */
  lemma TokenFlagWhenResolved(cfg: ProviderConfig, args: seq<string>, run: ExecRun, unmarshal: string -> Decoded)
    requires NeedsKubeToken(args)
    ensures var resolved := ResolveKubeToken(cfg.kubeAuth, run, unmarshal);
      var r := HelmCommandLine(cfg, args, run, unmarshal);
      && (r.Err? <==> resolved.Err?)
      && (resolved.Ok? ==> r == Ok(HelmArgv(cfg, args, resolved.value)))
      && (resolved.Ok? ==>
            var flags := Emitted(AuthTable(cfg.kubeAuth, resolved.value));
            && r.value[1 + |args|..] == Render(flags)
            && (TokenFlag in Names(flags) <==> resolved.value != "")
            && (resolved.value != "" ==> Entry(TokenFlag, Valued(resolved.value)) in flags))
  {
    var resolved := ResolveKubeToken(cfg.kubeAuth, run, unmarshal);
    if resolved.Ok? {
      AuthFlagsPresence(cfg, args, resolved.value);
    }
  }

  /** A static token is passed as it is, right after `--kube-token`. */
  lemma StaticTokenFollowsFlag(cfg: ProviderConfig, args: seq<string>, run: ExecRun, unmarshal: string -> Decoded)
    requires NeedsKubeToken(args) && cfg.kubeAuth.token != ""
    ensures var r := HelmCommandLine(cfg, args, run, unmarshal);
      r.Ok? && exists p :: 0 <= p < |r.value| - 1 && r.value[p] == TokenFlag && r.value[p + 1] == cfg.kubeAuth.token
  {
    var p := TokenPosition(cfg, args, cfg.kubeAuth.token);
  }

  /** Where the token flag sits in a command line that carries one: after the
      binary, the arguments and the first seven connection flags. */
  lemma TokenPosition(cfg: ProviderConfig, args: seq<string>, token: string) returns (p: nat)
    requires token != ""
    ensures var argv := HelmArgv(cfg, args, token);
      && p + 1 < |argv| && argv[p] == TokenFlag && argv[p + 1] == token
      && argv[..p] == [cfg.helmBinPath] + args + Render(AuthTable(cfg.kubeAuth, token)[..7])
  {
    var t := AuthTable(cfg.kubeAuth, token);
    var front, back := t[..7], t[8..];
    assert Render(t) == Render(front) + [TokenFlag, token] + Render(back) by {
      assert t == front + [t[7]] + back;
      RenderAround(front, t[7], back);
      assert t[7] == IfNonEmpty(TokenFlag, token);
    }
    var head := [cfg.helmBinPath] + args + Render(front);
    var argv := HelmArgv(cfg, args, token);
    assert argv == head + [TokenFlag, token] + Render(back);
    p := |head|;
    assert argv[..p] == head;
  }

  // ---------------------------------------------------------------------------
  // Redaction

  const RedactedAssignment := "--kube-token=REDACTED"
  const RedactedValue := "REDACTED"

  /** The argument list as logged: a `--kube-token=...` element is replaced as a
      whole, and the element after a bare `--kube-token` is replaced and then
      skipped. */
  function RedactedArgs(args: seq<string>): (r: seq<string>)
    ensures |r| == |args|
    decreases |args|
  {
    if args == [] then []
    else if HasPrefix(args[0], TokenFlag + "=") then [RedactedAssignment] + RedactedArgs(args[1..])
    else if args[0] == TokenFlag && |args| > 1 then [TokenFlag, RedactedValue] + RedactedArgs(args[2..])
    else [args[0]] + RedactedArgs(args[1..])
  }

  /** `redactHelmArgs`: copies the arguments into a fresh array, masks it in
      place and joins the result with spaces. The caller's arguments are a
      value and stay as they were. */
  method RedactHelmArgs(args: seq<string>) returns (line: string)
    ensures line == JoinWith(RedactedArgs(args), " ")
  {
    var redacted := new string[|args|](j requires 0 <= j < |args| => args[j]);
    assert redacted[..] == args;
    MaskTokens(redacted);
    line := JoinWith(redacted[..], " ");
  }

  /** The masking loop of `redactHelmArgs`: an index loop that replaces a
      `--kube-token=...` element, or the element after a bare `--kube-token`
      and then skips it. */
  method MaskTokens(a: array<string>)
    modifies a
    ensures a[..] == RedactedArgs(old(a[..]))
  {
    ghost var args := a[..];
    var i := 0;
    while i < a.Length
      invariant 0 <= i <= a.Length == |args|
      invariant a[..i] + RedactedArgs(args[i..]) == RedactedArgs(args)
      invariant forall j :: i <= j < a.Length ==> a[j] == args[j]
    {
      ghost var before := a[..i];
      RedactedFrom(args, i);
      if HasPrefix(a[i], TokenFlag + "=") {
        a[i] := RedactedAssignment;
        MaskStep(before, [RedactedAssignment], RedactedArgs(args[i + 1..]), RedactedArgs(args));
        assert a[..i + 1] == before + [RedactedAssignment];
      } else if a[i] == TokenFlag && i + 1 < a.Length {
        a[i + 1] := RedactedValue;
        MaskStep(before, [TokenFlag, RedactedValue], RedactedArgs(args[i + 2..]), RedactedArgs(args));
        assert a[..i + 2] == before + [TokenFlag, RedactedValue];
        i := i + 1;
      } else {
        MaskStep(before, [args[i]], RedactedArgs(args[i + 1..]), RedactedArgs(args));
        assert a[..i + 1] == before + [args[i]];
      }
      i := i + 1;
    }
    assert a[..] == a[..i];
  }

  /** One turn of the masking loop: the masked prefix grows by the words
      `w` that the redaction of the remaining suffix starts with. */
  lemma MaskStep(before: seq<string>, w: seq<string>, rest: seq<string>, whole: seq<string>)
    requires before + (w + rest) == whole
    ensures (before + w) + rest == whole
  {
    assert (before + w) + rest == before + (w + rest);
  }

  /** How the redaction of a suffix starts. */
  lemma RedactedFrom(args: seq<string>, i: nat)
    requires i < |args|
    ensures HasPrefix(args[i], TokenFlag + "=") ==>
      RedactedArgs(args[i..]) == [RedactedAssignment] + RedactedArgs(args[i + 1..])
    ensures !HasPrefix(args[i], TokenFlag + "=") && args[i] == TokenFlag && i + 1 < |args| ==>
      RedactedArgs(args[i..]) == [TokenFlag, RedactedValue] + RedactedArgs(args[i + 2..])
    ensures !HasPrefix(args[i], TokenFlag + "=") && !(args[i] == TokenFlag && i + 1 < |args|) ==>
      RedactedArgs(args[i..]) == [args[i]] + RedactedArgs(args[i + 1..])
  {
    assert args[i..][1..] == args[i + 1..];
    if i + 1 < |args| {
      assert args[i..][2..] == args[i + 2..];
    }
  }

  /** Elements that are neither a `--kube-token=...` assignment nor the element
      after a bare `--kube-token` are logged unchanged. */
  lemma {:induction false} RedactionKeepsOthers(args: seq<string>, i: nat)
    requires i < |args|
    ensures var r := RedactedArgs(args);
      || r[i] == args[i]
      || (HasPrefix(args[i], TokenFlag + "=") && r[i] == RedactedAssignment)
      || (i > 0 && args[i - 1] == TokenFlag && r[i] == RedactedValue)
    decreases |args|
  {
    if HasPrefix(args[0], TokenFlag + "=") || !(args[0] == TokenFlag && |args| > 1) {
      if i > 0 {
        RedactionKeepsOthers(args[1..], i - 1);
      }
    } else if i > 1 {
      RedactionKeepsOthers(args[2..], i - 2);
    }
  }

  /** What is logged is clean: whatever follows a logged bare `--kube-token` is
      `REDACTED`, and the only logged element starting with `--kube-token=` is
      `--kube-token=REDACTED`. */
  lemma {:induction false} RedactedIsClean(args: seq<string>)
    ensures var r := RedactedArgs(args);
      && (forall i :: 0 < i < |r| && r[i - 1] == TokenFlag ==> r[i] == RedactedValue)
      && (forall i :: 0 <= i < |r| && HasPrefix(r[i], TokenFlag + "=") ==> r[i] == RedactedAssignment)
    decreases |args|
  {
    if args != [] {
      var r := RedactedArgs(args);
      if HasPrefix(args[0], TokenFlag + "=") {
        RedactedIsClean(args[1..]);
        assert forall i :: 1 <= i < |r| ==> r[i] == RedactedArgs(args[1..])[i - 1];
      } else if args[0] == TokenFlag && |args| > 1 {
        RedactedIsClean(args[2..]);
        assert forall i :: 2 <= i < |r| ==> r[i] == RedactedArgs(args[2..])[i - 2];
        assert !HasPrefix(RedactedValue, TokenFlag + "=");
        assert !HasPrefix(TokenFlag, TokenFlag + "=");
      } else {
        RedactedIsClean(args[1..]);
        assert forall i :: 1 <= i < |r| ==> r[i] == RedactedArgs(args[1..])[i - 1];
        assert r[0] == args[0];
        if |args| > 1 {
          assert r[0] != TokenFlag;
        }
      }
    }
  }

  /** Redacting a list whose front holds no bare `--kube-token` redacts the two
      parts separately. */
  lemma {:induction false} RedactAppend(a: seq<string>, b: seq<string>)
    requires TokenFlag !in a
    ensures RedactedArgs(a + b) == RedactedArgs(a) + RedactedArgs(b)
    decreases |a|
  {
    if a == [] {
      assert a + b == b;
    } else {
      assert (a + b)[0] == a[0] && (a + b)[1..] == a[1..] + b;
      assert a[0] != TokenFlag;
      RedactAppend(a[1..], b);
    }
  }

  /** The token the builder adds never reaches the log, provided no bare
      `--kube-token` precedes the one the builder appends. */
  lemma TokenHiddenInLog(cfg: ProviderConfig, args: seq<string>, token: string) returns (p: nat)
    requires token != ""
    requires TokenFlag !in [cfg.helmBinPath] + args + Render(AuthTable(cfg.kubeAuth, token)[..7])
    ensures var argv := HelmArgv(cfg, args, token);
      && p + 1 < |argv| && argv[p] == TokenFlag && argv[p + 1] == token
      && RedactedArgs(argv)[p + 1] == RedactedValue
  {
    p := TokenPosition(cfg, args, token);
    TokenMaskedAt(HelmArgv(cfg, args, token), p);
  }

  /** The first bare `--kube-token` of a list keeps its place in the
      redaction, and the element after it is masked. */
  lemma TokenMaskedAt(line: seq<string>, p: nat)
    requires p + 1 < |line| && line[p] == TokenFlag && TokenFlag !in line[..p]
    ensures RedactedArgs(line)[p] == TokenFlag && RedactedArgs(line)[p + 1] == RedactedValue
  {
    assert line == line[..p] + line[p..];
    RedactAppend(line[..p], line[p..]);
    assert line[p..][0] == TokenFlag && |line[p..]| > 1;
    assert !HasPrefix(TokenFlag, TokenFlag + "=");
    assert RedactedArgs(line[p..])[..2] == [TokenFlag, RedactedValue];
  }

  /** The proviso of `TokenHiddenInLog` is needed. With `kube_context` set to
      `--kube-token`, the builder passes that value as a word of its own, right
      before the real token flag. */
  lemma ContextTokenLine(cfg: ProviderConfig, run: ExecRun, unmarshal: string -> Decoded)
    requires cfg.helmBinPath == "helm"
    requires cfg.kubeAuth == KubeAuth("", "", "", "", TokenFlag, false, "", "s3cret", "", None)
    ensures HelmCommandLine(cfg, ["list"], run, unmarshal)
              == Ok(["helm", "list", "--kube-context", TokenFlag, TokenFlag, "s3cret"])
  {
    assert TokenFor(cfg, ["list"], run, unmarshal) == Ok("s3cret");
    ContextTokenFlags(cfg.kubeAuth);
    assert HelmCommandLine(cfg, ["list"], run, unmarshal) == Ok(HelmArgv(cfg, ["list"], "s3cret"));
    assert HelmArgv(cfg, ["list"], "s3cret") == ["helm", "list"] + ["--kube-context", TokenFlag, TokenFlag, "s3cret"]
                                            == ["helm", "list", "--kube-context", TokenFlag, TokenFlag, "s3cret"];
  }

  /** The connection flags of that configuration. */
  lemma ContextTokenFlags(auth: KubeAuth)
    requires auth == KubeAuth("", "", "", "", TokenFlag, false, "", "s3cret", "", None)
    ensures Render(AuthTable(auth, "s3cret")) == ["--kube-context", TokenFlag, TokenFlag, "s3cret"]
  {
    var ct := ConnectionTable(auth);
    var e7, e8 := IfNonEmpty(TokenFlag, "s3cret"), IfNonEmpty("--kubeconfig", "");
    assert AuthTable(auth, "s3cret") == ct + [e7] + [e8];
    RenderAround(ct, e7, [e8]);
    RenderNothingSet([e8]);
    OnlyContextConnection(auth);
  }

  /** With only a kube context configured, the connection flags are that
      context alone. */
  lemma OnlyContextConnection(auth: KubeAuth)
    requires auth.apiServer == "" && auth.asUser == "" && auth.asGroup == "" && auth.caFile == ""
    requires auth.context != "" && !auth.insecureSkipTlsVerify && auth.tlsServerName == ""
    ensures Render(ConnectionTable(auth)) == ["--kube-context", auth.context]
  {
    var ct := ConnectionTable(auth);
    assert ct == ct[..4] + [ct[4]] + ct[5..];
    RenderAround(ct[..4], ct[4], ct[5..]);
    RenderNothingSet(ct[..4]);
    RenderNothingSet(ct[5..]);
  }

  /** The redaction then reads the context value as a bare token flag: it
      masks the real flag after it, and the token is logged as it is. */
  lemma ContextTokenRedacted()
    ensures RedactedArgs(["helm", "list", "--kube-context", TokenFlag, TokenFlag, "s3cret"])
              == ["helm", "list", "--kube-context", TokenFlag, RedactedValue, "s3cret"]
  {
    var a := ["helm", "list", "--kube-context", TokenFlag, TokenFlag, "s3cret"];
    assert "--kube-context"[7] != (TokenFlag + "=")[7];
    assert !HasPrefix("--kube-context", TokenFlag + "=");
    assert RedactedArgs(a[5..]) == ["s3cret"];
    assert RedactedArgs(a[3..]) == [TokenFlag, RedactedValue] + RedactedArgs(a[5..]);
    assert RedactedArgs(a[2..]) == ["--kube-context"] + RedactedArgs(a[3..]);
    assert RedactedArgs(a[1..]) == ["list"] + RedactedArgs(a[2..]);
  }
}
