/**
 * The per-token automation engine (`BaseUndetectedPlaywright`): its fixed
 * baseline of launch flags, the profile directory derived from the token, the
 * remote-control flag and activity timestamp, and the launch step that turns
 * the stored fingerprint profile into extra command-line arguments.
 */
module Engine {
  import opened Wrappers
  import opened Text
  import opened Tokens
  import opened Fingerprint
  import opened Driver

  /** The baseline flags every engine starts with, in order. */
  const DEFAULT_ARGS: seq<string> := [
    "--incognito", "--accept-lang=en-US", "--lang=en-US", "--no-pings", "--mute-audio",
    "--no-first-run", "--no-default-browser-check", "--disable-cloud-import",
    "--disable-gesture-typing", "--disable-offer-store-unmasked-wallet-cards",
    "--disable-offer-upload-credit-cards", "--disable-print-preview", "--disable-voice-input",
    "--disable-wake-on-wifi", "--disable-cookie-encryption", "--ignore-gpu-blocklist",
    "--enable-async-dns", "--enable-simple-cache-backend", "--enable-tcp-fast-open",
    "--prerender-from-omnibox=disabled", "--enable-web-bluetooth",
    "--disable-features=AudioServiceOutOfProcess,IsolateOrigins,site-per-process,TranslateUI,BlinkGenPropertyTrees",
    "--aggressive-cache-discard", "--disable-extensions", "--disable-ipc-flooding-protection",
    "--disable-blink-features=AutomationControlled", "--test-type",
    "--enable-features=NetworkService,NetworkServiceInProcess,TrustTokens,TrustTokensAlwaysAllowIssuance",
    "--disable-component-extensions-with-background-pages",
    "--disable-default-apps", "--disable-breakpad", "--disable-component-update",
    "--disable-domain-reliability", "--disable-sync",
    "--disable-client-side-phishing-detection",
    "--disable-hang-monitor", "--disable-popup-blocking", "--disable-prompt-on-repost",
    "--metrics-recording-only", "--safebrowsing-disable-auto-update", "--password-store=basic",
    "--autoplay-policy=no-user-gesture-required", "--use-mock-keychain",
    "--force-webrtc-ip-handling-policy=disable_non_proxied_udp",
    "--webrtc-ip-handling-policy=disable_non_proxied_udp", "--disable-session-crashed-bubble",
    "--disable-crash-reporter", "--disable-dev-shm-usage", "--force-color-profile=srgb",
    "--disable-translate", "--disable-background-networking",
    "--disable-background-timer-throttling", "--disable-backgrounding-occluded-windows",
    "--disable-infobars",
    "--hide-scrollbars", "--disable-renderer-backgrounding", "--font-render-hinting=none",
    "--disable-logging", "--enable-surface-synchronization",
    "--run-all-compositor-stages-before-draw", "--disable-threaded-animation",
    "--disable-threaded-scrolling", "--disable-checker-imaging",
    "--disable-new-content-rendering-timeout", "--disable-image-animation-resync",
    "--disable-partial-raster",
    "--blink-settings=primaryHoverType=2,availableHoverTypes=2,primaryPointerType=4,availablePointerTypes=4",
    "--disable-layer-tree-host-memory-pressure"]

  // ---------------------------------------------------------------------------
  // Profile directory
  // ---------------------------------------------------------------------------

  /** `os.path.join(a, b)` for POSIX paths. */
  function PathJoin(a: string, b: string): (r: string)
    ensures |b| > 0 && b[0] == '/' ==> r == b
    ensures !(|b| > 0 && b[0] == '/') ==> exists sep :: r == a + sep + b && (sep == "" || sep == "/")
  {
    if |b| > 0 && b[0] == '/' then b
    else if |a| == 0 || a[|a| - 1] == '/' then
      assert a + b == a + "" + b;
      a + b
    else a + "/" + b
  }

  /** `str(token).replace('.', '_').replace(':', '_')`. */
  function ProfileName(t: Token): string {
    ReplaceChar(ReplaceChar(TokenString(t), '.', '_'), ':', '_')
  }

  /** The directory holding the token's browser profile. */
  function ProfileDir(base: string, t: Token): string {
    PathJoin(base, ProfileName(t))
  }

  /** A token's text has no `.` or `:`, so both replacements leave it as it is. */
  lemma ProfileNameIsTokenString(t: Token)
    ensures ProfileName(t) == TokenString(t)
  {
    TokenStringAlphabet(t);
    ReplaceCharAbsent(TokenString(t), '.', '_');
    ReplaceCharAbsent(TokenString(t), ':', '_');
  }

  /** The profile directory ends with the token's text, under the base directory. */
  lemma ProfileDirShape(base: string, t: Token)
    ensures ProfileDir(base, t) == base + TokenString(t) || ProfileDir(base, t) == base + "/" + TokenString(t)
    ensures |ProfileDir(base, t)| >= 36
    ensures ProfileDir(base, t)[|ProfileDir(base, t)| - 36..] == TokenString(t)
  {
    ProfileNameIsTokenString(t);
    TokenStringAlphabet(t);
    var s := TokenString(t);
    assert !IsHexDigit('/');
    assert s[0] != '/';
    var d := ProfileDir(base, t);
    if d == base + s {
      assert d[|d| - 36..] == s;
    } else {
      assert d == (base + "/") + s;
      assert d[|d| - 36..] == s;
    }
  }

  /** Distinct tokens never share a profile directory under the same base. */
  lemma ProfileDirInjective(base: string, t: Token, u: Token)
    requires ProfileDir(base, t) == ProfileDir(base, u)
    ensures t == u
  {
    ProfileDirShape(base, t);
    ProfileDirShape(base, u);
    TokenStringInjective(t, u);
  }

  // ---------------------------------------------------------------------------
  // Fingerprint arguments
  // ---------------------------------------------------------------------------

  /** `str(value)` inside the f-string: strings and enum values as they are, integers in decimal. */
  function Render(v: FieldValue): string {
    match v
    case Text(s) => s
    case Number(i) => IntToDecimal(i)
  }

  /** Python truthiness of a dumped value: the empty string and 0 are false. */
  predicate Truthy(v: FieldValue) {
    match v
    case Text(s) => s != ""
    case Number(i) => i != 0
  }

  /** Off Linux, GPU vendor and renderer are cleared before the dump. */
  function StripGpu(p: InitParams, isLinux: bool): (q: InitParams)
    ensures !isLinux ==> q.gpuVendor.None? && q.gpuRenderer.None?
    ensures forall f :: f != FingerprintGpuVendor && f != FingerprintGpuRenderer ==> ValueOf(q, f) == ValueOf(p, f)
    ensures isLinux ==> q == p
    ensures WellFormed(p) ==> WellFormed(q)
  {
    if isLinux then p else p.(gpuVendor := None, gpuRenderer := None)
  }

  /** The comprehension `{k: v for k, v in dump.items() if v}`. */
  function KeepTruthy(d: seq<Entry>): (r: seq<Entry>)
    ensures |r| <= |d|
    ensures forall k :: 0 <= k < |r| ==> r[k] in d && Truthy(r[k].value)
  {
    if d == [] then []
    else if Truthy(d[0].value) then [d[0]] + KeepTruthy(d[1..])
    else KeepTruthy(d[1..])
  }

  /** `f'--{k}={v}'.replace('_', '-')`, applied to the whole argument. */
  function FormatArg(key: string, v: FieldValue): string {
    ReplaceChar("--" + key + "=" + Render(v), '_', '-')
  }

  /** The arguments `launch_browser` appends for a validated record. */
  function FingerprintArgs(p: InitParams, isLinux: bool): (args: seq<string>)
  {
    var kept := KeepTruthy(DumpByAlias(StripGpu(p, isLinux)));
    seq(|kept|, k requires 0 <= k < |kept| => FormatArg(kept[k].key, kept[k].value))
  }

  /** The replace runs over key and value alike: the result is the dashed key, `=`, the dashed value. */
  lemma FormatArgSplits(key: string, v: FieldValue)
    ensures FormatArg(key, v) == "--" + ReplaceChar(key, '_', '-') + "=" + ReplaceChar(Render(v), '_', '-')
    ensures '_' !in FormatArg(key, v)
  {
    var s := "--" + key + "=" + Render(v);
    ReplaceCharConcat("--" + key + "=", Render(v), '_', '-');
    ReplaceCharConcat("--" + key, "=", '_', '-');
    ReplaceCharConcat("--", key, '_', '-');
    ReplaceCharAbsent("--", '_', '-');
    ReplaceCharAbsent("=", '_', '-');
    ReplaceCharRemovesAll(s, '_', '-');
  }

  /** A key without `_` passes through the replace unchanged. */
  lemma FormatCleanKey(key: string, v: FieldValue)
    requires '_' !in key
    ensures FormatArg(key, v) == "--" + key + "=" + ReplaceChar(Render(v), '_', '-')
  {
    ReplaceCharAbsent(key, '_', '-');
    FormatArgSplits(key, v);
  }

  /** A key that is `--` and a dashed name has no `_`, so the argument starts with four dashes. */
  lemma FormatDashedKey(key: string, name: string, v: FieldValue)
    requires key == "--" + ReplaceChar(name, '_', '-')
    ensures FormatArg(key, v) == "--" + key + "=" + ReplaceChar(Render(v), '_', '-')
    ensures FormatArg(key, v)[..4] == "----"
  {
    ReplaceCharRemovesAll(name, '_', '-');
    assert '_' !in key;
    FormatCleanKey(key, v);
    assert key[..2] == "--";
  }

  /**
   * With an alias as key the argument is `--`, the alias (which starts with
   * `--` itself), `=` and the dashed value.
   */
  lemma FormatAliasArg(f: Field, v: FieldValue)
    ensures FormatArg(Alias(f), v) == "--" + Alias(f) + "=" + ReplaceChar(Render(v), '_', '-')
    ensures FormatArg(Alias(f), v)[..4] == "----"
  {
    AliasIsDashedName(f);
    FormatDashedKey(Alias(f), FieldName(f), v);
  }

  lemma {:induction false} KeepTruthyComplete(d: seq<Entry>, f: Field)
    ensures Dumped(KeepTruthy(d), f) <==> exists k :: 0 <= k < |d| && d[k].field == f && Truthy(d[k].value)
  {
    if d != [] {
      KeepTruthyComplete(d[1..], f);
      var rest := KeepTruthy(d[1..]);
      if Truthy(d[0].value) {
        DumpedCons(d[0], rest, f);
      }
      if exists k :: 0 <= k < |d| && d[k].field == f && Truthy(d[k].value) {
        var k :| 0 <= k < |d| && d[k].field == f && Truthy(d[k].value);
        if k > 0 {
          assert d[1..][k - 1] == d[k];
        }
      }
      if exists k :: 0 <= k < |d[1..]| && d[1..][k].field == f && Truthy(d[1..][k].value) {
        var k :| 0 <= k < |d[1..]| && d[1..][k].field == f && Truthy(d[1..][k].value);
        assert d[k + 1] == d[1..][k];
      }
    }
  }

  /**
   * The kept entries of a dump: field `f` yields an entry exactly when its value
   * is present and truthy, and that entry carries the field's alias and value.
   */
  lemma KeptFields(p: InitParams, f: Field)
    ensures Dumped(KeepTruthy(DumpByAlias(p)), f) <==> ValueOf(p, f).Some? && Truthy(ValueOf(p, f).value)
  {
    var d := DumpByAlias(p);
    KeepTruthyComplete(d, f);
    FieldsAreListedOnce();
    DumpFieldsComplete(p, FIELDS, f);
    if exists k :: 0 <= k < |d| && d[k].field == f && Truthy(d[k].value) {
      var k :| 0 <= k < |d| && d[k].field == f && Truthy(d[k].value);
      assert ValueOf(p, f) == Some(d[k].value);
    }
    if ValueOf(p, f).Some? && Truthy(ValueOf(p, f).value) {
      assert Dumped(d, f);
      var k :| 0 <= k < |d| && d[k].field == f;
      assert ValueOf(p, f) == Some(d[k].value);
    }
  }

  /**
   * Each launch argument is `--`, the alias of a field whose value is present
   * and truthy, `=` and that value with `_` turned into `-`; a field contributes an
   * argument iff its value is present and truthy; off Linux no GPU field does.
   */
  lemma FingerprintArgsShape(p: InitParams, isLinux: bool)
    ensures
      var q := StripGpu(p, isLinux);
      var kept := KeepTruthy(DumpByAlias(q));
      && |FingerprintArgs(p, isLinux)| == |kept|
      && (forall k :: 0 <= k < |kept| ==>
            && ValueOf(q, kept[k].field) == Some(kept[k].value)
            && Truthy(kept[k].value)
            && kept[k].key == Alias(kept[k].field)
            && FingerprintArgs(p, isLinux)[k] ==
                 "--" + Alias(kept[k].field) + "=" + ReplaceChar(Render(kept[k].value), '_', '-'))
      && (forall f :: Dumped(kept, f) <==> ValueOf(q, f).Some? && Truthy(ValueOf(q, f).value))
      && (!isLinux ==> !Dumped(kept, FingerprintGpuVendor) && !Dumped(kept, FingerprintGpuRenderer))
  {
    var q := StripGpu(p, isLinux);
    var d := DumpByAlias(q);
    var kept := KeepTruthy(d);
    forall k | 0 <= k < |kept|
      ensures ValueOf(q, kept[k].field) == Some(kept[k].value) && Truthy(kept[k].value)
      ensures kept[k].key == Alias(kept[k].field)
      ensures FingerprintArgs(p, isLinux)[k] ==
                "--" + Alias(kept[k].field) + "=" + ReplaceChar(Render(kept[k].value), '_', '-')
    {
      var j :| 0 <= j < |d| && d[j] == kept[k];
      FormatAliasArg(kept[k].field, kept[k].value);
    }
    forall f
      ensures Dumped(kept, f) <==> ValueOf(q, f).Some? && Truthy(ValueOf(q, f).value)
    {
      KeptFields(q, f);
    }
  }

  // ---------------------------------------------------------------------------
  // The engine object
  // ---------------------------------------------------------------------------

  /** Why `launch_browser` raised. */
  datatype LaunchError =
    | FingerprintNotFound
    | InvalidProfile(reason: ValidationError)
    | DriverFailed

  class UndetectedPlaywright {
    const browserToken: Token
    const headless: bool
    const userDataDir: string
    var defaultArgs: seq<string>
    var isRemoteControlActive: bool
    var lastActivityTimestamp: int

    /** A new engine: baseline flags, derived profile directory, flag off, last activity now. */
    constructor (browserToken: Token, headless: bool, baseDir: string, now: int)
      ensures this.browserToken == browserToken && this.headless == headless
      ensures userDataDir == ProfileDir(baseDir, browserToken)
      ensures defaultArgs == DEFAULT_ARGS
      ensures !isRemoteControlActive && lastActivityTimestamp == now
    {
      this.browserToken := browserToken;
      this.headless := headless;
      userDataDir := ProfileDir(baseDir, browserToken);
      defaultArgs := DEFAULT_ARGS;
      isRemoteControlActive := false;
      lastActivityTimestamp := now;
    }

    method UpdateActivityTimestamp(now: int)
      modifies this`lastActivityTimestamp
      ensures lastActivityTimestamp == now
    {
      lastActivityTimestamp := now;
    }

    /** `is_inactive_for(seconds)` at time `now`: strictly more than `seconds` since the last activity. */
    method IsInactiveFor(seconds: int, now: int) returns (r: bool)
      ensures r <==> now - lastActivityTimestamp > seconds
      ensures r && seconds >= 0 ==> now > lastActivityTimestamp
      ensures now == lastActivityTimestamp ==> (r <==> seconds < 0)
    {
      r := now - lastActivityTimestamp > seconds;
    }

    /**
     * The part of `launch_browser` up to and including the driver call.
     * `profile` is what the store returns for this token, `isLinux` stands
     * for `sys.platform.startswith('linux')`, and `driverFails` for the
     * driver's launch raising. The fingerprint arguments are appended to
     * `defaultArgs` in place before the driver is called.
     */
    method LaunchBrowser(profile: Option<StoredProfile>, isLinux: bool, driverFails: bool)
      returns (r: Result<BrowserContext, LaunchError>)
      modifies this`defaultArgs
      ensures profile.None? ==> r == Failure(FingerprintNotFound) && defaultArgs == old(defaultArgs)
      ensures profile.Some? && Build(profile.value).Failure? ==>
                r == Failure(InvalidProfile(Build(profile.value).error)) && defaultArgs == old(defaultArgs)
      ensures profile.Some? && Build(profile.value).Success? ==>
                defaultArgs == old(defaultArgs) + FingerprintArgs(Build(profile.value).value, isLinux)
      ensures r.Success? <==> profile.Some? && Build(profile.value).Success? && !driverFails
      ensures r.Failure? && profile.Some? && Build(profile.value).Success? ==> r.error == DriverFailed
      ensures r.Success? ==>
                && fresh(r.value) && r.value.Valid() && !r.value.closed && r.value.pages == []
                && r.value.userDataDir == userDataDir && r.value.headless == headless
                && r.value.args == defaultArgs
    {
      if profile.None? {
        return Failure(FingerprintNotFound);
      }
      var built := Build(profile.value);
      if built.Failure? {
        return Failure(InvalidProfile(built.error));
      }
      defaultArgs := defaultArgs + FingerprintArgs(built.value, isLinux);
      if driverFails {
        return Failure(DriverFailed);
      }
      var context := new BrowserContext(userDataDir, headless, defaultArgs);
      r := Success(context);
    }
  }

  // ---------------------------------------------------------------------------
  // The argument format as evidently intended
  // ---------------------------------------------------------------------------

  /** The timezone example from the field's own description. */
  const EXAMPLE_TIMEZONE: string := "America/New_York"

  lemma ExampleTimezoneWords(tz: string)
    requires tz == EXAMPLE_TIMEZONE
    ensures tz == "America/New" + "_" + "York"
  {
  }

  lemma ExampleTimezoneParts(a: string, b: string)
    requires a == "America/New" && b == "York"
    ensures '_' !in a && '_' !in b
    ensures a + "-" + b == "America/New-York"
  {
  }

  lemma ExampleTimezoneDashed(tz: string)
    requires tz == EXAMPLE_TIMEZONE
    ensures ReplaceChar(tz, '_', '-') == "America/New-York"
  {
    var a, b := "America/New", "York";
    ExampleTimezoneWords(tz);
    ExampleTimezoneParts(a, b);
    Dashed2(a, b);
  }

  /** As written: the example timezone reaches the browser as `America/New-York`, under `----timezone`. */
  lemma FormatArgMangles(tz: string)
    requires tz == EXAMPLE_TIMEZONE
    ensures FormatArg(Alias(Timezone), Text(tz)) == "--" + Alias(Timezone) + "=" + "America/New-York"
    ensures Alias(Timezone) == "--timezone"
  {
    FormatAliasArg(Timezone, Text(tz));
    ExampleTimezoneDashed(tz);
  }

  /** The intended argument: the alias, which already carries `--`, then `=` and the value untouched. */
  function IntendedArg(f: Field, v: FieldValue): (arg: string)
    ensures |arg| == |Alias(f)| + 1 + |Render(v)|
    ensures arg[..|Alias(f)|] == Alias(f)
    ensures arg[|Alias(f)|] == '='
    ensures arg[|Alias(f)| + 1..] == Render(v)
  {
    Alias(f) + "=" + Render(v)
  }

  /** Every alias has a field name after its `--`, which does not start with `-`. */
  lemma AliasNamesField(f: Field)
    ensures |Alias(f)| > 2 && Alias(f)[..2] == "--" && Alias(f)[2] != '-'
  {
    // One case per field, so that each alias literal is unfolded on its own.
    match f
    case FingerprintSeed =>
    case FingerprintPlatform =>
    case FingerprintPlatformVersion =>
    case FingerprintBrowser =>
    case FingerprintBrandVersion =>
    case FingerprintHardwareConcurrency =>
    case FingerprintGpuVendor =>
    case FingerprintGpuRenderer =>
    case Lang =>
    case AcceptLang =>
    case Timezone =>
    case ProxyServer =>
  }

  /**
   * For every field and value, the intended argument carries exactly one
   * `--` before the field name, so it never equals the argument the code
   * builds, which starts with `----`.
   */
  lemma IntendedArgDiffers(f: Field, v: FieldValue)
    ensures IntendedArg(f, v)[..2] == "--" && IntendedArg(f, v)[2] != '-'
    ensures IntendedArg(f, v) != FormatArg(Alias(f), v)
  {
    FormatAliasArg(f, v);
    AliasNamesField(f);
    var a := IntendedArg(f, v);
    assert a[..2] == a[..|Alias(f)|][..2] == Alias(f)[..2];
    assert a[2] == a[..|Alias(f)|][2] == Alias(f)[2];
    assert FormatArg(Alias(f), v)[2] == '-';
  }

  /** The intended argument keeps underscores in values such as the example timezone. */
  lemma IntendedArgKeepsValue(tz: string)
    requires tz == EXAMPLE_TIMEZONE
    ensures IntendedArg(Timezone, Text(tz)) == "--timezone" + "=" + tz
    ensures IntendedArg(Timezone, Text(tz)) != FormatArg(Alias(Timezone), Text(tz))
  {
    FormatArgMangles(tz);
    var a := IntendedArg(Timezone, Text(tz));
    var b := FormatArg(Alias(Timezone), Text(tz));
    assert a[2] == 't';
    assert b[2] == '-';
  }
}
