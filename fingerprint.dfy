/**
 * The fingerprint record that parameterises a browser launch
 * (`BaseFingerprintBrowserInitParams`): its fields in declaration order, their
 * defaults and command-line aliases, the Int32 bound on the seed and the two
 * both-set-or-both-unset validators.
 */
module Fingerprint {
  import opened Wrappers
  import opened Text

  const INT32_MIN: int := -2147483648
  const INT32_MAX: int := 2147483647

  /** The `Int32` annotated type: an integer in the signed 32-bit range. */
  predicate IsInt32(x: int) {
    INT32_MIN <= x <= INT32_MAX
  }

  datatype PlatformEnum = Windows | Linux | MacOS

  datatype BrowserEnum = Chrome | Edge | Opera | Vivaldi

  function PlatformValue(p: PlatformEnum): string {
    match p
    case Windows => "windows"
    case Linux => "linux"
    case MacOS => "macos"
  }

  function BrowserValue(b: BrowserEnum): string {
    match b
    case Chrome => "chrome"
    case Edge => "Edge"
    case Opera => "Opera"
    case Vivaldi => "Vivaldi"
  }

  /** The record's fields, one constructor each. */
  datatype Field =
    | FingerprintSeed
    | FingerprintPlatform
    | FingerprintPlatformVersion
    | FingerprintBrowser
    | FingerprintBrandVersion
    | FingerprintHardwareConcurrency
    | FingerprintGpuVendor
    | FingerprintGpuRenderer
    | Lang
    | AcceptLang
    | Timezone
    | ProxyServer

  /** Declaration order, which is also the order `model_dump` emits them in. */
  const FIELDS: seq<Field> := [
    FingerprintSeed, FingerprintPlatform, FingerprintPlatformVersion, FingerprintBrowser,
    FingerprintBrandVersion, FingerprintHardwareConcurrency, FingerprintGpuVendor,
    FingerprintGpuRenderer, Lang, AcceptLang, Timezone, ProxyServer]

  function FieldName(f: Field): string {
    match f
    case FingerprintSeed => "fingerprint"
    case FingerprintPlatform => "fingerprint_platform"
    case FingerprintPlatformVersion => "fingerprint_platform_version"
    case FingerprintBrowser => "fingerprint_browser"
    case FingerprintBrandVersion => "fingerprint_brand_version"
    case FingerprintHardwareConcurrency => "fingerprint_hardware_concurrency"
    case FingerprintGpuVendor => "fingerprint_gpu_vendor"
    case FingerprintGpuRenderer => "fingerprint_gpu_renderer"
    case Lang => "lang"
    case AcceptLang => "accept_lang"
    case Timezone => "timezone"
    case ProxyServer => "proxy_server"
  }

  /** The alias each field is declared with; `model_dump(by_alias=True)` uses it as the key. */
  function Alias(f: Field): string {
    match f
    case FingerprintSeed => "--fingerprint"
    case FingerprintPlatform => "--fingerprint-platform"
    case FingerprintPlatformVersion => "--fingerprint-platform-version"
    case FingerprintBrowser => "--fingerprint-browser"
    case FingerprintBrandVersion => "--fingerprint-brand-version"
    case FingerprintHardwareConcurrency => "--fingerprint-hardware-concurrency"
    case FingerprintGpuVendor => "--fingerprint-gpu-vendor"
    case FingerprintGpuRenderer => "--fingerprint-gpu-renderer"
    case Lang => "--lang"
    case AcceptLang => "--accept-lang"
    case Timezone => "--timezone"
    case ProxyServer => "--proxy-server"
  }

  lemma Dashed2(a: string, b: string)
    requires '_' !in a && '_' !in b
    ensures ReplaceChar(a + "_" + b, '_', '-') == a + "-" + b
  {
    ReplaceCharConcat(a + "_", b, '_', '-');
    ReplaceCharConcat(a, "_", '_', '-');
    ReplaceCharAbsent(a, '_', '-');
    ReplaceCharAbsent(b, '_', '-');
  }

  lemma Dashed3(a: string, b: string, c: string)
    requires '_' !in a && '_' !in b && '_' !in c
    ensures ReplaceChar(a + "_" + b + "_" + c, '_', '-') == a + "-" + b + "-" + c
  {
    ReplaceCharConcat(a + "_" + b + "_", c, '_', '-');
    ReplaceCharConcat(a + "_" + b, "_", '_', '-');
    Dashed2(a, b);
    ReplaceCharAbsent(c, '_', '-');
  }

  /** A name spelt from underscore-separated words, and an alias spelt from the same words with dashes. */
  lemma Spell1(n: string, al: string, a: string)
    requires n == a && al == "--" + a && '_' !in a
    ensures al == "--" + ReplaceChar(n, '_', '-')
  {
    ReplaceCharAbsent(a, '_', '-');
  }

  lemma Spell2(n: string, al: string, a: string, b: string)
    requires n == a + "_" + b && al == "--" + (a + "-" + b) && '_' !in a && '_' !in b
    ensures al == "--" + ReplaceChar(n, '_', '-')
  {
    Dashed2(a, b);
  }

  lemma Spell3(n: string, al: string, a: string, b: string, c: string)
    requires n == a + "_" + b + "_" + c && al == "--" + (a + "-" + b + "-" + c)
    requires '_' !in a && '_' !in b && '_' !in c
    ensures al == "--" + ReplaceChar(n, '_', '-')
  {
    Dashed3(a, b, c);
  }

  // One lemma per field keeps each literal comparison in a proof of its own.

  lemma SpeltFingerprintSeed()
    ensures Alias(FingerprintSeed) == "--" + ReplaceChar(FieldName(FingerprintSeed), '_', '-')
  {
    Spell1(FieldName(FingerprintSeed), Alias(FingerprintSeed), "fingerprint");
  }

  lemma SpeltFingerprintPlatform()
    ensures Alias(FingerprintPlatform) == "--" + ReplaceChar(FieldName(FingerprintPlatform), '_', '-')
  {
    Spell2(FieldName(FingerprintPlatform), Alias(FingerprintPlatform), "fingerprint", "platform");
  }

  lemma SpeltFingerprintPlatformVersion()
    ensures Alias(FingerprintPlatformVersion) == "--" + ReplaceChar(FieldName(FingerprintPlatformVersion), '_', '-')
  {
    Spell3(FieldName(FingerprintPlatformVersion), Alias(FingerprintPlatformVersion), "fingerprint", "platform", "version");
  }

  lemma SpeltFingerprintBrowser()
    ensures Alias(FingerprintBrowser) == "--" + ReplaceChar(FieldName(FingerprintBrowser), '_', '-')
  {
    Spell2(FieldName(FingerprintBrowser), Alias(FingerprintBrowser), "fingerprint", "browser");
  }

  lemma SpeltFingerprintBrandVersion()
    ensures Alias(FingerprintBrandVersion) == "--" + ReplaceChar(FieldName(FingerprintBrandVersion), '_', '-')
  {
    Spell3(FieldName(FingerprintBrandVersion), Alias(FingerprintBrandVersion), "fingerprint", "brand", "version");
  }

  lemma SpeltFingerprintHardwareConcurrency()
    ensures Alias(FingerprintHardwareConcurrency) == "--" + ReplaceChar(FieldName(FingerprintHardwareConcurrency), '_', '-')
  {
    var a, b, c := "fingerprint", "hardware", "concurrency";
    HardwareConcurrencyName(FieldName(FingerprintHardwareConcurrency), a, b, c);
    HardwareConcurrencyAlias(Alias(FingerprintHardwareConcurrency), a, b, c);
    Spell3(FieldName(FingerprintHardwareConcurrency), Alias(FingerprintHardwareConcurrency), a, b, c);
  }

  // The longest name is compared in two steps of its own to keep each proof small.
  lemma HardwareConcurrencyName(n: string, a: string, b: string, c: string)
    requires n == "fingerprint_hardware_concurrency"
    requires a == "fingerprint" && b == "hardware" && c == "concurrency"
    ensures n == a + "_" + b + "_" + c
  {
  }

  lemma HardwareConcurrencyAlias(al: string, a: string, b: string, c: string)
    requires al == "--fingerprint-hardware-concurrency"
    requires a == "fingerprint" && b == "hardware" && c == "concurrency"
    ensures al == "--" + (a + "-" + b + "-" + c)
    ensures '_' !in a && '_' !in b && '_' !in c
  {
  }

  lemma SpeltFingerprintGpuVendor()
    ensures Alias(FingerprintGpuVendor) == "--" + ReplaceChar(FieldName(FingerprintGpuVendor), '_', '-')
  {
    Spell3(FieldName(FingerprintGpuVendor), Alias(FingerprintGpuVendor), "fingerprint", "gpu", "vendor");
  }

  lemma SpeltFingerprintGpuRenderer()
    ensures Alias(FingerprintGpuRenderer) == "--" + ReplaceChar(FieldName(FingerprintGpuRenderer), '_', '-')
  {
    Spell3(FieldName(FingerprintGpuRenderer), Alias(FingerprintGpuRenderer), "fingerprint", "gpu", "renderer");
  }

  lemma SpeltLang()
    ensures Alias(Lang) == "--" + ReplaceChar(FieldName(Lang), '_', '-')
  {
    Spell1(FieldName(Lang), Alias(Lang), "lang");
  }

  lemma SpeltAcceptLang()
    ensures Alias(AcceptLang) == "--" + ReplaceChar(FieldName(AcceptLang), '_', '-')
  {
    Spell2(FieldName(AcceptLang), Alias(AcceptLang), "accept", "lang");
  }

  lemma SpeltTimezone()
    ensures Alias(Timezone) == "--" + ReplaceChar(FieldName(Timezone), '_', '-')
  {
    Spell1(FieldName(Timezone), Alias(Timezone), "timezone");
  }

  lemma SpeltProxyServer()
    ensures Alias(ProxyServer) == "--" + ReplaceChar(FieldName(ProxyServer), '_', '-')
  {
    Spell2(FieldName(ProxyServer), Alias(ProxyServer), "proxy", "server");
  }

  /** Every alias is `--` followed by the field name with `_` turned into `-`. */
  lemma AliasIsDashedName(f: Field)
    ensures Alias(f) == "--" + ReplaceChar(FieldName(f), '_', '-')
  {
    match f
    case FingerprintSeed => SpeltFingerprintSeed();
    case FingerprintPlatform => SpeltFingerprintPlatform();
    case FingerprintPlatformVersion => SpeltFingerprintPlatformVersion();
    case FingerprintBrowser => SpeltFingerprintBrowser();
    case FingerprintBrandVersion => SpeltFingerprintBrandVersion();
    case FingerprintHardwareConcurrency => SpeltFingerprintHardwareConcurrency();
    case FingerprintGpuVendor => SpeltFingerprintGpuVendor();
    case FingerprintGpuRenderer => SpeltFingerprintGpuRenderer();
    case Lang => SpeltLang();
    case AcceptLang => SpeltAcceptLang();
    case Timezone => SpeltTimezone();
    case ProxyServer => SpeltProxyServer();
  }

  /** Twelve fields, each listed once, so aliases name fields one-to-one. */
  lemma FieldsAreListedOnce()
    ensures |FIELDS| == 12
    ensures forall f: Field :: f in FIELDS
    ensures forall i, j :: 0 <= i < j < |FIELDS| ==> Alias(FIELDS[i]) != Alias(FIELDS[j])
  {
    forall f: Field
      ensures f in FIELDS
    {
      match f
      case FingerprintSeed => assert FIELDS[0] == f;
      case FingerprintPlatform => assert FIELDS[1] == f;
      case FingerprintPlatformVersion => assert FIELDS[2] == f;
      case FingerprintBrowser => assert FIELDS[3] == f;
      case FingerprintBrandVersion => assert FIELDS[4] == f;
      case FingerprintHardwareConcurrency => assert FIELDS[5] == f;
      case FingerprintGpuVendor => assert FIELDS[6] == f;
      case FingerprintGpuRenderer => assert FIELDS[7] == f;
      case Lang => assert FIELDS[8] == f;
      case AcceptLang => assert FIELDS[9] == f;
      case Timezone => assert FIELDS[10] == f;
      case ProxyServer => assert FIELDS[11] == f;
    }
  }

  /**
   * The stored profile as `model_dump(exclude_none=True)` hands it to the
   * constructor: a field is `None` when the store had no value for it.
   */
  datatype StoredProfile = StoredProfile(
    fingerprint: Option<int>,
    platform: Option<PlatformEnum>,
    platformVersion: Option<string>,
    browser: Option<BrowserEnum>,
    brandVersion: Option<string>,
    hardwareConcurrency: Option<int>,
    gpuVendor: Option<string>,
    gpuRenderer: Option<string>,
    lang: Option<string>,
    acceptLang: Option<string>,
    timezone: Option<string>,
    proxyServer: Option<string>)

  /** A validated `BaseFingerprintBrowserInitParams`. */
  datatype InitParams = InitParams(
    fingerprint: int,
    platform: PlatformEnum,
    platformVersion: Option<string>,
    browser: Option<BrowserEnum>,
    brandVersion: Option<string>,
    hardwareConcurrency: Option<int>,
    gpuVendor: Option<string>,
    gpuRenderer: Option<string>,
    lang: Option<string>,
    acceptLang: Option<string>,
    timezone: Option<string>,
    proxyServer: Option<string>)

  const DEFAULT_PLATFORM: PlatformEnum := Windows
  const DEFAULT_TIMEZONE: string := "Asia/Shanghai"

  /** Why construction raised, in the order pydantic checks: fields first, then the two validators. */
  datatype ValidationError =
    | MissingFingerprint
    | FingerprintOutOfRange
    | BrowserBrandMismatch
    | GpuVendorRendererMismatch

  predicate BrowserBrandConsistent(browser: Option<BrowserEnum>, brandVersion: Option<string>) {
    browser.None? == brandVersion.None?
  }

  predicate GpuConsistent(vendor: Option<string>, renderer: Option<string>) {
    vendor.None? == renderer.None?
  }

  function OrDefault<T>(o: Option<T>, d: T): T {
    if o.Some? then o.value else d
  }

  /**
   * `BaseFingerprintBrowserInitParams(**dump)`: an absent field takes its
   * default (platform `windows`, timezone `Asia/Shanghai`, otherwise `None`);
   * the seed is required and must be an Int32; then the browser/brand check
   * and the GPU vendor/renderer check run, in that order.
   */
  function Build(r: StoredProfile): (res: Result<InitParams, ValidationError>)
    ensures res.Success? <==>
      && r.fingerprint.Some? && IsInt32(r.fingerprint.value)
      && BrowserBrandConsistent(r.browser, r.brandVersion)
      && GpuConsistent(r.gpuVendor, r.gpuRenderer)
    ensures res.Failure? ==>
              res.error == (
                if r.fingerprint.None? then MissingFingerprint
                else if !IsInt32(r.fingerprint.value) then FingerprintOutOfRange
                else if !BrowserBrandConsistent(r.browser, r.brandVersion) then BrowserBrandMismatch
                else GpuVendorRendererMismatch)
    ensures res.Success? ==>
      && res.value.fingerprint == r.fingerprint.value
      && res.value.platform == (if r.platform.Some? then r.platform.value else Windows)
      && res.value.timezone == Some(if r.timezone.Some? then r.timezone.value else "Asia/Shanghai")
      && res.value.platformVersion == r.platformVersion
      && res.value.browser == r.browser && res.value.brandVersion == r.brandVersion
      && res.value.hardwareConcurrency == r.hardwareConcurrency
      && res.value.gpuVendor == r.gpuVendor && res.value.gpuRenderer == r.gpuRenderer
      && res.value.lang == r.lang && res.value.acceptLang == r.acceptLang
      && res.value.proxyServer == r.proxyServer
  {
    if r.fingerprint.None? then Failure(MissingFingerprint)
    else if !IsInt32(r.fingerprint.value) then Failure(FingerprintOutOfRange)
    else
      var p := InitParams(
        r.fingerprint.value, OrDefault(r.platform, DEFAULT_PLATFORM), r.platformVersion,
        r.browser, r.brandVersion, r.hardwareConcurrency, r.gpuVendor, r.gpuRenderer,
        r.lang, r.acceptLang, Some(OrDefault(r.timezone, DEFAULT_TIMEZONE)), r.proxyServer);
      if !BrowserBrandConsistent(p.browser, p.brandVersion) then Failure(BrowserBrandMismatch)
      else if !GpuConsistent(p.gpuVendor, p.gpuRenderer) then Failure(GpuVendorRendererMismatch)
      else Success(p)
  }

  /** Every record that validates satisfies the field constraint and both validators. */
  predicate WellFormed(p: InitParams) {
    IsInt32(p.fingerprint) && BrowserBrandConsistent(p.browser, p.brandVersion) &&
    GpuConsistent(p.gpuVendor, p.gpuRenderer)
  }

  lemma BuildWellFormed(r: StoredProfile)
    requires Build(r).Success?
    ensures WellFormed(Build(r).value)
  {
  }

  /** A profile carrying only its seed gets the declared defaults. */
  lemma Defaults(seed: int)
    requires IsInt32(seed)
    ensures Build(StoredProfile(Some(seed), None, None, None, None, None, None, None, None, None, None, None))
      == Success(InitParams(seed, Windows, None, None, None, None, None, None, None, None, Some("Asia/Shanghai"), None))
  {
  }

  /** A dumped field value: enum members and strings as text, integers as numbers. */
  datatype FieldValue = Text(s: string) | Number(i: int)

  /** The value `model_dump` gives for a field, `None` when the field is `None`. */
  function ValueOf(p: InitParams, f: Field): Option<FieldValue> {
    match f
    case FingerprintSeed => Some(Number(p.fingerprint))
    case FingerprintPlatform => Some(Text(PlatformValue(p.platform)))
    case FingerprintPlatformVersion => TextOf(p.platformVersion)
    case FingerprintBrowser => if p.browser.Some? then Some(Text(BrowserValue(p.browser.value))) else None
    case FingerprintBrandVersion => TextOf(p.brandVersion)
    case FingerprintHardwareConcurrency =>
      if p.hardwareConcurrency.Some? then Some(Number(p.hardwareConcurrency.value)) else None
    case FingerprintGpuVendor => TextOf(p.gpuVendor)
    case FingerprintGpuRenderer => TextOf(p.gpuRenderer)
    case Lang => TextOf(p.lang)
    case AcceptLang => TextOf(p.acceptLang)
    case Timezone => TextOf(p.timezone)
    case ProxyServer => TextOf(p.proxyServer)
  }

  function TextOf(o: Option<string>): Option<FieldValue> {
    if o.Some? then Some(Text(o.value)) else None
  }

  /** One `(alias, value)` pair of `model_dump(exclude_none=True, by_alias=True)`. */
  datatype Entry = Entry(field: Field, key: string, value: FieldValue)

  /** The dump of the fields in `fs`, skipping `None` values and keeping their order. */
  function DumpFields(p: InitParams, fs: seq<Field>): (d: seq<Entry>)
    ensures |d| <= |fs|
    ensures forall k :: 0 <= k < |d| ==>
              d[k].field in fs && d[k].key == Alias(d[k].field) && ValueOf(p, d[k].field) == Some(d[k].value)
  {
    if fs == [] then []
    else
      var rest := DumpFields(p, fs[1..]);
      match ValueOf(p, fs[0])
      case None => rest
      case Some(v) => [Entry(fs[0], Alias(fs[0]), v)] + rest
  }

  /** `model_dump(exclude_none=True, by_alias=True)`. */
  function DumpByAlias(p: InitParams): seq<Entry> {
    DumpFields(p, FIELDS)
  }

  predicate Dumped(d: seq<Entry>, f: Field) {
    exists k :: 0 <= k < |d| && d[k].field == f
  }

  lemma DumpedCons(e: Entry, rest: seq<Entry>, f: Field)
    ensures Dumped([e] + rest, f) <==> (e.field == f || Dumped(rest, f))
  {
    var d := [e] + rest;
    if Dumped(rest, f) {
      var k :| 0 <= k < |rest| && rest[k].field == f;
      assert d[k + 1].field == f;
    }
    if Dumped(d, f) {
      var k :| 0 <= k < |d| && d[k].field == f;
      if k > 0 {
        assert rest[k - 1].field == f;
      }
    }
    if e.field == f {
      assert d[0].field == f;
    }
  }

  /** A field of `fs` is in the dump exactly when its value is not `None`. */
  lemma {:induction false} DumpFieldsComplete(p: InitParams, fs: seq<Field>, f: Field)
    ensures Dumped(DumpFields(p, fs), f) <==> (f in fs && ValueOf(p, f).Some?)
  {
    if fs != [] {
      DumpFieldsComplete(p, fs[1..], f);
      var rest := DumpFields(p, fs[1..]);
      assert f in fs <==> (f == fs[0] || f in fs[1..]);
      if ValueOf(p, fs[0]).Some? {
        DumpedCons(Entry(fs[0], Alias(fs[0]), ValueOf(p, fs[0]).value), rest, f);
      }
    }
  }
}
