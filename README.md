# bili-fastapi-brwoser-rpa: session pool, plugin pipeline and live service in Dafny

This project models the browser-automation core of the service and proves
properties of the model. The core has four parts:

- **The session pool** (`PlaywrightSessionPool`). It maps each browser token to
  one persistent browser context and guards the map with a single pool lock. It
  reuses sessions, creates them lazily, opens pages, switches remote control on
  and off, and sweeps away sessions idle for more than thirty minutes.
- **The engine** (`BaseUndetectedPlaywright`). Each token gets a fixed baseline
  of launch flags and a profile directory derived from the token. At launch,
  the stored fingerprint record becomes extra command-line arguments. That
  record is validated by the `BaseFingerprintBrowserInitParams` model: Int32
  seed, defaults, and two both-set-or-both-unset checks.
- **The operation-hook pipeline.** A `BasePlugin` keeps one linked chain of
  operations per lifecycle hook. A `PluginizedPageManager` instantiates plugin
  classes, wraps page methods, and runs each wrapped call through the hooks
  `before_exec`, `on_exec`, the operation, `on_success` or `on_error`, and
  `after_exec`. Two policy plugins use it: `RetryPlugin`, a bounded retry
  counter, and `PageLimitPlugin`, which caps the pages of a context.
- **The live service.** A registry of live sessions keyed by `str(token)`. It
  also covers the MJPEG frame format of the screenshot stream and the handling
  of one websocket message (`eval`, `navigate`, errors).

## How things are modelled

- **Objects the source updates in place are classes.** This covers the pool,
  engine, browser context, page, plugin, operation node, page manager and live
  registry. Methods carry `modifies` clauses and state the new state.
- **Specification functions.** Each state-changing method is tied to a
  function of the old state, for example `Sweep`, `RetrySpec`, `ForceSpec`,
  `OldestClose`, `RunChain` or `Dispatch`. Lemmas then prove what the source
  promises about those functions.
- **Inputs from the outside world are parameters:**
  - time is the integer `now`;
  - the stored fingerprint profile of a token is `profile`;
  - `sys.platform` is `isLinux`;
  - whether the driver, a page close, a teardown or a plugin operation raises
    is a boolean or an oracle function (`driverFails`, `closeFails`,
    `teardownFails`, `fails`);
  - the outcome of evaluating code in the page is `outcome`.
- **The lock.** The pool lock is the flag `locked`. A call that would wait on
  the held lock never returns in the source. Here it reports that it was
  blocked, and neither the pool nor any engine or context changes.
- **The abstract pool value.** A ghost `view` holds each session's creation
  time, last use and remote flag. Ghost multisets of launches and removals show
  that no token is ever served by two live launches. The pool's invariant also
  keeps each stored context open and in its own token's profile directory.
- **Modules follow the source files:**
  - `SessionPool`: `playwright_pool.py`;
  - `Engine`: `base_engines.py`;
  - `Fingerprint`: `models.py`;
  - `Plugin`: `base_plugin.py`;
  - `PageManager`: `plugined_page_manager.py`, with the logging plugin's
    registrations;
  - `Retry`: `retry_plugin.py`;
  - `PageLimit`: `page_limit_plugin.py`;
  - `Live`: `live_service.py`.
- **Shared modules:**
  - `Driver`: the opaque browser driver;
  - `Tokens`: UUID text and parsing;
  - `Text`: `str.replace` and `str(int)`;
  - `Wrappers`: Option and Result.

## Model

| member | source | states |
|---|---|---|
| Text.ReplaceChar | app/services/RPA_browser/base_engines.py:61 | `s.replace(a, b)` for one character: same length, each `a` becomes `b`, every other character kept. |
| Text.ReplaceCharRemovesAll | app/services/RPA_browser/base_engines.py:92 | After replacing `a` by a different `b`, no `a` is left, and replacing again changes nothing. |
| Text.ReplaceCharConcat | app/services/RPA_browser/base_engines.py:92 | Replacing distributes over concatenation, so the replace over a whole argument acts on key and value separately. |
| Text.NatToDecimal | app/services/RPA_browser/live_service.py:108 | `str(n)` for a natural number: at least one ASCII digit, and a leading `0` only for zero. |
| Text.DecimalRoundTrip | app/services/RPA_browser/live_service.py:108 | Reading the decimal text of `n` back yields `n`. |
| Text.IntToDecimal | app/services/RPA_browser/base_engines.py:92 | `str(i)` for any integer: a leading `-` exactly when `i` is negative, then at least one digit and nothing else, so the `_`→`-` replace leaves numeric values intact. |
| Text.IntDecimalRoundTrip | app/services/RPA_browser/base_engines.py:92 | Reading back the text `str(i)` gives `i`, for negative values too. |
| Tokens.TokenString | app/services/RPA_browser/live_service.py:42 | `str(token)` is 36 characters long (32 hex digits grouped 8-4-4-4-12). |
| Tokens.TokenStringAlphabet | app/services/RPA_browser/base_engines.py:60-61 | The text of a token holds only hex digits and `-`, so it contains no `.` and no `:`. |
| Tokens.HexRoundTrip | app/services/RPA_browser/live_service.py:91 | Reading `w` hex digits of `n` back yields `n`. |
| Tokens.ParseToken | app/services/RPA_browser/live_service.py:91 | `uuid.UUID(s)` succeeds exactly when dropping the hyphens leaves 32 hex digits. |
| Tokens.ParseTokenString | app/services/RPA_browser/live_service.py:91 | `uuid.UUID(str(t)) == t`: a stored live-session token always parses back to the token it came from. |
| Tokens.TokenStringInjective | app/services/RPA_browser/live_service.py:42 | Distinct tokens have distinct text, so distinct tokens get distinct live ids. |
| Fingerprint.AliasIsDashedName | app/models/RPA_browser/models.py:36-66 | Every field's alias is `--` followed by the field name with `_` turned into `-`. |
| Fingerprint.FieldsAreListedOnce | app/models/RPA_browser/models.py:35-66 | The record has twelve fields; the field list names each one once, and no two fields share an alias. |
| Fingerprint.Build | app/models/RPA_browser/models.py:35-87 | Construction succeeds exactly when the seed is present and in Int32 range and both consistency validators hold. Errors come in pydantic's order: missing seed, out of range, browser/brand mismatch, GPU vendor/renderer mismatch. On success every field keeps its stored value, except that platform defaults to `windows` and timezone to `Asia/Shanghai`. |
| Fingerprint.BuildWellFormed | app/models/RPA_browser/models.py:68-87 | A record that constructs satisfies the Int32 bound and both validators. |
| Fingerprint.WellFormed | app/models/RPA_browser/models.py:68-87 | A record with an Int32 seed that passes both `model_validator` checks. |
| Fingerprint.BrowserBrandConsistent | app/models/RPA_browser/models.py:68-77 | Browser and brand version are both set or both unset. |
| Fingerprint.GpuConsistent | app/models/RPA_browser/models.py:79-87 | GPU vendor and renderer are both set or both unset. |
| Fingerprint.ValueOf | app/models/RPA_browser/models.py:36-66 | The value of one field of a record, `None` when unset. Seed and platform are always set, the platform through its default. |
| Fingerprint.Defaults | app/models/RPA_browser/models.py:36-66 | A record with only a seed builds to platform `windows`, timezone `Asia/Shanghai`, and every other field unset. |
| Fingerprint.DumpFields | app/services/RPA_browser/base_engines.py:89 | `model_dump(exclude_none=True, by_alias=True)`: at most one entry per field, keyed by its alias, carrying the field's value. |
| Fingerprint.DumpFieldsComplete | app/services/RPA_browser/base_engines.py:89 | A field appears in the dump exactly when it is listed and its value is not `None`. |
| Engine.PathJoin | app/services/RPA_browser/base_engines.py:60-61 | POSIX `os.path.join(a, b)`: an absolute `b` wins; otherwise the result is `a`, then at most one `/`, then `b`. |
| Engine.ProfileName | app/services/RPA_browser/base_engines.py:61 | The token text with `.` and `:` replaced by `_`. `ProfileNameIsTokenString` proves this is the token text itself. |
| Engine.ProfileDir | app/services/RPA_browser/base_engines.py:60-61 | The profile name joined to the base directory. `ProfileDirShape` and `ProfileDirInjective` state its properties. |
| Engine.ProfileNameIsTokenString | app/services/RPA_browser/base_engines.py:61 | Replacing `.` and `:` by `_` leaves the text of a token unchanged. |
| Engine.ProfileDirShape | app/services/RPA_browser/base_engines.py:60-61 | The profile directory is the base directory, an optional `/`, then the token text, so it ends in the 36 characters of the token. |
| Engine.ProfileDirInjective | app/services/RPA_browser/base_engines.py:60-61 | Distinct tokens get distinct profile directories under the same base. |
| Engine.StripGpu | app/services/RPA_browser/base_engines.py:83-86 | Off Linux, GPU vendor and renderer are cleared and every other field kept. On Linux the record is unchanged. Both validators still hold afterwards. |
| Engine.KeepTruthy | app/services/RPA_browser/base_engines.py:88-91 | The filtered dump keeps only entries of the dump whose values are truthy. |
| Engine.Truthy | app/services/RPA_browser/base_engines.py:88-91 | Python truthiness of a field value: a non-empty string or a non-zero integer. |
| Engine.Render | app/services/RPA_browser/base_engines.py:92 | The f-string form of a value: a string as it is, an integer as `str(i)`. |
| Engine.FormatArg | app/services/RPA_browser/base_engines.py:92 | The argument as written: `--`, key, `=`, rendered value, then every `_` turned into `-`. `FormatArgSplits` and `FormatAliasArg` prove its shape. |
| Engine.FingerprintArgs | app/services/RPA_browser/base_engines.py:80-92 | The launch arguments: the GPU strip, the alias dump and the truthy filter, then `FormatArg` on each kept entry. `FingerprintArgsShape` proves their shape. |
| Engine.KeepTruthyComplete | app/services/RPA_browser/base_engines.py:88-91 | A field survives the filter exactly when the dump has a truthy entry for it. |
| Engine.KeptFields | app/services/RPA_browser/base_engines.py:88-91 | A field becomes a launch argument exactly when its value is set and truthy (not `""`, not `0`). |
| Engine.FormatArgSplits | app/services/RPA_browser/base_engines.py:92 | The `_`→`-` replace runs over key and value alike; no launch argument contains `_`. |
| Engine.FormatAliasArg | app/services/RPA_browser/base_engines.py:92 | Each argument is `--`, the alias (which already starts with `--`), `=`, then the value with `_` dashed; it therefore starts with `----`. |
| Engine.FingerprintArgsShape | app/services/RPA_browser/base_engines.py:80-92 | One argument per kept field, in dump order, each built from that field's alias and value. Exactly the set, truthy fields are present, and off Linux no GPU argument appears. |
| Engine.UndetectedPlaywright.constructor | app/services/RPA_browser/base_engines.py:16-65 | A new engine has the baseline flags, the profile directory derived from its token, remote control off, and last activity at `now`. |
| Engine.UndetectedPlaywright.UpdateActivityTimestamp | app/services/RPA_browser/base_engines.py:104-106 | The last-activity timestamp becomes `now`. |
| Engine.UndetectedPlaywright.IsInactiveFor | app/services/RPA_browser/base_engines.py:108-110 | True exactly when more than `seconds` have passed since the last activity; at the moment of activity only a negative span counts. |
| Engine.UndetectedPlaywright.LaunchBrowser | app/services/RPA_browser/base_engines.py:67-102 | No stored profile raises "Fingerprint not found" and an invalid one raises its validation error, both before the flags change. Otherwise the fingerprint arguments are appended to the flags, and unless the driver fails, a fresh context is launched with this engine's directory, headless mode and flags; the model starts it with no pages. |
| Engine.FormatArgMangles | app/services/RPA_browser/base_engines.py:92 | As written, the documented example timezone `America/New_York` reaches the browser as `America/New-York`, under the key `----timezone`. |
| Engine.IntendedArg | app/services/RPA_browser/base_engines.py:92 | The intended argument is the alias, `=`, then the value, untouched. |
| Engine.AliasNamesField | app/models/RPA_browser/models.py:36-66 | Every alias is `--` and then a field name that does not start with `-`. |
| Engine.IntendedArgDiffers | app/services/RPA_browser/base_engines.py:92 | For every field and value, the intended argument has a single `--` before the field name, so it never equals the argument the code builds. |
| Engine.IntendedArgKeepsValue | app/models/RPA_browser/models.py:64 | The intended argument for the example timezone is `--timezone=America/New_York`, which differs from what the code builds. |
| Driver.BrowserContext.constructor | app/services/RPA_browser/base_engines.py:95-100 | A persistent context starts open, with no pages, holding the given directory, headless mode and arguments. |
| Driver.BrowserContext.NewPage | app/services/RPA_browser/playwright_pool.py:182 | On an open context, `new_page()` lists a fresh open page last and keeps the context valid; only the page list changes. On a closed context it raises and nothing changes. |
| Driver.BrowserContext.ClosePage | app/services/site_rpa_operation/plugins/page_limit_plugin.py:47 | `page.close()` raises when the page's close fails and then changes nothing. Otherwise the page is closed and taken out of the list. Only the list and that page's closed flag may change, so the other pages and every wrapper stay as they were. |
| Driver.BrowserContext.Close | app/services/RPA_browser/base_engines.py:102 | `browser.close()` closes the context, which then lists no pages. |
| Driver.Page.Wrap | app/services/site_rpa_operation/base/plugined_page_manager.py:89 | `setattr(page, name, enhanced)` adds one wrapper layer over method `name`. |
| Driver.Page.IsClosed | app/services/RPA_browser/live_service.py:82-84 | `page.is_closed()`: the page was closed, or its context was. |
| SessionPool.Sweep | app/services/RPA_browser/playwright_pool.py:62-77 | The idle sweep keeps exactly the sessions used within thirty minutes or under remote control, each unchanged. |
| SessionPool.Idle | app/services/RPA_browser/playwright_pool.py:70-73 | A session is idle when more than thirty minutes passed since its last use and it is not under remote control. |
| SessionPool.IdleTokens | app/services/RPA_browser/playwright_pool.py:68-73 | The tokens of the idle sessions. |
| SessionPool.SweepIdempotent | app/services/RPA_browser/playwright_pool.py:62-77 | A second sweep at the same time removes nothing more. |
| SessionPool.SweepMonotone | app/services/RPA_browser/playwright_pool.py:71-72 | A later sweep keeps no session that an earlier sweep would have removed. |
| SessionPool.SweepKeeps | app/services/RPA_browser/playwright_pool.py:70-73 | A remote-controlled session, or one used within thirty minutes, survives the sweep unchanged. |
| SessionPool.TouchedSurvives | app/services/RPA_browser/playwright_pool.py:71-73 | A session touched at `now` survives any sweep up to thirty minutes later. |
| SessionPool.NewEngine | app/services/RPA_browser/playwright_pool.py:133-141 | The engine built for `t` knows `t` and its profile directory. The launch succeeds exactly when a profile is stored, it validates and the driver starts, and then it yields a fresh open context, modelled with no pages. |
| SessionPool.PlaywrightSessionPool.constructor | app/services/RPA_browser/playwright_pool.py:34-46 | A new pool is empty and unlocked, with no launches or removals recorded. |
| SessionPool.PlaywrightSessionPool.EnginesDistinct | app/services/RPA_browser/playwright_pool.py:125-153 | Two tokens in the pool never share an engine. |
| SessionPool.PlaywrightSessionPool.ContextsDistinct | app/services/RPA_browser/base_engines.py:57-61 | Two tokens in the pool never share a context, because each context lives in its own token's profile directory. |
| SessionPool.PlaywrightSessionPool.GetSession | app/services/RPA_browser/playwright_pool.py:90-111 | A stored token returns its engine and context and sets last use and engine activity to `now`. A missing token is created and stored only if the launch succeeds. The new session has creation and last use at `now`, remote control off, and a context with no pages. A held lock blocks, and then the pool and the token's engine are unchanged. |
| SessionPool.PlaywrightSessionPool.Touch | app/services/RPA_browser/playwright_pool.py:104-108 | The lookup hit: the stored pair is returned and only that session's last use and engine activity become `now`. |
| SessionPool.PlaywrightSessionPool.CreateSession | app/services/RPA_browser/playwright_pool.py:113-153 | The double-check re-uses a token stored in the meantime. Otherwise a new session enters the pool exactly when the launch succeeds, and that token's launch is counted once. |
| SessionPool.PlaywrightSessionPool.Store | app/services/RPA_browser/playwright_pool.py:143-151 | A freshly launched session is added under its token, and nothing else changes. |
| SessionPool.PlaywrightSessionPool.CloseSession | app/services/RPA_browser/playwright_pool.py:79-88 | The token's entry is deleted even when teardown raises, and its context is closed when teardown does not raise. An absent token changes nothing. |
| SessionPool.PlaywrightSessionPool.ReleaseSession | app/services/RPA_browser/playwright_pool.py:155-163 | Under a free lock the session is removed and counted as removed once, and its context is closed unless teardown raises. A held lock blocks it, and nothing changes. |
| SessionPool.PlaywrightSessionPool.GetPage | app/services/RPA_browser/playwright_pool.py:165-182 | Get or create the session, refresh its last use and engine activity, and return a fresh open page. The page is appended to that session's context, which stays open. A new session's context lists only that page. It fails exactly when the lock is held, or the token is new and its launch fails. A failure changes nothing, including the token's engine and context. The lock ends as it started, and no other token's session or snapshot changes. |
| SessionPool.PlaywrightSessionPool.OpenPage | app/services/RPA_browser/playwright_pool.py:176-182 | After `get_session`, the session's last use and engine activity become `now`. One fresh page is appended to its context, and the context stays open. |
| SessionPool.PlaywrightSessionPool.SetRemoteControl | app/services/RPA_browser/playwright_pool.py:184-210 | Start or stop remote control of a stored session, setting its last use and activity to `now`. Only that session's engine may change. An absent token changes nothing, and a held lock blocks. |
| SessionPool.PlaywrightSessionPool.IsRemoteControlActive | app/services/RPA_browser/playwright_pool.py:212-226 | The stored flag of the token, `False` for an absent token; a held lock blocks. |
| SessionPool.PlaywrightSessionPool.CleanupInactiveSessions | app/services/RPA_browser/playwright_pool.py:62-77 | Under a free lock, the pool afterwards is exactly `Sweep` of the pool before. Each idle session is counted as removed once, and its context is closed unless its teardown raises. Every other context is unchanged. A held lock changes nothing, and no context changes. |
| SessionPool.PlaywrightSessionPool.InactiveTokens | app/services/RPA_browser/playwright_pool.py:68-73 | The first loop collects exactly the tokens that are idle and not under remote control. |
| SessionPool.PlaywrightSessionPool.CloseAll | app/services/RPA_browser/playwright_pool.py:76-77 | The second loop removes exactly the collected tokens, counts each stored one as removed once, and closes the context of each whose teardown does not raise. Only those contexts may change. |
| SessionPool.PlaywrightSessionPool.OldestToken | app/services/RPA_browser/playwright_pool.py:234-235 | `min(keys, key=created_at)` returns a stored token whose creation time is least. |
| SessionPool.PlaywrightSessionPool.CleanupOldestSession | app/services/RPA_browser/playwright_pool.py:228-236 | On a non-empty pool with a free lock, a session created first is released: only it is removed, it is counted as removed once, and its context is closed unless teardown raises. Every other context is unchanged. An empty pool, a held lock or a failing teardown leaves every context unchanged, and the first two change nothing at all. |
| SessionPool.PlaywrightSessionPool.CleanupAllSessions | app/services/RPA_browser/playwright_pool.py:238-245 | As written, an empty pool completes. With any session present, the nested `release_session` waits for the lock already held, so nothing is removed, nothing is counted, no context changes and the lock stays held. |
| SessionPool.PlaywrightSessionPool.CleanupAllSessionsFixed | app/services/RPA_browser/playwright_pool.py:238-245 | As intended, under a free lock every session is removed and counted as removed once, each context is closed unless its teardown raises, and the pool ends empty. A held lock changes nothing, and no context changes. |
| Plugin.Callables | app/services/site_rpa_operation/base/base_plugin.py:60 | The `callable(...)` filter returns only callable operations, never more than there were. |
| Plugin.CallablesExact | app/services/site_rpa_operation/base/base_plugin.py:60 | An operation is in the filtered list exactly when it is in the chain and callable, so no callable operation is dropped. |
| Plugin.CallablesConcat | app/services/site_rpa_operation/base/base_plugin.py:56-62 | The filter keeps chain order: the callables of two chains joined are those of the first, then those of the second. |
| Plugin.RunChainAll | app/services/site_rpa_operation/base/base_plugin.py:56-62 | When no invocation raises, a chain walk invokes every callable exactly once, in chain order, skips non-callables and does not raise. |
| Plugin.RunChainRaises | app/services/site_rpa_operation/base/base_plugin.py:56-62 | A walk raises exactly when some callable of the chain rejects the arguments or raises in its body. |
| Plugin.RunChainPrefix | app/services/site_rpa_operation/base/base_plugin.py:56-62 | What a walk invoked is a prefix of the callables. When it raised, the last invocation raised and none before it did. |
| Plugin.RunChain | app/services/site_rpa_operation/base/base_plugin.py:56-62 | The chain walk: callables are invoked in order, non-callables skipped, and the first invocation that raises ends the walk. `RunChainAll`, `RunChainRaises` and `RunChainPrefix` prove what it does. |
| Plugin.Operations | app/services/site_rpa_operation/base/base_plugin.py:22-27 | The operations a list of nodes holds, one per node, in order. |
| Plugin.OperationNode.constructor | app/services/site_rpa_operation/base/base_plugin.py:22-27 | A new node holds its operation and name and has no successor. |
| Plugin.BasePlugin.constructor | app/services/site_rpa_operation/base/base_plugin.py:30-41 | A new plugin has all five chains empty. |
| Plugin.BasePlugin.AddOperation | app/services/site_rpa_operation/base/base_plugin.py:43-54 | The operation is appended to the end of that hook's chain, and the other four chains are unchanged. |
| Plugin.BasePlugin.Tail | app/services/site_rpa_operation/base/base_plugin.py:51-53 | The walk along `next_operation` stops at the last node of a non-empty chain. |
| Plugin.BasePlugin.ExecuteOperationChain | app/services/site_rpa_operation/base/base_plugin.py:56-62 | Walking a chain does what `RunChain` says of the chain's operations. |
| Plugin.BasePlugin.Invoke | app/services/site_rpa_operation/base/base_plugin.py:64-82 | A hook method takes no arguments: called with none it walks its chain, called with any it raises before running an operation. |
| Plugin.BasePlugin.InvokeForwarding | app/services/site_rpa_operation/base/base_plugin.py:76-78 | As intended, the hook forwards its arguments to the chain walk. |
| Plugin.HookRun | app/services/site_rpa_operation/base/base_plugin.py:64-82 | Passing any argument to a hook method raises and runs none of its operations. |
| Plugin.NewPlugin | app/services/site_rpa_operation/base/base_plugin.py:43-54 | A plugin built by a sequence of `add_operation` calls holds, on each hook, the operations registered on it, in registration order. |
| Retry.RetryRegistered | app/services/site_rpa_operation/plugins/retry_plugin.py:16-18 | The retry plugin's chains: setup on `before_exec`, retry on `on_error`, reset on `on_success`, and the other two chains empty. |
| Retry.RetryBounded | app/services/site_rpa_operation/plugins/retry_plugin.py:25-56 | Starting below the maximum, a call raises the counter by at least one and never past the maximum; at or above it, the counter stays as it is. |
| Retry.RetryAttempts | app/services/site_rpa_operation/plugins/retry_plugin.py:25-56 | Attempts are consecutive from `current_retry + 1`, and every one but the last raised. A returned result is the last attempt's and that attempt succeeded. A re-raise comes from the attempt at the maximum. `None` means nothing was attempted. |
| Retry.RetryAlwaysFails | app/services/site_rpa_operation/plugins/retry_plugin.py:41-54 | An operation that always fails is attempted `max - current` times, and the last exception is re-raised. |
| Retry.RetryFirstSuccess | app/services/site_rpa_operation/plugins/retry_plugin.py:41-45 | The first attempt that succeeds ends the call with its result, and nothing after it is attempted. |
| Retry.RetrySpec | app/services/site_rpa_operation/plugins/retry_plugin.py:25-56 | One `_handle_retry` call from counter `cur`. At or above the cap it returns `None`. Below it the counter rises by one; with no stored operation it returns `None`, otherwise it attempts once, returns on success, recurses while under the cap, and re-raises at the cap. `RetryBounded`, `RetryAttempts`, `RetryAlwaysFails` and `RetryFirstSuccess` prove its properties. |
| Retry.RetryPlugin.constructor | app/services/site_rpa_operation/plugins/retry_plugin.py:8-18 | Counter zero, nothing stored, and the three operations registered. |
| Retry.RetryPlugin.SetupRetry | app/services/site_rpa_operation/plugins/retry_plugin.py:20-23 | The counter goes back to zero. |
| Retry.RetryPlugin.ResetRetryCount | app/services/site_rpa_operation/plugins/retry_plugin.py:58-61 | The counter goes back to zero. |
| Retry.RetryPlugin.HandleRetry | app/services/site_rpa_operation/plugins/retry_plugin.py:25-56 | A given operation replaces the stored one. The outcome, the attempts and the new counter are `RetrySpec` of the old counter, and the recursive retry keeps the stored operation. |
| PageLimit.PageLimitRegistered | app/services/site_rpa_operation/plugins/page_limit_plugin.py:16-18 | The page-limit plugin's chains: check on `before_exec`, re-count on `on_success`, error handler on `on_error`. The error handler needs one argument, so walking that chain with none always raises. |
| PageLimit.OldestClose | app/services/site_rpa_operation/plugins/page_limit_plugin.py:34-60 | The page reported closed by `_close_oldest_page` is one of the listed pages. |
| PageLimit.Remaining | app/services/site_rpa_operation/plugins/page_limit_plugin.py:34-60 | The page list after `_close_oldest_page`: unchanged when nothing closed, one page shorter and with nothing new when one did. |
| PageLimit.OldestCloseAttempts | app/services/site_rpa_operation/plugins/page_limit_plugin.py:34-60 | Nothing is tried on an empty list or a closed context. Otherwise the oldest page is tried, and the second oldest only when the oldest's close raised. A page closes exactly when the last tried close does not raise, and at most one page leaves the list. |
| PageLimit.CleanupTurns | app/services/site_rpa_operation/plugins/page_limit_plugin.py:108-111 | With more pages than the cap, the loop makes `count - max` turns (at most `count`); otherwise none. |
| PageLimit.ForceSpecCounts | app/services/site_rpa_operation/plugins/page_limit_plugin.py:111-118 | Each counted close takes one page off the list, at most one per turn, and the pages left were all listed before. |
| PageLimit.ForceSpec | app/services/site_rpa_operation/plugins/page_limit_plugin.py:111-118 | The as-written cleanup loop: turn `i` closes the page now at position `i` of the shrinking list, skips one whose close raises, and hits an `IndexError` past its end. `ForceSpecCounts`, `ForceSkipsSurvivors` and `ForceIndexError` prove what it does. |
| PageLimit.Kept | app/services/site_rpa_operation/plugins/page_limit_plugin.py:107-118 | The intended cleanup over a snapshot of the first `k` pages: the pages whose close raises (all of them when the context is closed) stay, in order. `FixedKeepsNewest` proves what is left. |
| PageLimit.ForceSkipsSurvivors | app/services/site_rpa_operation/plugins/page_limit_plugin.py:111-116 | As written, four open pages with cap 2 lose the first and the third, leaving the second and the fourth. |
| PageLimit.ForceIndexError | app/services/site_rpa_operation/plugins/page_limit_plugin.py:111-112 | As written, four open pages with cap 1 lose two pages, then the third turn indexes past the end of the shrunken list. |
| PageLimit.FixedKeepsNewest | app/services/site_rpa_operation/plugins/page_limit_plugin.py:107-111 | As intended, when no close raises, cleanup leaves exactly the `max` newest pages, in order. |
| PageLimit.AvailableSlots | app/services/site_rpa_operation/plugins/page_limit_plugin.py:82 | `max(0, max_pages - current_pages)` is never negative, is zero exactly when the cap is reached, and otherwise adds up with the count to the cap. |
| PageLimit.PageLimitPlugin.constructor | app/services/site_rpa_operation/plugins/page_limit_plugin.py:10-18 | Cap set, count zero, and the three operations registered. |
| PageLimit.PageLimitPlugin.CheckPageLimit | app/services/site_rpa_operation/plugins/page_limit_plugin.py:20-32 | The count becomes the number of listed pages. Only at or above the cap is the oldest page closed, as `OldestClose` says. A page taken off the list reports closed; the pages still listed keep their flags, and no wrapper changes. |
| PageLimit.PageLimitPlugin.CloseOldestPage | app/services/site_rpa_operation/plugins/page_limit_plugin.py:34-60 | The closes tried and the new page list are those `OldestClose` gives; a failing close never raises out. A page taken off the list reports closed; the pages still listed keep their flags, and no wrapper changes. |
| PageLimit.PageLimitPlugin.UpdatePageCount | app/services/site_rpa_operation/plugins/page_limit_plugin.py:62-69 | The count becomes the number of listed pages. |
| PageLimit.PageLimitPlugin.HandlePageError | app/services/site_rpa_operation/plugins/page_limit_plugin.py:71-75 | The count becomes the number of listed pages. |
| PageLimit.PageLimitPlugin.GetPageStats | app/services/site_rpa_operation/plugins/page_limit_plugin.py:77-96 | The cap, the count, `AvailableSlots`, and one entry per listed page giving its index and closed state. |
| PageLimit.PageLimitPlugin.ForceCleanup | app/services/site_rpa_operation/plugins/page_limit_plugin.py:98-121 | As written: at or under the cap nothing happens. Above it, the loop runs as `ForceSpec` says and the pages are re-counted, unless an `IndexError` ends it first. Every page taken off the list reports closed; the rest keep their flags, and no wrapper changes. |
| PageLimit.PageLimitPlugin.ForceCleanupFixed | app/services/site_rpa_operation/plugins/page_limit_plugin.py:98-121 | As intended: the oldest `count - max` pages are each tried once. Only those whose close raises stay, ahead of the rest, and the count matches the new list. Every page taken off the list reports closed; the rest keep their flags, and no wrapper changes. |
| PageLimit.CloseByPosition | app/services/site_rpa_operation/plugins/page_limit_plugin.py:111-118 | The as-written loop over positions of the shrinking list leaves the pages, close count and `IndexError` that `ForceSpec` gives. Every page it takes off the list is closed. |
| PageLimit.CloseEach | app/services/site_rpa_operation/plugins/page_limit_plugin.py:111-118 | The intended loop over a snapshot closes each page that does not raise, keeping the others in order. Every page it takes off the list is closed. |
| PageManager.Instantiate | app/services/site_rpa_operation/base/plugined_page_manager.py:29-33 | Instantiating a plugin class gives a fresh plugin whose chains hold exactly that class's registrations. |
| PageManager.Dispatch | app/services/site_rpa_operation/base/plugined_page_manager.py:39-48 | One hook call per plugin, in plugin order, each caught on its own, so one plugin raising never stops the others. |
| PageManager.DispatchForwarding | app/services/site_rpa_operation/base/plugined_page_manager.py:39-48 | The same dispatch with arguments forwarded to the chains. |
| PageManager.DispatchArity | app/services/site_rpa_operation/base/plugined_page_manager.py:66-68 | With no argument, the two dispatches agree. With the one argument `on_error` is given, every plugin raises before running an operation. |
| PageManager.ScheduleShape | app/services/site_rpa_operation/base/plugined_page_manager.py:50-73 | Five stages with the operation third and `after_exec` last. `on_success` runs exactly when the operation succeeds, `on_error` exactly when it fails and always with one argument, and no hook runs twice. |
| PageManager.Schedule | app/services/site_rpa_operation/base/plugined_page_manager.py:50-73 | The five steps of a wrapped call: `before_exec`, `on_exec`, the operation, `on_error` with one argument or `on_success`, then `after_exec`. `ScheduleShape` proves its shape. |
| PageManager.LogErrorHandlers | app/services/site_rpa_operation/plugins/log_plugin.py:27-29 | The logging plugin's `on_error` chain holds its two error handlers, which would both run on the error. The hook as called still raises and runs neither. |
| PageManager.LogOnError | app/services/site_rpa_operation/plugins/log_plugin.py:17-33 | Registering the logging plugin's nine operations leaves exactly the two error handlers on `on_error`. |
| PageManager.EnhanceableExact | app/services/site_rpa_operation/base/plugined_page_manager.py:104-106 | A method name is wrapped exactly when it is in the list and the page has it callable, and none is wrapped twice. |
| PageManager.Enhanceable | app/services/site_rpa_operation/base/plugined_page_manager.py:104-106 | The names in the list that the page has as callables, in list order. `EnhanceableExact` proves which. |
| PageManager.PageMethodsDistinct | app/services/site_rpa_operation/base/plugined_page_manager.py:97-102 | The twenty method names to enhance are distinct. |
| PageManager.PluginizedPageManager.constructor | app/services/site_rpa_operation/base/plugined_page_manager.py:11-19 | A new manager holds its context and plugin classes, with no instances. |
| PageManager.PluginizedPageManager.RegPlugins | app/services/site_rpa_operation/base/plugined_page_manager.py:21-37 | No classes: nothing changes. Otherwise one fresh instance per class, in order, each holding its class's registrations, and the enhanced-page set is emptied. |
| PageManager.PluginizedPageManager.ExecutePlugins | app/services/site_rpa_operation/base/plugined_page_manager.py:39-48 | The hook runs on every instance as `Dispatch` of their chains says. |
| PageManager.PluginizedPageManager.ExecutePluginsForwarding | app/services/site_rpa_operation/base/plugined_page_manager.py:39-48 | As intended, the hook runs on every instance as `DispatchForwarding` says. |
| PageManager.PluginizedPageManager.ExecuteWithPlugins | app/services/site_rpa_operation/base/plugined_page_manager.py:50-73 | As written: the call returns or re-raises as the operation does, and each of its five steps is the hook dispatch or operation `Schedule` names. This includes `on_error` called with one argument. |
| PageManager.PluginizedPageManager.ExecuteWithPluginsFixed | app/services/site_rpa_operation/base/plugined_page_manager.py:50-73 | As intended: the same schedule with arguments forwarded, so `on_error` chains receive the error. |
| PageManager.PluginizedPageManager.InjectPluginsToPage | app/services/site_rpa_operation/base/plugined_page_manager.py:91-112 | With no instances, or an already enhanced page, nothing changes. Otherwise each listed method the page has is wrapped once, in list order, and the page is marked as enhanced. |
| PageManager.PluginizedPageManager.GetCurrentPage | app/services/site_rpa_operation/base/plugined_page_manager.py:114-129 | With pages listed, the last one is enhanced and returned. With none on an open context, a fresh page is opened, enhanced and returned. With none on a closed context, `new_page()` raises and nothing changes. The context's closed flag is kept, no page changes its closed flag, and no listed page other than the one returned gets a wrapper. |
| PageManager.PluginizedPageManager.InjectAllPages | app/services/site_rpa_operation/base/plugined_page_manager.py:131-138 | With plugin instances, every listed page not yet enhanced is enhanced once, and the enhanced set grows by exactly the listed pages; without instances nothing changes. |
| Live.LiveSessionEntry.constructor | app/services/RPA_browser/live_service.py:16-21 | A new entry holds its token text, headless flag and timestamp, and no page. |
| Live.LiveService.constructor | app/services/RPA_browser/live_service.py:24-26 | The registry starts empty. |
| Live.LiveService.CreateLiveSession | app/services/RPA_browser/live_service.py:39-51 | The live id is `str(token)`, and a fresh entry is stored under it that parses back to the token. Then remote control of the pooled session is switched on, which sets that session's last use and its engine's activity time to `now`. A held lock blocks only that step. No other session, and no context, changes. |
| Live.LiveService.StopLiveSession | app/services/RPA_browser/live_service.py:53-67 | For an unknown token: `False`, and nothing changes. A known entry is popped and forgets its page before remote control is switched off, which sets that session's last use and its engine's activity time to `now`. The result is `True`, or nothing when the lock blocks. No other session changes. |
| Live.LiveService.GetPageForEntry | app/services/RPA_browser/live_service.py:74-95 | The cached page is reused while it reports open, and then nothing in the pool changes. Otherwise an unparsable token fails and changes nothing. A parsable token gets a new page from the pool, with the pool updated exactly as `get_page` does. The page is cached and appended to the session's open context, and the engine's activity becomes `now`. The pool call fails exactly when the lock is held or a new session cannot launch. The pool, the token's engine and its context are then as before. The lock always ends as it started. |
| Live.Ascii | app/services/RPA_browser/live_service.py:108 | `.encode('ascii')` gives one byte per character, the character's code. |
| Live.DecimalBytes | app/services/RPA_browser/live_service.py:108 | The length header's number is at least one ASCII digit. |
| Live.Frame | app/services/RPA_browser/live_service.py:106-109 | A frame starts with the boundary and content-type header and ends with CRLF, and is longer than the header plus the image. |
| Live.VideoFrame | app/services/RPA_browser/live_service.py:105-109 | Each yielded chunk is a frame with the source's JPEG header. |
| Live.FrameRoundTrip | app/services/RPA_browser/live_service.py:106-109 | Reading a frame back gives its image and whatever follows, so `Content-Length` delimits the image exactly. |
| Live.FramesRoundTrip | app/services/RPA_browser/live_service.py:102-112 | Reading a stream of frames back gives the images in order. |
| Live.VideoStreamRoundTrip | app/services/RPA_browser/live_service.py:102-112 | The same for the stream the generator writes: the whole stream, and each frame alone. |
| Live.StripLeft | app/services/RPA_browser/live_service.py:130 | `lstrip` removes exactly the leading whitespace: the result is a suffix of the text, everything cut off is whitespace, and it does not start with whitespace. |
| Live.Strip | app/services/RPA_browser/live_service.py:130 | `strip`: `lstrip`, then the same from the right end. |
| Live.Serializable | app/services/RPA_browser/live_service.py:146 | `str`, `int`, `float`, `bool` and `None` results are sent as they are; any other result is sent as its `str()`. |
| Live.HandleWebsocketMessage | app/services/RPA_browser/live_service.py:116-161 | At most one reply, and none exactly when an exception leaves the handler. |
| Live.InvalidJsonReply | app/services/RPA_browser/live_service.py:119-123 | Text that is not JSON gets the single `invalid json` error. |
| Live.ObjectMessageReplies | app/services/RPA_browser/live_service.py:125-161 | An object message gets exactly one reply. Code is run exactly for `eval` with string code, and navigation happens exactly for `navigate` with a truthy url. `eval_result` comes exactly from successful code and `info` exactly from successful navigation; anything else is an `error`. |
| Live.NavigateNeedsUrl | app/services/RPA_browser/live_service.py:150-159 | `navigate` without a url, or with an empty one, gets the `URL 不能为空` error and no navigation. |
| Live.EvalRouting | app/services/RPA_browser/live_service.py:126-141 | Code whose stripped text starts with `await page` goes to Python `eval`; any other code goes to `page.evaluate`. |
| Live.NonObjectGetsNoReply | app/controller/v1/browser_control/live_controller.py:133-139 | As written, valid JSON that is not an object (an array, a string) gets no reply: `data.get` raises, which ends the websocket loop. |
| Live.FixedRepliesOnce | app/services/RPA_browser/live_service.py:116-161 | As intended, every message gets exactly one reply. The corrected handler agrees with the original on invalid JSON and on objects. |
| Live.HandleWebsocketMessageFixed | app/services/RPA_browser/live_service.py:116-161 | The corrected handler: valid JSON that is not an object gets the `unknown message type` error; everything else is handled as before. `FixedRepliesOnce` proves it replies exactly once. |

## Left out

- I/O and concurrency are left out: the asyncio event loop, the background cleanup task and its one-minute sleep, the per-token `_session_locks` (created and never used), logging, and the module-level singleton. Each pool method is one atomic step under the pool lock.
- Time is an integer number of seconds passed in as `now`. `time.time()` returns a float and `datetime.now()` a date: only their order and differences matter.
- Dictionary iteration order is not modelled, so the sweep and the cleanup loops work over sets of tokens.
- SessionPool.PlaywrightSessionPool.OldestToken: when several sessions share the least creation time, `min` picks the first in key order; the model promises only some least one.
- The database read of the fingerprint record becomes the parameter `profile`. The driver (`async_playwright`, `launch_persistent_context`, screenshots, `goto`, `evaluate`) is opaque. The model keeps only the part of the driver's behaviour the core depends on: the page list, `close`, `new_page` and `is_closed`.
- Driver.BrowserContext.constructor: a new persistent context starts with no pages. Chromium's persistent context normally opens with one `about:blank` page. So on a fresh session the model's `GetCurrentPage` opens a new page where the source returns that blank one, and the page-limit counts start one lower than in the browser.
- SessionPool.PlaywrightSessionPool.GetPage: a pooled context is closed only by the pool's own teardown, which removes its session first. A context closed from outside (a browser crash, a window closed by hand) is not modelled, so `get_page`'s `new_page()` never raises on a closed context here.
- Driver.BrowserContext.Close: does not mark the context's page objects as closed; they report closed through their context instead.
- The engine's absolute `user_data_dir` (derived from `__file__`) becomes the parameter `baseDir`. `settings.chromium_executable_path` is not modelled.
- Tokens.ParseToken: models only the hyphen-dropping, 32-hex-digit path of `uuid.UUID`. The braces, the `urn:uuid:` prefix and the other spellings it also accepts are not modelled, since the core only parses text it produced with `str(token)`.
- Fingerprint values are strings and integers. The per-field validation of pydantic beyond the Int32 seed bound and the enums is not modelled.
- Plugin operations are abstract. An operation is its function name and signature arity, and whether its body raises is the oracle `fails`. The side effects of the retry and page-limit operations are modelled as their own methods (`RetryPlugin.HandleRetry`, `PageLimitPlugin.CheckPageLimit`, …) rather than as effects of a chain walk.
- Retry.RetryPlugin.HandleRetry: the `asyncio.sleep(delay)` between attempts is not modelled, and neither is the forwarding of `*args, **kwargs` to the stored operation. The stored operation is known by name.
- The page manager keeps each plugin's `BasePlugin` part only, and walks its chains.
- `_enhanced_pages` starts as an empty set. In the source it is `None` until `reg_plugins` runs. On every path the source can take, the set is read only when plugin instances exist, which needs `reg_plugins` to have run.
- The `hasattr(session, 'pages')` branches are not modelled: a browser context always has `pages`.
- PageLimit.PageLimitPlugin.GetPageStats: reports each page's index and closed state. The url and the title are left out: `page.title()` is a coroutine the source never awaits.
- The enhanced page method itself (an `async def` wrapper around the original) is not modelled. A wrapped method is recorded on the page, and one wrapped call is `ExecuteWithPlugins`.
- Live.LiveService.GetLiveEntry: a plain dictionary lookup; it has no contract of its own.
- The live-session registry is a class attribute shared by every `LiveService` in the source; here it is a field of the one service object.
- `validate_browser_token` and the HTTP and websocket routing are not part of this model. Neither are the `accept`/`close` calls, nor the loop of `frame_generator`, which runs until a screenshot raises. The stream is modelled as the bytes it writes for a sequence of screenshots.
- The result of running code in the page (`eval` or `page.evaluate`) is the parameter `outcome`, and a navigation error is the parameter `navError`. Python's own rules about what `eval` accepts are not modelled. For example, `eval` of the text `await page…` raises a `SyntaxError` in CPython, and the model leaves that to `outcome`.
- Live.StripLeft: strips the six ASCII whitespace characters only, not the other Unicode whitespace `str.strip` removes.
- Live.Ascii: maps a character to its code modulo 256. The frame header is ASCII, so that is exact there; a non-ASCII character, which would make `.encode('ascii')` raise, is not modelled.
- JSON numbers are integers or reals; the float formatting of `json.dumps` is not modelled.
- Exceptions other than `Exception` subclasses (`BaseException`, cancellation) are not modelled.

## Findings

| source | as written | input that shows it | evidently intended | confidence | as-written member | corrected member |
|---|---|---|---|---|---|---|
| app/services/RPA_browser/playwright_pool.py:238-245 | `cleanup_all_sessions` holds the non-reentrant pool lock and calls `release_session`, which takes the same lock again | a pool with one session | close every session under the one lock | not executed | SessionPool.PlaywrightSessionPool.CleanupAllSessions | SessionPool.PlaywrightSessionPool.CleanupAllSessionsFixed |
| app/services/RPA_browser/base_engines.py:92 | `f'--{k}={v}'.replace('_', '-')` prefixes the alias, which already starts with `--`, and rewrites underscores in the value too | timezone `America/New_York` becomes `----timezone=America/New-York` | `--timezone=America/New_York` | not executed | Engine.FormatArgMangles | Engine.IntendedArgDiffers |
| app/services/site_rpa_operation/plugins/page_limit_plugin.py:111-116 | the loop indexes `self.session.pages[i]`, but each successful close removes a page from that list | four open pages, cap 2, close the 1st and 3rd; cap 1 raises `IndexError` | close the `count - max` oldest pages | not executed | PageLimit.ForceSkipsSurvivors | PageLimit.FixedKeepsNewest |
| app/services/site_rpa_operation/base/plugined_page_manager.py:68 | calls `on_error(e)`, but `BasePlugin.on_error` takes no argument, so every plugin raises a `TypeError` and no `on_error` chain runs | the logging plugin and any failing operation | `on_error` forwards the error to its chain | not executed | PageManager.DispatchArity | PageManager.LogErrorHandlers |
| app/services/RPA_browser/live_service.py:125 | `data.get('type')` on valid JSON that is not an object raises `AttributeError` out of the handler, which ends the websocket loop without a reply | the message `[]` | reply `unknown message type` | not executed | Live.NonObjectGetsNoReply | Live.FixedRepliesOnce |

The member family of each finding:

- **The lock finding.** `CleanupAllSessions` is the code as written and `CleanupAllSessionsFixed` the corrected method.
- **The argument-format finding:**
  - as written: the launch uses `FormatArg` through `FingerprintArgs` and `LaunchBrowser`, and `FormatArgMangles` states what it does to the example;
  - corrected: `IntendedArg`, which `IntendedArgDiffers` shows differs from the code's argument for every field and value.
- **The cleanup finding:**
  - as written: `ForceCleanup` and `CloseByPosition`, with `ForceSpec` as their specification and `ForceIndexError` as the second counterexample;
  - corrected: `ForceCleanupFixed` and `CloseEach`, specified by `Kept`.
- **The arity finding:**
  - as written: `BasePlugin.Invoke`, `Dispatch`, `PluginizedPageManager.ExecutePlugins` and `PluginizedPageManager.ExecuteWithPlugins`;
  - corrected: `BasePlugin.InvokeForwarding`, `DispatchForwarding`, `PluginizedPageManager.ExecutePluginsForwarding` and `PluginizedPageManager.ExecuteWithPluginsFixed`.
- **The websocket finding.** `HandleWebsocketMessage` is as written and `HandleWebsocketMessageFixed` the corrected handler.

The operations of the model follow the code as written. Each corrected member sits beside it, with the intended property proved about it.
