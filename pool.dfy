/**
 * The session pool (`PlaywrightSessionPool`): a dictionary from browser token
 * to session record, guarded by one pool-wide lock. Each async method is an
 * atomic section under that lock; time is the explicit `now` of the call, the
 * store's answer for the token and the driver's failures are parameters.
 *
 * The lock is the boolean `locked`. A call that would wait on it while it is
 * held never returns in the source; here it reports that it was blocked and
 * changes nothing. Once `cleanup_all_sessions` has deadlocked, the lock stays
 * held.
 */
module SessionPool {
  import opened Wrappers
  import opened Tokens
  import opened Fingerprint
  import opened Driver
  import opened Engine

  /** `now - last_used > 30 * 60` makes a session idle. */
  const IDLE_SECONDS: int := 30 * 60

  /** A session record: engine, context and its teardown, creation and last-use times. */
  datatype SessionInfo = SessionInfo(
    engine: UndetectedPlaywright,
    context: BrowserContext,
    createdAt: int,
    lastUsed: int)

  // ---------------------------------------------------------------------------
  // The pool's abstract value and its specification
  // ---------------------------------------------------------------------------

  /** What the pool knows of one session: its times and its engine's remote-control flag. */
  datatype Snapshot = Snapshot(createdAt: int, lastUsed: int, remote: bool)

  type View = map<Token, Snapshot>

  /** The sweep's test: idle for more than thirty minutes and not under remote control. */
  predicate Idle(s: Snapshot, now: int) {
    now - s.lastUsed > IDLE_SECONDS && !s.remote
  }

  /** The tokens the sweep closes. */
  function IdleTokens(v: View, now: int): set<Token> {
    set t | t in v && Idle(v[t], now)
  }

  /** One pass of the idle sweep on the abstract value. */
  function Sweep(v: View, now: int): (r: View)
    ensures forall t :: t in r <==> t in v && (now - v[t].lastUsed <= IDLE_SECONDS || v[t].remote)
    ensures forall t :: t in r ==> r[t] == v[t]
  {
    v - IdleTokens(v, now)
  }

  /** A second sweep at the same time removes nothing more. */
  lemma SweepIdempotent(v: View, now: int)
    ensures Sweep(Sweep(v, now), now) == Sweep(v, now)
  {
  }

  /** A later sweep keeps no more sessions than an earlier one. */
  lemma SweepMonotone(v: View, now: int, later: int)
    requires now <= later
    ensures Sweep(v, later).Keys <= Sweep(v, now).Keys
  {
  }

  /** Remote-controlled sessions, and sessions used within the last thirty minutes, survive the sweep. */
  lemma SweepKeeps(v: View, now: int, t: Token)
    requires t in v && (v[t].remote || now - v[t].lastUsed <= IDLE_SECONDS)
    ensures t in Sweep(v, now) && Sweep(v, now)[t] == v[t]
  {
  }

  /** A session touched at `now` survives a sweep at any time up to thirty minutes later. */
  lemma TouchedSurvives(v: View, t: Token, now: int, later: int)
    requires t in v && now <= later <= now + IDLE_SECONDS
    ensures t in Sweep(v[t := v[t].(lastUsed := now)], later)
  {
  }

  /** What the pool's abstract value records of a session. */
  ghost function SnapshotOf(info: SessionInfo): Snapshot
    reads info.engine`isRemoteControlActive
  {
    Snapshot(info.createdAt, info.lastUsed, info.engine.isRemoteControlActive)
  }

  /** The launch yields a context: the store has a profile, it builds, and the driver starts. */
  predicate LaunchSucceeds(profile: Option<StoredProfile>, driverFails: bool) {
    profile.Some? && Build(profile.value).Success? && !driverFails
  }

  /** Building the engine for `t` and entering its launch scope. */
  method NewEngine(t: Token, headless: bool, baseDir: string, now: int,
                   profile: Option<StoredProfile>, isLinux: bool, driverFails: bool)
    returns (engine: UndetectedPlaywright, launched: Result<BrowserContext, LaunchError>)
    ensures fresh(engine) && engine.browserToken == t && engine.userDataDir == ProfileDir(baseDir, t)
    ensures !engine.isRemoteControlActive && engine.lastActivityTimestamp == now
    ensures launched.Success? <==> LaunchSucceeds(profile, driverFails)
    ensures launched.Success? ==> fresh(launched.value) && !launched.value.closed && launched.value.pages == []
    ensures launched.Success? ==> launched.value.userDataDir == ProfileDir(baseDir, t)
  {
    engine := new UndetectedPlaywright(t, headless, baseDir, now);
    launched := engine.LaunchBrowser(profile, isLinux, driverFails);
  }

  /** Taking the keys of `a`, then `u`, out of a map is taking the keys of `a + {u}`. */
  lemma MinusStep<K, V>(m: map<K, V>, a: set<K>, u: K)
    ensures (m - a) - {u} == m - (a + {u})
  {
  }

  /** A multiset that counts each element of `a` once more than `r0` does is `r0` plus `a`. */
  lemma Counted<K>(r: multiset<K>, r0: multiset<K>, a: set<K>)
    requires forall w :: r[w] == r0[w] + (if w in a then 1 else 0)
    ensures r == r0 + multiset(a)
  {
    assert forall w :: r[w] == (r0 + multiset(a))[w];
  }

  /** Outcome of a pool call. */
  datatype PoolError = LaunchFailed(reason: LaunchError) | Blocked

  /** How `cleanup_all_sessions` ends. */
  datatype CleanupStatus = Completed | Deadlocked

  class PlaywrightSessionPool {
    var sessions: map<Token, SessionInfo>
    /** `_pool_lock` is held. */
    var locked: bool
    /** The base directory under which engines derive their profile directories. */
    const baseDir: string
    /** The abstract value: each session's times and its engine's remote-control flag. */
    ghost var view: View
    /** Every successful launch, by token. */
    ghost var launches: multiset<Token>
    /** Every removal of a session, by token. */
    ghost var removals: multiset<Token>

    function Engines(): set<UndetectedPlaywright>
      reads this`sessions
    {
      set t | t in sessions :: sessions[t].engine
    }

    function Contexts(): set<BrowserContext>
      reads this`sessions
    {
      set t | t in sessions :: sessions[t].context
    }

    /**
     * What the pool keeps true of token `t`, beside its abstract entry being
     * there exactly when its session is: the entry records that session, the session's
     * engine belongs to `t`, its context is open and lives in `t`'s profile
     * directory, and `t` has been launched once more than it has
     * been removed while it is in the pool and as often otherwise, so no token
     * is ever served by two live launches.
     */
    ghost predicate Entry(t: Token)
      reads this`sessions, this`view, this`launches, this`removals, Engines()`isRemoteControlActive, Contexts()`closed
    {
      && (t in sessions ==> t in view && view[t] == SnapshotOf(sessions[t]) && sessions[t].engine.browserToken == t)
      && (t in sessions ==> sessions[t].context.userDataDir == ProfileDir(baseDir, t) && !sessions[t].context.closed)
      && launches[t] == removals[t] + (if t in sessions then 1 else 0)
    }

    ghost predicate Valid()
      reads this`sessions, this`view, this`launches, this`removals, Engines()`isRemoteControlActive, Contexts()`closed
    {
      view.Keys == sessions.Keys && forall t :: Entry(t)
    }

    constructor (baseDir: string)
      ensures Valid() && !locked && sessions == map[] && this.baseDir == baseDir
      ensures launches == multiset{} && removals == multiset{}
    {
      sessions := map[];
      locked := false;
      this.baseDir := baseDir;
      view := map[];
      launches := multiset{};
      removals := multiset{};
    }

    /** Distinct tokens have distinct engines, since an engine knows its token. */
    lemma EnginesDistinct(t: Token, u: Token)
      requires Valid() && t in sessions && u in sessions && t != u
      ensures sessions[t].engine != sessions[u].engine
    {
      assert Entry(t) && Entry(u);
    }

    /** Distinct tokens have distinct contexts, since each lives in its token's profile directory. */
    lemma ContextsDistinct(t: Token, u: Token)
      requires Valid() && t in sessions && u in sessions && t != u
      ensures sessions[t].context != sessions[u].context
    {
      assert Entry(t) && Entry(u);
      if ProfileDir(baseDir, t) == ProfileDir(baseDir, u) {
        ProfileDirInjective(baseDir, t, u);
      }
    }

    /** `get_session`: reuse the stored session, refreshing its times, or create one. */
    method GetSession(t: Token, headless: bool, now: int, profile: Option<StoredProfile>, isLinux: bool, driverFails: bool)
      returns (r: Result<(UndetectedPlaywright, BrowserContext), PoolError>)
      requires Valid()
      modifies this`sessions, this`view, this`launches, this`locked, (if t in sessions then {sessions[t].engine} else {})`lastActivityTimestamp
      ensures Valid() && locked == old(locked) && removals == old(removals)
      ensures r == Failure(Blocked) <==> old(locked)
      ensures r.Failure? ==> sessions == old(sessions) && view == old(view) && launches == old(launches)
      ensures r.Failure? && t in old(sessions) ==> unchanged(old(sessions)[t].engine)
      ensures !old(locked) && t in old(sessions) ==>
                && r == Success((old(sessions)[t].engine, old(sessions)[t].context))
                && sessions == old(sessions)[t := old(sessions)[t].(lastUsed := now)]
                && view == old(view)[t := old(view)[t].(lastUsed := now)]
                && launches == old(launches)
                && r.value.0.lastActivityTimestamp == now
      ensures !old(locked) && t !in old(sessions) ==> (r.Success? <==> LaunchSucceeds(profile, driverFails))
      ensures t !in old(sessions) && r.Success? ==>
                && sessions == old(sessions)[t := SessionInfo(r.value.0, r.value.1, now, now)]
                && view == old(view)[t := Snapshot(now, now, false)]
                && launches == old(launches) + multiset{t}
      ensures t !in old(sessions) && r.Success? ==>
                && fresh(r.value.0) && fresh(r.value.1)
                && r.value.0.browserToken == t && r.value.0.userDataDir == ProfileDir(baseDir, t)
                && !r.value.0.isRemoteControlActive && r.value.0.lastActivityTimestamp == now
                && r.value.1.pages == []
    {
      if locked {
        return Failure(Blocked);
      }
      locked := true;
      if t in sessions {
        r := Touch(t, now);
        locked := false;
        return;
      }
      locked := false;
      r := CreateSession(t, headless, now, profile, isLinux, driverFails);
    }

    /** The lookup hit of `get_session` and of the re-check: `last_used := now`, engine activity now. */
    method Touch(t: Token, now: int) returns (r: Result<(UndetectedPlaywright, BrowserContext), PoolError>)
      requires Valid() && t in sessions
      modifies this`sessions, this`view, sessions[t].engine`lastActivityTimestamp
      ensures Valid()
      ensures r == Success((old(sessions)[t].engine, old(sessions)[t].context))
      ensures sessions == old(sessions)[t := old(sessions)[t].(lastUsed := now)]
      ensures view == old(view)[t := old(view)[t].(lastUsed := now)]
      ensures r.value.0.lastActivityTimestamp == now
    {
      var info := sessions[t];
      info.engine.UpdateActivityTimestamp(now);
      sessions := sessions[t := info.(lastUsed := now)];
      view := view[t := view[t].(lastUsed := now)];
      forall u ensures Entry(u) { assert old(Entry(u)); }
      r := Success((info.engine, info.context));
    }

    /**
     * `_create_session`: under the lock, re-check; if the token is still
     * absent, build an engine and launch it, and store the new session only
     * when the launch returned a context.
     */
    method CreateSession(t: Token, headless: bool, now: int, profile: Option<StoredProfile>, isLinux: bool, driverFails: bool)
      returns (r: Result<(UndetectedPlaywright, BrowserContext), PoolError>)
      requires Valid()
      modifies this`sessions, this`view, this`launches, this`locked, (if t in sessions then {sessions[t].engine} else {})`lastActivityTimestamp
      ensures Valid() && locked == old(locked) && removals == old(removals)
      ensures r == Failure(Blocked) <==> old(locked)
      ensures r.Failure? ==> sessions == old(sessions) && view == old(view) && launches == old(launches)
      ensures r.Failure? && t in old(sessions) ==> unchanged(old(sessions)[t].engine)
      ensures !old(locked) && t in old(sessions) ==>
                && r == Success((old(sessions)[t].engine, old(sessions)[t].context))
                && sessions == old(sessions)[t := old(sessions)[t].(lastUsed := now)]
                && view == old(view)[t := old(view)[t].(lastUsed := now)]
                && launches == old(launches)
                && r.value.0.lastActivityTimestamp == now
      ensures !old(locked) && t !in old(sessions) ==> (r.Success? <==> LaunchSucceeds(profile, driverFails))
      ensures t !in old(sessions) && r.Success? ==>
                && sessions == old(sessions)[t := SessionInfo(r.value.0, r.value.1, now, now)]
                && view == old(view)[t := Snapshot(now, now, false)]
                && launches == old(launches) + multiset{t}
      ensures t !in old(sessions) && r.Success? ==>
                && fresh(r.value.0) && fresh(r.value.1)
                && r.value.0.browserToken == t && r.value.0.userDataDir == ProfileDir(baseDir, t)
                && !r.value.0.isRemoteControlActive && r.value.0.lastActivityTimestamp == now
                && r.value.1.pages == []
    {
      if locked {
        return Failure(Blocked);
      }
      locked := true;
      if t in sessions {
        r := Touch(t, now);
        locked := false;
        return;
      }
      var engine, launched := NewEngine(t, headless, baseDir, now, profile, isLinux, driverFails);
      forall u ensures Entry(u) { assert old(Entry(u)); }
      if launched.Failure? {
        locked := false;
        return Failure(LaunchFailed(launched.error));
      }
      Store(t, SessionInfo(engine, launched.value, now, now));
      locked := false;
      r := Success((engine, launched.value));
    }

    /** The store step of `_create_session`: a freshly launched session enters the pool. */
    method Store(t: Token, info: SessionInfo)
      requires Valid() && t !in sessions
      requires info.engine.browserToken == t && !info.engine.isRemoteControlActive
      requires info.context.userDataDir == ProfileDir(baseDir, t) && !info.context.closed
      modifies this`sessions, this`view, this`launches
      ensures Valid() && removals == old(removals)
      ensures sessions == old(sessions)[t := info]
      ensures view == old(view)[t := Snapshot(info.createdAt, info.lastUsed, false)]
      ensures launches == old(launches) + multiset{t}
    {
      sessions := sessions[t := info];
      view := view[t := Snapshot(info.createdAt, info.lastUsed, false)];
      launches := launches + multiset{t};
      forall u ensures Entry(u) { assert old(Entry(u)); }
    }

    /**
     * `_close_session`: exit the launch scope, which closes the context
     * unless teardown raises; the entry is deleted either way. Absent tokens
     * are left alone.
     */
    method CloseSession(t: Token, teardownFails: bool)
      requires Valid()
      modifies this`sessions, this`view, this`removals, (if t in sessions then {sessions[t].context} else {})
      ensures Valid() && launches == old(launches)
      ensures sessions == old(sessions) - {t}
      ensures removals == if t in old(sessions) then old(removals) + multiset{t} else old(removals)
      ensures view == old(view) - {t}
      ensures t in old(sessions) && !teardownFails ==> old(sessions)[t].context.closed
      ensures t in old(sessions) && teardownFails ==> unchanged(old(sessions)[t].context)
    {
      if t in sessions {
        forall u | u in sessions && u != t
          ensures sessions[u].context != sessions[t].context
        {
          ContextsDistinct(u, t);
        }
        var info := sessions[t];
        sessions := sessions - {t};
        view := view - {t};
        removals := removals + multiset{t};
        if !teardownFails {
          info.context.Close();
        }
        forall u ensures Entry(u) { assert old(Entry(u)); }
      }
    }

    /** `release_session`: take the lock and close the session; it waits for ever on a held lock. */
    method ReleaseSession(t: Token, teardownFails: bool) returns (served: bool)
      requires Valid()
      modifies this`sessions, this`view, this`removals, (if t in sessions then {sessions[t].context} else {})
      ensures Valid() && launches == old(launches)
      ensures served == !old(locked)
      ensures !served ==> sessions == old(sessions) && view == old(view) && removals == old(removals)
      ensures served ==> sessions == old(sessions) - {t} && view == old(view) - {t}
      ensures served ==> removals == if t in old(sessions) then old(removals) + multiset{t} else old(removals)
      ensures served && t in old(sessions) && !teardownFails ==> old(sessions)[t].context.closed
      ensures (!served || teardownFails) && t in old(sessions) ==> unchanged(old(sessions)[t].context)
    {
      if locked {
        return false;
      }
      CloseSession(t, teardownFails);
      served := true;
    }

    /** `get_page`: get or create the session, refresh its times, open a new page in its context. */
    method GetPage(t: Token, headless: bool, now: int, profile: Option<StoredProfile>, isLinux: bool,
                   driverFails: bool, pageCloseFails: bool, pageMethods: set<string>)
      returns (r: Result<Page, PoolError>)
      requires Valid()
      modifies this`sessions, this`view, this`launches, this`locked, (if t in sessions then {sessions[t].engine} else {})`lastActivityTimestamp, (if t in sessions then {sessions[t].context} else {})`pages
      ensures Valid() && locked == old(locked) && removals == old(removals)
      ensures r == Failure(Blocked) <==> old(locked)
      ensures r.Failure? ==> sessions == old(sessions) && view == old(view) && launches == old(launches)
      ensures r.Failure? && t in old(sessions) ==> unchanged(old(sessions)[t].engine, old(sessions)[t].context)
      ensures !old(locked) && t in old(sessions) ==> r.Success?
      ensures !old(locked) && t !in old(sessions) ==> (r.Success? <==> LaunchSucceeds(profile, driverFails))
      ensures t in old(sessions) && r.Success? ==>
                && sessions == old(sessions)[t := old(sessions)[t].(lastUsed := now)]
                && view == old(view)[t := old(view)[t].(lastUsed := now)]
                && launches == old(launches)
                && sessions[t].context.pages == old(sessions[t].context.pages) + [r.value]
      ensures t !in old(sessions) && r.Success? ==>
                && t in sessions && sessions == old(sessions)[t := sessions[t]]
                && view == old(view)[t := Snapshot(now, now, false)]
                && launches == old(launches) + multiset{t}
                && fresh(sessions[t].engine) && fresh(sessions[t].context)
                && sessions[t].context.pages == [r.value]
      ensures r.Success? ==> sessions[t].engine.lastActivityTimestamp == now && !sessions[t].context.closed
      ensures r.Success? ==>
                && t in sessions && fresh(r.value) && !r.value.closed && r.value.closeFails == pageCloseFails
                && r.value.methods == pageMethods && r.value in sessions[t].context.pages
                && r.value.context == sessions[t].context
    {
      if locked {
        return Failure(Blocked);
      }
      ghost var present := t in sessions;
      var got := GetSession(t, headless, now, profile, isLinux, driverFails);
      if got.Failure? {
        assert !present && sessions == old(sessions) && got.error.LaunchFailed?;
        return Failure(got.error);
      }
      ghost var v1 := view;
      var page := OpenPage(t, now, pageCloseFails, pageMethods);
      if !present {
        assert v1 == old(view)[t := Snapshot(now, now, false)];
        assert v1[t].(lastUsed := now) == v1[t];
        assert view == v1;
      }
      r := Success(page);
    }

    /** The part of `get_page` after `get_session`: refresh the session's times, then open a page in its context. */
    method OpenPage(t: Token, now: int, pageCloseFails: bool, pageMethods: set<string>) returns (page: Page)
      requires Valid() && t in sessions
      modifies this`sessions, this`view, sessions[t].engine`lastActivityTimestamp, sessions[t].context`pages
      ensures Valid() && t in sessions && !sessions[t].context.closed
      ensures sessions[t].engine.lastActivityTimestamp == now
      ensures sessions == old(sessions)[t := old(sessions)[t].(lastUsed := now)]
      ensures view == old(view)[t := old(view)[t].(lastUsed := now)]
      ensures fresh(page) && !page.closed && page.closeFails == pageCloseFails && page.methods == pageMethods
      ensures page.context == sessions[t].context
      ensures sessions[t].context.pages == old(sessions[t].context.pages) + [page]
    {
      var context := sessions[t].context;
      var touched := Touch(t, now);
      assert Entry(t);
      assert forall e :: e in Engines() ==> e as object != context;
      label touched:
      var made := context.NewPage(pageCloseFails, pageMethods);
      forall u ensures Entry(u) { assert old@touched(Entry(u)); }
      page := made.value;
    }

    /** `start_remote_control` (`active`) and `stop_remote_control` (not `active`). */
    method SetRemoteControl(t: Token, active: bool, now: int) returns (served: bool)
      requires Valid()
      modifies this`sessions, this`view
      modifies (if t in sessions then {sessions[t].engine} else {})`isRemoteControlActive
      modifies (if t in sessions then {sessions[t].engine} else {})`lastActivityTimestamp
      ensures Valid() && locked == old(locked) && launches == old(launches) && removals == old(removals)
      ensures served == !old(locked)
      ensures !served || t !in old(sessions) ==> sessions == old(sessions) && view == old(view)
      ensures served && t in old(sessions) ==>
                && sessions == old(sessions)[t := old(sessions)[t].(lastUsed := now)]
                && view == old(view)[t := Snapshot(old(view)[t].createdAt, now, active)]
                && sessions[t].engine.lastActivityTimestamp == now
    {
      if locked {
        return false;
      }
      if t in sessions {
        var info := sessions[t];
        info.engine.isRemoteControlActive := active;
        info.engine.UpdateActivityTimestamp(now);
        sessions := sessions[t := info.(lastUsed := now)];
        view := view[t := Snapshot(view[t].createdAt, now, active)];
        forall u ensures Entry(u) {
          assert old(Entry(u)) && old(Entry(t));
        }
      }
      served := true;
    }

    /** `is_remote_control_active`: the stored flag, false for an absent token. */
    method IsRemoteControlActive(t: Token) returns (r: Option<bool>)
      requires Valid()
      ensures locked <==> r.None?
      ensures !locked ==> r == Some(t in view && view[t].remote)
    {
      if locked {
        return None;
      }
      assert Entry(t);
      if t in sessions {
        r := Some(sessions[t].engine.isRemoteControlActive);
      } else {
        r := Some(false);
      }
    }

    /**
     * `_cleanup_inactive_sessions`: under the lock, collect the idle tokens,
     * then close each one; `teardownFails(t)` says whether the teardown of
     * `t` raises.
     */
    method CleanupInactiveSessions(now: int, teardownFails: Token -> bool) returns (served: bool)
      requires Valid()
      modifies this`sessions, this`view, this`removals, set u | u in sessions && Idle(view[u], now) :: sessions[u].context
      ensures Valid() && launches == old(launches)
      ensures served == !old(locked)
      ensures !served ==> sessions == old(sessions) && view == old(view) && removals == old(removals)
      ensures !served ==> unchanged(old(Contexts()))
      ensures served ==> view == Sweep(old(view), now)
      ensures served ==> sessions == old(sessions) - IdleTokens(old(view), now)
      ensures served ==> removals == old(removals) + multiset(IdleTokens(old(view), now))
      ensures served ==> forall u :: u in IdleTokens(old(view), now) && !teardownFails(u) ==> old(sessions)[u].context.closed
      ensures served ==> unchanged(old(Contexts()) - set u | u in IdleTokens(old(view), now) :: old(sessions)[u].context)
    {
      if locked {
        return false;
      }
      var inactive := InactiveTokens(now);
      forall u ensures Entry(u) { assert old(Entry(u)); }
      assert inactive * sessions.Keys == inactive;
      CloseAll(inactive, teardownFails);
      served := true;
    }

    /** The first loop of `_cleanup_inactive_sessions`: the tokens whose sessions are idle at `now`. */
    method InactiveTokens(now: int) returns (inactive: set<Token>)
      requires Valid()
      ensures inactive == IdleTokens(view, now)
    {
      inactive := {};
      var rest := sessions.Keys;
      while rest != {}
        invariant rest <= sessions.Keys
        invariant forall u :: u in inactive <==> u in sessions && u !in rest && Idle(view[u], now)
        decreases |rest|
      {
        var u :| u in rest;
        assert Entry(u);
        if now - sessions[u].lastUsed > IDLE_SECONDS && !sessions[u].engine.isRemoteControlActive {
          inactive := inactive + {u};
        }
        rest := rest - {u};
      }
      assert forall u :: u in inactive <==> u in IdleTokens(view, now);
    }

    /** The second loop of `_cleanup_inactive_sessions`: close each of `tokens` in turn. */
    method CloseAll(tokens: set<Token>, teardownFails: Token -> bool)
      requires Valid()
      modifies this`sessions, this`view, this`removals, set u | u in tokens && u in sessions :: sessions[u].context
      ensures Valid() && launches == old(launches)
      ensures sessions == old(sessions) - tokens && view == old(view) - tokens
      ensures removals == old(removals) + multiset(tokens * old(sessions).Keys)
      ensures forall u :: u in tokens && u in old(sessions) && !teardownFails(u) ==> old(sessions)[u].context.closed
    {
      var toClose := tokens;
      assert tokens - toClose == {};
      while toClose != {}
        invariant Valid() && launches == old(launches) && toClose <= tokens
        invariant Closed(tokens - toClose, old(sessions), old(view), old(removals), teardownFails)
        decreases |toClose|
      {
        var u :| u in toClose;
        ghost var before := tokens - toClose;
        CloseStep(u, before, old(sessions), old(view), old(removals), teardownFails);
        toClose := toClose - {u};
        assert tokens - toClose == before + {u};
      }
      assert tokens - {} == tokens;
      Counted(removals, old(removals), tokens * old(sessions).Keys);
    }

    /**
     * The state once the loop of `CloseAll` has closed the tokens `done`,
     * starting from sessions `s0`, view `v0` and removals `r0`: those tokens
     * are gone, each present one is counted as removed once, and the context
     * of each whose teardown did not raise is closed.
     */
    ghost predicate Closed(done: set<Token>, s0: map<Token, SessionInfo>, v0: View, r0: multiset<Token>,
                           teardownFails: Token -> bool)
      reads this`sessions, this`view, this`removals, set w | w in s0 :: s0[w].context
    {
      && sessions == s0 - done && view == v0 - done
      && (forall w :: removals[w] == r0[w] + (if w in done && w in s0 then 1 else 0))
      && forall w :: w in done && w in s0 && !teardownFails(w) ==> s0[w].context.closed
    }

    /** One turn of the loop of `CloseAll`: close `u`, which the loop has not reached yet. */
    method CloseStep(u: Token, ghost done: set<Token>, ghost s0: map<Token, SessionInfo>, ghost v0: View,
                     ghost r0: multiset<Token>, teardownFails: Token -> bool)
      requires Valid() && u !in done && Closed(done, s0, v0, r0, teardownFails)
      modifies this`sessions, this`view, this`removals, (if u in sessions then {sessions[u].context} else {})
      ensures Valid() && launches == old(launches)
      ensures Closed(done + {u}, s0, v0, r0, teardownFails)
    {
      assert u in sessions <==> u in s0;
      ghost var ctx := if u in sessions then {sessions[u].context} else {};
      CloseSession(u, teardownFails(u));
      MinusStep(s0, done, u);
      MinusStep(v0, done, u);
      forall w | w in done + {u} && w in s0 && !teardownFails(w)
        ensures s0[w].context.closed
      {
        if w != u && s0[w].context !in ctx {
          assert old(s0[w].context.closed);
        }
      }
    }

    /**
     * `min(keys, key=created_at)`: a session whose creation time is least. A
     * scan over the keys keeps the least seen so far.
     */
    method OldestToken() returns (r: Token)
      requires sessions != map[]
      ensures r in sessions
      ensures forall u :: u in sessions ==> sessions[r].createdAt <= sessions[u].createdAt
    {
      var rest := sessions.Keys;
      r :| r in rest;
      rest := rest - {r};
      while rest != {}
        invariant rest <= sessions.Keys && r in sessions
        invariant forall u :: u in sessions && u !in rest ==> sessions[r].createdAt <= sessions[u].createdAt
        decreases |rest|
      {
        var u :| u in rest;
        if sessions[u].createdAt < sessions[r].createdAt {
          r := u;
        }
        rest := rest - {u};
      }
    }

    /** `_cleanup_oldest_session`: release a session created first; nothing on an empty pool. */
    method CleanupOldestSession(teardownFails: bool) returns (released: Option<Token>)
      requires Valid()
      modifies this`sessions, this`view, this`removals
      modifies set u | u in sessions && (forall w :: w in sessions ==> sessions[u].createdAt <= sessions[w].createdAt) :: sessions[u].context
      ensures Valid() && launches == old(launches)
      ensures old(sessions) == map[] || old(locked) ==>
                released.None? && sessions == old(sessions) && view == old(view) && removals == old(removals)
      ensures old(sessions) != map[] && !old(locked) ==>
                && released.Some? && released.value in old(sessions)
                && (forall u :: u in old(sessions) ==> old(sessions)[released.value].createdAt <= old(sessions)[u].createdAt)
                && sessions == old(sessions) - {released.value}
                && view == old(view) - {released.value}
                && removals == old(removals) + multiset{released.value}
                && (!teardownFails ==> old(sessions)[released.value].context.closed)
                && unchanged(old(Contexts()) - {old(sessions)[released.value].context})
      ensures released.None? || teardownFails ==> unchanged(old(Contexts()))
    {
      if sessions == map[] {
        return None;
      }
      var oldest := OldestToken();
      forall u ensures Entry(u) { assert old(Entry(u)); }
      var served := ReleaseSession(oldest, teardownFails);
      released := if served then Some(oldest) else None;
    }

    /**
     * `cleanup_all_sessions` as written: it takes the lock, then calls
     * `release_session` for each key, which waits for the same lock. With a
     * session present the first of those calls never returns, so the loop
     * never gets past its first key and the lock stays held.
     */
    method CleanupAllSessions() returns (status: Option<CleanupStatus>)
      requires Valid()
      modifies this`sessions, this`view, this`removals, this`locked, Contexts()
      ensures Valid() && launches == old(launches) && sessions == old(sessions)
      ensures view == old(view) && removals == old(removals) && unchanged(Contexts())
      ensures old(locked) ==> status.None? && locked
      ensures !old(locked) ==> status == Some(if old(sessions) == map[] then Completed else Deadlocked)
      ensures !old(locked) ==> (locked <==> old(sessions) != map[])
    {
      if locked {
        return None;
      }
      locked := true;
      var toClose := sessions.Keys;
      if toClose != {} {
        var u :| u in toClose;
        var served := ReleaseSession(u, false);
        assert !served;
        return Some(Deadlocked);
      }
      locked := false;
      status := Some(Completed);
    }

    /** What `cleanup_all_sessions` evidently meant: close every session under the one lock. */
    method CleanupAllSessionsFixed(teardownFails: Token -> bool) returns (served: bool)
      requires Valid()
      modifies this`sessions, this`view, this`removals, Contexts()
      ensures Valid() && launches == old(launches)
      ensures served == !old(locked)
      ensures served ==> sessions == map[] && view == map[]
      ensures served ==> removals == old(removals) + multiset(old(sessions).Keys)
      ensures served ==> forall u :: u in old(sessions) && !teardownFails(u) ==> old(sessions)[u].context.closed
      ensures !served ==> sessions == old(sessions) && view == old(view) && removals == old(removals)
      ensures !served ==> unchanged(old(Contexts()))
    {
      if locked {
        return false;
      }
      var keys := sessions.Keys;
      assert keys * sessions.Keys == keys;
      CloseAll(keys, teardownFails);
      assert sessions.Keys == {} && view.Keys == {};
      served := true;
    }
  }
}
