/**
 * `PluginizedPageManager`: it instantiates the plugin classes it is given,
 * runs their hook methods around every call of an enhanced page method, and
 * replaces the page methods it knows with wrappers that do so.
 */
module PageManager {
  import opened Wrappers
  import opened Driver
  import opened Plugin
  import Retry
  import PageLimit

  /**
   * A plugin class the manager may be given. The retry and page-limit
   * plugins are built with their default arguments; the logging plugin and
   * any other class are described by their constructor's registrations.
   */
  datatype PluginClass = RetryClass | PageLimitClass | LogClass | CustomClass(regs: seq<Registration>)

  /** The logging plugin's handlers; the two error handlers take an optional `error`. */
  const LOG_START_OPERATION: Operation := Callable("_log_start_operation", 0, Some(0))
  const LOG_OPERATION_CONTEXT: Operation := Callable("_log_operation_context", 0, Some(0))
  const LOG_OPERATION_COMPLETE: Operation := Callable("_log_operation_complete", 0, Some(0))
  const LOG_EXECUTION_TIME: Operation := Callable("_log_execution_time", 0, Some(0))
  const LOG_OPERATION_PROGRESS: Operation := Callable("_log_operation_progress", 0, Some(0))
  const LOG_ERROR_DETAILS: Operation := Callable("_log_error_details", 0, Some(1))
  const LOG_ERROR_CONTEXT: Operation := Callable("_log_error_context", 0, Some(1))
  const LOG_SUCCESS_DETAILS: Operation := Callable("_log_success_details", 0, Some(0))
  const LOG_RESULT_SUMMARY: Operation := Callable("_log_result_summary", 0, Some(0))

  /** The logging plugin's `_setup_log_operations`. */
  const LOG_REGISTRATIONS: seq<Registration> := [
    Registration(BeforeExec, LOG_START_OPERATION, "记录操作开始"),
    Registration(BeforeExec, LOG_OPERATION_CONTEXT, "记录操作上下文"),
    Registration(AfterExec, LOG_OPERATION_COMPLETE, "记录操作完成"),
    Registration(AfterExec, LOG_EXECUTION_TIME, "记录执行时间"),
    Registration(OnExec, LOG_OPERATION_PROGRESS, "记录操作进度"),
    Registration(OnError, LOG_ERROR_DETAILS, "记录错误详情"),
    Registration(OnError, LOG_ERROR_CONTEXT, "记录错误上下文"),
    Registration(OnSuccess, LOG_SUCCESS_DETAILS, "记录成功详情"),
    Registration(OnSuccess, LOG_RESULT_SUMMARY, "记录结果摘要")
  ]

  /** The registrations a class's constructor makes. */
  function ClassRegistrations(c: PluginClass): seq<Registration> {
    match c
    case RetryClass => Retry.RETRY_REGISTRATIONS
    case PageLimitClass => PageLimit.PAGE_LIMIT_REGISTRATIONS
    case LogClass => LOG_REGISTRATIONS
    case CustomClass(regs) => regs
  }

  /** The operations an instance of `c` holds on hook `h`. */
  function ClassOps(c: PluginClass, h: Hook): seq<Operation> {
    RegisteredOps(ClassRegistrations(c), |ClassRegistrations(c)|, h)
  }

  /**
   * `plugin_class(base_playwright_engine=..., session=..., logger=...)`: a
   * new plugin whose chains hold what its class registers.
   */
  method Instantiate(c: PluginClass, session: BrowserContext) returns (b: BasePlugin)
    ensures fresh(b) && fresh(b.repr) && b.Valid()
    ensures forall h :: b.Ops(h) == ClassOps(c, h)
  {
    match c
    case RetryClass =>
      var p := new Retry.RetryPlugin(Retry.DEFAULT_RETRY_TIMES, 30.0);
      b := p.base;
    case PageLimitClass =>
      var p := new PageLimit.PageLimitPlugin(PageLimit.DEFAULT_MAX_PAGES, session);
      b := p.base;
    case LogClass =>
      b := NewPlugin(LOG_REGISTRATIONS);
    case CustomClass(regs) =>
      b := NewPlugin(regs);
  }

  /** What one hook call of every instance did, in instance order. */
  function Dispatch(ops: seq<seq<Operation>>, argc: nat, fails: string -> bool): (r: seq<ChainRun>)
    ensures |r| == |ops|
    ensures forall i :: 0 <= i < |ops| ==> r[i] == HookRun(ops[i], argc, fails)
  {
    seq(|ops|, i requires 0 <= i < |ops| => HookRun(ops[i], argc, fails))
  }

  /** The same dispatch with hook methods that pass their arguments on. */
  function DispatchForwarding(ops: seq<seq<Operation>>, argc: nat, fails: string -> bool): (r: seq<ChainRun>)
    ensures |r| == |ops|
    ensures forall i :: 0 <= i < |ops| ==> r[i] == RunChain(ops[i], argc, fails)
  {
    seq(|ops|, i requires 0 <= i < |ops| => RunChain(ops[i], argc, fails))
  }

  /**
   * A dispatch without arguments is the same either way; with one, as
   * written, every instance's hook raises before its chain runs.
   */
  lemma DispatchArity(ops: seq<seq<Operation>>, fails: string -> bool)
    ensures Dispatch(ops, 0, fails) == DispatchForwarding(ops, 0, fails)
    ensures forall i :: 0 <= i < |ops| ==> Dispatch(ops, 1, fails)[i] == ChainRun([], true)
  {
  }

  /** One stage of a wrapped call: a hook dispatched to all instances, or the original method. */
  datatype Step = HookStep(hook: Hook, argc: nat, runs: seq<ChainRun>) | OperationStep(raised: bool)
  /** The stage, without what it did. */
  datatype Stage = HookStage(hook: Hook, argc: nat) | OperationStage

  /** How a wrapped call ends: the original method's result comes back, or its exception is re-raised. */
  datatype Outcome = Returned | Reraised

  function StageOf(s: Step): Stage {
    if s.HookStep? then HookStage(s.hook, s.argc) else OperationStage
  }

  function Stages(trace: seq<Step>): (r: seq<Stage>)
    ensures |r| == |trace| && forall k :: 0 <= k < |trace| ==> r[k] == StageOf(trace[k])
  {
    seq(|trace|, k requires 0 <= k < |trace| => StageOf(trace[k]))
  }

  /**
   * `__execute_with_plugins`: `before_exec`, then inside the `try`
   * `on_exec`, the operation and `on_success`; when the operation raises,
   * `on_error(e)` instead of `on_success`; `after_exec` in the `finally`.
   */
  function Schedule(opFails: bool): seq<Stage> {
    [HookStage(BeforeExec, 0), HookStage(OnExec, 0), OperationStage,
     if opFails then HookStage(OnError, 1) else HookStage(OnSuccess, 0),
     HookStage(AfterExec, 0)]
  }

  /**
   * The schedule runs every hook at most once, `after_exec` last whatever
   * happens, and exactly one of `on_success` and `on_error`: the first when
   * the operation returned, the second, with the exception as its one
   * argument, when it raised.
   */
  lemma ScheduleShape(opFails: bool)
    ensures var s := Schedule(opFails);
            && |s| == 5 && s[2] == OperationStage && s[4] == HookStage(AfterExec, 0)
            && (HookStage(OnSuccess, 0) in s <==> !opFails)
            && (HookStage(OnError, 1) in s <==> opFails)
            && (forall k :: 0 <= k < |s| && s[k].HookStage? && s[k].hook == OnError ==> s[k].argc == 1)
            && (forall j, k :: 0 <= j < k < |s| && s[j].HookStage? && s[k].HookStage? ==> s[j].hook != s[k].hook)
  {
  }

  /**
   * A logging plugin built by the manager holds two error handlers that
   * each accept the exception: dispatched with it, as intended, both run;
   * as written, neither does.
   */
  lemma LogErrorHandlers(fails: string -> bool)
    requires !fails(LOG_ERROR_DETAILS.fn) && !fails(LOG_ERROR_CONTEXT.fn)
    ensures ClassOps(LogClass, OnError) == [LOG_ERROR_DETAILS, LOG_ERROR_CONTEXT]
    ensures RunChain(ClassOps(LogClass, OnError), 1, fails) == ChainRun([LOG_ERROR_DETAILS, LOG_ERROR_CONTEXT], false)
    ensures HookRun(ClassOps(LogClass, OnError), 1, fails) == ChainRun([], true)
  {
    LogOnError();
  }

  /** The registrations of the logging plugin on `on_error`. */
  lemma LogOnError()
    ensures ClassOps(LogClass, OnError) == [LOG_ERROR_DETAILS, LOG_ERROR_CONTEXT]
  {
    var regs := LOG_REGISTRATIONS;
    assert RegisteredOps(regs, 5, OnError) == [] by {
      assert RegisteredOps(regs, 1, OnError) == [];
      assert RegisteredOps(regs, 2, OnError) == [];
      assert RegisteredOps(regs, 3, OnError) == [];
      assert RegisteredOps(regs, 4, OnError) == [];
    }
    assert RegisteredOps(regs, 6, OnError) == [LOG_ERROR_DETAILS];
    assert RegisteredOps(regs, 7, OnError) == [LOG_ERROR_DETAILS, LOG_ERROR_CONTEXT];
    assert RegisteredOps(regs, 8, OnError) == [LOG_ERROR_DETAILS, LOG_ERROR_CONTEXT];
  }

  /** The page methods an injection enhances, in the order it does so. */
  const PAGE_METHODS: seq<string> := [
    "click", "fill", "type", "press", "check", "uncheck", "select_option",
    "set_input_files", "focus", "blur", "drag_and_drop", "hover",
    "goto", "reload", "wait_for_selector", "wait_for_function",
    "evaluate", "evaluate_handle", "query_selector", "query_selector_all"
  ]

  /** The first `n` of `names` that the page has as callable attributes, in order. */
  function Enhanceable(names: seq<string>, methods: set<string>, n: nat): seq<string>
    requires n <= |names|
  {
    if n == 0 then []
    else Enhanceable(names, methods, n - 1) + (if names[n - 1] in methods then [names[n - 1]] else [])
  }

  predicate NoDuplicates(s: seq<string>) {
    forall i, j :: 0 <= i < j < |s| ==> s[i] != s[j]
  }

  /**
   * An injection wraps exactly the listed names the page has as methods,
   * and, the list having no repetitions, each of them once.
   */
  lemma {:induction false} EnhanceableExact(names: seq<string>, methods: set<string>, n: nat)
    requires n <= |names| && NoDuplicates(names)
    ensures forall x :: x in Enhanceable(names, methods, n) <==> x in names[..n] && x in methods
    ensures NoDuplicates(Enhanceable(names, methods, n))
  {
    if n > 0 {
      EnhanceableExact(names, methods, n - 1);
      assert names[..n] == names[..n - 1] + [names[n - 1]];
      assert names[n - 1] !in names[..n - 1];
    }
  }

  lemma PageMethodsDistinct()
    ensures NoDuplicates(PAGE_METHODS)
  {
  }

  class PluginizedPageManager {
    const session: BrowserContext
    /** The plugin classes, instantiated by `reg_plugins`. */
    const plugins: seq<PluginClass>
    /** The plugin instances; empty until `reg_plugins` (the source's None). */
    var pluginInstances: seq<BasePlugin>
    /** The pages already enhanced, by identity. */
    var enhancedPages: set<Page>

    constructor (session: BrowserContext, plugins: seq<PluginClass>)
      ensures this.session == session && this.plugins == plugins
      ensures pluginInstances == [] && enhancedPages == {}
    {
      this.session := session;
      this.plugins := plugins;
      pluginInstances := [];
      enhancedPages := {};
    }

    /** The operations every instance holds on hook `h`, in instance order. */
    ghost function InstanceOps(h: Hook): (r: seq<seq<Operation>>)
      reads this, pluginInstances
      ensures |r| == |pluginInstances|
    {
      seq(|pluginInstances|, i requires 0 <= i < |pluginInstances| reads this, pluginInstances => pluginInstances[i].Ops(h))
    }

    /**
     * `reg_plugins`: without plugin classes nothing happens; otherwise every
     * class is instantiated, in order, into a new instance list, and the set
     * of enhanced pages starts over empty.
     */
    method RegPlugins()
      modifies this`pluginInstances, this`enhancedPages
      ensures plugins == [] ==> pluginInstances == old(pluginInstances) && enhancedPages == old(enhancedPages)
      ensures plugins != [] ==> |pluginInstances| == |plugins| && enhancedPages == {}
      ensures plugins != [] ==> forall i :: 0 <= i < |plugins| ==> fresh(pluginInstances[i]) && pluginInstances[i].Valid()
      ensures plugins != [] ==> forall i, h :: 0 <= i < |plugins| ==> pluginInstances[i].Ops(h) == ClassOps(plugins[i], h)
    {
      if plugins == [] {
        return;
      }
      var instances: seq<BasePlugin> := [];
      var i := 0;
      while i < |plugins|
        invariant 0 <= i <= |plugins| && |instances| == i
        invariant forall j :: 0 <= j < i ==> fresh(instances[j]) && instances[j].Valid()
        invariant forall j, h :: 0 <= j < i ==> instances[j].Ops(h) == ClassOps(plugins[j], h)
      {
        var b := Instantiate(plugins[i], session);
        instances := instances + [b];
        i := i + 1;
      }
      pluginInstances := instances;
      enhancedPages := {};
    }

    /**
     * `__execute_plugins(h, *args)` with `argc` arguments: every instance's
     * hook method is called in turn, and an exception from one is logged and
     * does not stop the others.
     */
    method ExecutePlugins(h: Hook, argc: nat, fails: string -> bool) returns (runs: seq<ChainRun>)
      requires forall i :: 0 <= i < |pluginInstances| ==> pluginInstances[i].Valid()
      ensures runs == Dispatch(InstanceOps(h), argc, fails)
    {
      runs := [];
      ghost var ops := InstanceOps(h);
      var i := 0;
      while i < |pluginInstances|
        invariant 0 <= i <= |pluginInstances| && |runs| == i
        invariant forall j :: 0 <= j < i ==> runs[j] == HookRun(ops[j], argc, fails)
      {
        var r := pluginInstances[i].Invoke(h, argc, fails);
        assert ops[i] == pluginInstances[i].Ops(h);
        runs := runs + [r];
        i := i + 1;
      }
    }

    /** `__execute_plugins` over hook methods that pass their arguments on. */
    method ExecutePluginsForwarding(h: Hook, argc: nat, fails: string -> bool) returns (runs: seq<ChainRun>)
      requires forall i :: 0 <= i < |pluginInstances| ==> pluginInstances[i].Valid()
      ensures runs == DispatchForwarding(InstanceOps(h), argc, fails)
    {
      runs := [];
      ghost var ops := InstanceOps(h);
      var i := 0;
      while i < |pluginInstances|
        invariant 0 <= i <= |pluginInstances| && |runs| == i
        invariant forall j :: 0 <= j < i ==> runs[j] == RunChain(ops[j], argc, fails)
      {
        var r := pluginInstances[i].InvokeForwarding(h, argc, fails);
        assert ops[i] == pluginInstances[i].Ops(h);
        runs := runs + [r];
        i := i + 1;
      }
    }

    /** What a stage of a wrapped call does: a hook dispatched to every instance, as written. */
    ghost function Performed(s: Stage, opFails: bool, fails: string -> bool): (r: Step)
      reads this, pluginInstances
      ensures StageOf(r) == s
    {
      if s.HookStage? then HookStep(s.hook, s.argc, Dispatch(InstanceOps(s.hook), s.argc, fails))
      else OperationStep(opFails)
    }

    /** What a stage does with hook methods that pass their arguments on. */
    ghost function PerformedForwarding(s: Stage, opFails: bool, fails: string -> bool): (r: Step)
      reads this, pluginInstances
      ensures StageOf(r) == s
    {
      if s.HookStage? then HookStep(s.hook, s.argc, DispatchForwarding(InstanceOps(s.hook), s.argc, fails))
      else OperationStep(opFails)
    }

    /**
     * `__execute_with_plugins(operation)`, where `opFails` says whether the
     * original method raises: the stages run as `Schedule` says, each hook
     * dispatched to every instance. Exceptions from hooks are swallowed, so
     * the call ends as the original method does, whatever the hooks do.
     */
    method ExecuteWithPlugins(opFails: bool, fails: string -> bool) returns (outcome: Outcome, trace: seq<Step>)
      requires forall i :: 0 <= i < |pluginInstances| ==> pluginInstances[i].Valid()
      ensures outcome == if opFails then Reraised else Returned
      ensures |trace| == |Schedule(opFails)|
      ensures forall k :: 0 <= k < |trace| ==> trace[k] == Performed(Schedule(opFails)[k], opFails, fails)
    {
      var before := RunStage(HookStage(BeforeExec, 0), opFails, fails);
      var during := RunStage(HookStage(OnExec, 0), opFails, fails);
      var settle: Step;
      if opFails {
        settle := RunStage(HookStage(OnError, 1), opFails, fails);
        outcome := Reraised;
      } else {
        settle := RunStage(HookStage(OnSuccess, 0), opFails, fails);
        outcome := Returned;
      }
      var after := RunStage(HookStage(AfterExec, 0), opFails, fails);
      trace := [before, during, OperationStep(opFails), settle, after];
    }

    /** One hook stage of `__execute_with_plugins`. */
    method RunStage(s: Stage, opFails: bool, fails: string -> bool) returns (step: Step)
      requires s.HookStage?
      requires forall i :: 0 <= i < |pluginInstances| ==> pluginInstances[i].Valid()
      ensures step == Performed(s, opFails, fails)
    {
      var runs := ExecutePlugins(s.hook, s.argc, fails);
      step := HookStep(s.hook, s.argc, runs);
    }

    /**
     * `__execute_with_plugins` with hook methods that pass the exception on
     * to the `on_error` chains: the same stages and outcome, and each chain
     * runs with the arguments its stage is given.
     */
    method ExecuteWithPluginsFixed(opFails: bool, fails: string -> bool) returns (outcome: Outcome, trace: seq<Step>)
      requires forall i :: 0 <= i < |pluginInstances| ==> pluginInstances[i].Valid()
      ensures outcome == if opFails then Reraised else Returned
      ensures |trace| == |Schedule(opFails)|
      ensures forall k :: 0 <= k < |trace| ==> trace[k] == PerformedForwarding(Schedule(opFails)[k], opFails, fails)
    {
      var before := RunStageForwarding(HookStage(BeforeExec, 0), opFails, fails);
      var during := RunStageForwarding(HookStage(OnExec, 0), opFails, fails);
      var settle: Step;
      if opFails {
        settle := RunStageForwarding(HookStage(OnError, 1), opFails, fails);
        outcome := Reraised;
      } else {
        settle := RunStageForwarding(HookStage(OnSuccess, 0), opFails, fails);
        outcome := Returned;
      }
      var after := RunStageForwarding(HookStage(AfterExec, 0), opFails, fails);
      trace := [before, during, OperationStep(opFails), settle, after];
    }

    /** One hook stage, with hook methods that pass their arguments on. */
    method RunStageForwarding(s: Stage, opFails: bool, fails: string -> bool) returns (step: Step)
      requires s.HookStage?
      requires forall i :: 0 <= i < |pluginInstances| ==> pluginInstances[i].Valid()
      ensures step == PerformedForwarding(s, opFails, fails)
    {
      var runs := ExecutePluginsForwarding(s.hook, s.argc, fails);
      step := HookStep(s.hook, s.argc, runs);
    }

    /**
     * `__inject_plugins_to_page`: with no instances, or for a page already
     * enhanced, nothing happens; otherwise every listed method the page has
     * gets one more wrapper, in list order, and the page is marked enhanced.
     * A second injection of the same page is therefore a no-op.
     */
    method InjectPluginsToPage(page: Page) returns (r: Page)
      modifies this`enhancedPages, page`wrapped
      ensures r == page
      ensures pluginInstances == [] || old(page in enhancedPages) ==>
                enhancedPages == old(enhancedPages) && page.wrapped == old(page.wrapped)
      ensures pluginInstances != [] && old(page !in enhancedPages) ==>
                && enhancedPages == old(enhancedPages) + {page}
                && page.wrapped == old(page.wrapped) + Enhanceable(PAGE_METHODS, page.methods, |PAGE_METHODS|)
    {
      if pluginInstances == [] || page in enhancedPages {
        return page;
      }
      var i := 0;
      while i < |PAGE_METHODS|
        invariant 0 <= i <= |PAGE_METHODS|
        invariant page.wrapped == old(page.wrapped) + Enhanceable(PAGE_METHODS, page.methods, i)
        invariant enhancedPages == old(enhancedPages)
      {
        if PAGE_METHODS[i] in page.methods {
          page.Wrap(PAGE_METHODS[i]);
        }
        i := i + 1;
      }
      enhancedPages := enhancedPages + {page};
      return page;
    }

    /**
     * `get_current_page`: the last listed page, enhanced; with no pages, a
     * new page (made with `closeFails` and `methods`), enhanced. With no
     * pages on a closed context, `new_page()` raises (`None`) and nothing
     * changes.
     */
    method GetCurrentPage(closeFails: bool, methods: set<string>) returns (r: Option<Page>)
      requires session.Valid()
      modifies this`enhancedPages, session`pages
      modifies (if session.pages != [] then {session.pages[|session.pages| - 1]} else {})`wrapped
      ensures session.Valid() && session.closed == old(session.closed)
      ensures r.None? <==> old(session.pages) == [] && session.closed
      ensures r.None? ==> session.pages == old(session.pages) && enhancedPages == old(enhancedPages)
      ensures forall p :: p in old(session.pages) ==> p.closed == old(p.closed)
      ensures forall p :: p in old(session.pages) && Some(p) != r ==> p.wrapped == old(p.wrapped)
      ensures r.Some? && pluginInstances != [] ==> enhancedPages == old(enhancedPages) + {r.value}
      ensures pluginInstances == [] ==> enhancedPages == old(enhancedPages)
      ensures old(session.pages) != [] ==>
                && r == Some(old(session.pages[|session.pages| - 1])) && session.pages == old(session.pages)
                && r.value.wrapped == old(r.value.wrapped) +
                     (if pluginInstances == [] || old(r.value in enhancedPages) then []
                      else Enhanceable(PAGE_METHODS, r.value.methods, |PAGE_METHODS|))
      ensures r.Some? && old(session.pages) == [] ==>
                && fresh(r.value) && session.pages == [r.value] && r.value.closeFails == closeFails
                && r.value.methods == methods && !r.value.closed
                && r.value.wrapped == (if pluginInstances == [] then [] else Enhanceable(PAGE_METHODS, methods, |PAGE_METHODS|))
    {
      if |session.pages| > 0 {
        var page := InjectPluginsToPage(session.pages[|session.pages| - 1]);
        return Some(page);
      }
      var p := session.NewPage(closeFails, methods);
      if p.None? {
        return None;
      }
      var page := InjectPluginsToPage(p.value);
      r := Some(page);
    }

    /**
     * `inject_plugins_to_all_pages`: every listed page is injected in turn;
     * each page not yet enhanced gets its wrappers once, and afterwards
     * (when there are instances) every listed page is enhanced.
     */
    method InjectAllPages()
      requires session.Valid()
      modifies this`enhancedPages, session.pages`wrapped
      ensures forall p :: p in enhancedPages <==> p in old(enhancedPages) || (pluginInstances != [] && p in session.pages)
      ensures forall i :: 0 <= i < |session.pages| ==>
                session.pages[i].wrapped == old(session.pages[i].wrapped) +
                  (if pluginInstances == [] || old(session.pages[i] in enhancedPages) then []
                   else Enhanceable(PAGE_METHODS, session.pages[i].methods, |PAGE_METHODS|))
    {
      var i := 0;
      while i < |session.pages|
        invariant 0 <= i <= |session.pages|
        invariant forall p :: p in enhancedPages <==> p in old(enhancedPages) || (pluginInstances != [] && p in session.pages[..i])
        invariant forall j :: 0 <= j < |session.pages| ==>
                    session.pages[j].wrapped == old(session.pages[j].wrapped) +
                      (if j >= i || pluginInstances == [] || old(session.pages[j] in enhancedPages) then []
                       else Enhanceable(PAGE_METHODS, session.pages[j].methods, |PAGE_METHODS|))
      {
        var _ := InjectPluginsToPage(session.pages[i]);
        i := i + 1;
      }
    }
  }
}
