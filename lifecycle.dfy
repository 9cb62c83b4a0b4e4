/**
 * The three entry points as transitions of the two static fields: what
 * `installModules`, `installContext`, `install` and `uninstall` return, the
 * state they leave and the calls they make, and the properties that relate
 * them to each other.
 */
module Lifecycle {
  import opened SecurityTypes
  import opened ModuleInstallation
  import opened ContextSelection

  /** `installModules`: run the module loop; publish its list only when it got through. */
  function InstallModulesStep(reg: Registry, ids: seq<string>, s: State): Transition {
    var run := RunModules(reg, ids, |ids|);
    if run.status.Collected? then Transition(Pass, State(s.context, Some(run.status.modules)), run.calls)
    else Transition(Fail(run.status.error), s, run.calls)
  }

  /**
   * `installContext`: run the context loop; a chosen factory's context
   * (possibly null) replaces the field; a null field afterwards throws.
   */
  function InstallContextStep(reg: Registry, ids: seq<string>, s: State): Transition {
    var run := RunContexts(reg, ids, |ids|);
    var context := if run.selection.Selected? then run.selection.context else s.context;
    Transition(if context.None? then Fail(NoValidContext) else Pass, State(context, s.modules), run.calls)
  }

  /** `install`: the modules, then, unless they threw, the context. */
  function InstallStep(reg: Registry, config: SecurityConfiguration, s: State): Transition {
    var t := InstallModulesStep(reg, config.moduleFactoryIds, s);
    if t.result.Fail? then t
    else
      var u := InstallContextStep(reg, config.contextFactoryIds, t.post);
      Transition(u.result, u.post, t.calls + u.calls)
  }

  /** The `uninstall()` calls on `ms[lo..]`, from the last module down to `ms[lo]`. */
  function UninstallCalls(ms: seq<Module>, lo: nat): seq<Call>
    requires lo <= |ms|
    decreases |ms| - lo
  {
    if lo == |ms| then [] else UninstallCalls(ms, lo + 1) + [UninstallModule(ms[lo])]
  }

  /** `uninstall`: tear the recorded modules down, forget them, reset the context to a no-op one. */
  function UninstallStep(s: State): Transition {
    Transition(Pass, State(Some(NoOpContext), None),
               if s.modules.Some? then UninstallCalls(s.modules.value, 0) else [])
  }

  /** The uninstall calls visit the modules in exactly reverse order. */
  lemma {:induction false} UninstallCallsReversed(ms: seq<Module>, lo: nat)
    requires lo <= |ms|
    ensures |UninstallCalls(ms, lo)| == |ms| - lo
    ensures forall k :: 0 <= k < |ms| - lo ==> UninstallCalls(ms, lo)[k] == UninstallModule(ms[|ms| - 1 - k])
    decreases |ms| - lo
  {
    if lo < |ms| {
      UninstallCallsReversed(ms, lo + 1);
    }
  }

  /** Once the module loop has thrown after `n` iterations, `installModules` has thrown that exception. */
  lemma InstallModulesThrown(reg: Registry, ids: seq<string>, s: State, n: nat)
    requires n <= |ids| && RunModules(reg, ids, n).status.Thrown?
    ensures InstallModulesStep(reg, ids, s)
      == Transition(Fail(RunModules(reg, ids, n).status.error), s, RunModules(reg, ids, n).calls)
  {
    RunModulesSettled(reg, ids, n, |ids|);
  }

  /** Once the context loop has broken out after `n` iterations, `installContext` has the outcome of that choice. */
  lemma InstallContextSelected(reg: Registry, ids: seq<string>, s: State, n: nat)
    requires n <= |ids| && RunContexts(reg, ids, n).selection.Selected?
    ensures var run := RunContexts(reg, ids, n);
      InstallContextStep(reg, ids, s)
      == Transition(if run.selection.context.None? then Fail(NoValidContext) else Pass,
                    State(run.selection.context, s.modules), run.calls)
  {
    RunContextsSettled(reg, ids, n, |ids|);
  }

  /**
   * `installModules` succeeds exactly when every configured identifier is
   * clear; it then records exactly the non-null modules in configuration
   * order and leaves the context alone; when it throws, neither field changes.
   */
  lemma InstallModulesOutcome(reg: Registry, ids: seq<string>, s: State)
    ensures var t := InstallModulesStep(reg, ids, s);
      (t.result.Pass? <==> forall k :: 0 <= k < |ids| ==> Clear(reg, ids[k]))
      && (t.result.Pass? ==>
            t.post == State(s.context, Some(CreatedModules(reg, ids, |ids|)))
            && t.calls == ModuleCallsUpTo(reg, ids, |ids|))
      && (t.result.Fail? ==> t.post == s)
  {
    RunModulesSucceeds(reg, ids, |ids|);
  }

  /**
   * Starting from a non-null context, `installContext` throws exactly when the
   * first chosen factory returned null; when no factory is chosen the state is
   * left as it was.
   */
  lemma InstallContextThrowsOnlyOnNull(reg: Registry, ids: seq<string>, s: State)
    requires s.context.Some?
    ensures InstallContextStep(reg, ids, s).result.Fail? <==>
      exists k :: FirstChosen(reg, ids, k) && reg.contextFactories[ids[k]].createContext.context.None?
    ensures (forall k :: 0 <= k < |ids| ==> !Chosen(reg, ids[k])) ==>
      InstallContextStep(reg, ids, s) == Transition(Pass, s, ContextCallsUpTo(reg, ids, |ids|))
  {
    RunContextsExhausted(reg, ids, |ids|);
    if RunContexts(reg, ids, |ids|).selection.Selected? {
      RunContextsSelectedFirst(reg, ids, |ids|);
    }
    if exists k :: FirstChosen(reg, ids, k) && reg.contextFactories[ids[k]].createContext.context.None? {
      var k :| FirstChosen(reg, ids, k) && reg.contextFactories[ids[k]].createContext.context.None?;
      FirstSuccessWins(reg, ids, k);
    }
  }

  /**
   * A null context survives: once a failed `install` has left the context
   * null, an `installContext` in which no factory is chosen throws again.
   */
  lemma NullContextPersists(reg: Registry, ids: seq<string>, s: State)
    requires s.context.None?
    requires forall k :: 0 <= k < |ids| ==> !Chosen(reg, ids[k])
    ensures InstallContextStep(reg, ids, s) == Transition(Fail(NoValidContext), s, ContextCallsUpTo(reg, ids, |ids|))
  {
    RunContextsExhausted(reg, ids, |ids|);
  }

  /**
   * `install` makes all its module calls before any context call, and makes
   * no context call at all when the modules threw, in which case the state is
   * unchanged.
   */
  lemma ModulesBeforeContext(reg: Registry, config: SecurityConfiguration, s: State)
    ensures var t := InstallStep(reg, config, s);
      var n := |RunModules(reg, config.moduleFactoryIds, |config.moduleFactoryIds|).calls|;
      n <= |t.calls|
      && t.calls[..n] == RunModules(reg, config.moduleFactoryIds, |config.moduleFactoryIds|).calls
      && (forall i :: 0 <= i < n ==> t.calls[i].IsModuleInstallCall())
      && (forall i :: n <= i < |t.calls| ==> t.calls[i].IsContextCall())
    ensures var t := InstallStep(reg, config, s);
      RunModules(reg, config.moduleFactoryIds, |config.moduleFactoryIds|).status.Thrown? ==>
        t.result.Fail? && t.post == s && forall c :: c in t.calls ==> !c.IsContextCall()
  {
    var run := RunModules(reg, config.moduleFactoryIds, |config.moduleFactoryIds|);
    RunModulesCallsKind(reg, config.moduleFactoryIds, |config.moduleFactoryIds|);
    RunContextsCallsKind(reg, config.contextFactoryIds, |config.contextFactoryIds|);
    var t := InstallStep(reg, config, s);
    var n := |run.calls|;
    forall i | 0 <= i < n ensures t.calls[i].IsModuleInstallCall() {
      assert t.calls[i] == run.calls[i];
    }
    if run.status.Collected? {
      var u := RunContexts(reg, config.contextFactoryIds, |config.contextFactoryIds|).calls;
      assert t.calls == run.calls + u;
      forall i | n <= i < |t.calls| ensures t.calls[i].IsContextCall() {
        assert t.calls[i] == u[i - n];
      }
    }
  }

  /** A recorded module list holds only modules whose `install()` returned normally. */
  predicate RecordedInstalled(s: State) {
    s.modules.Some? ==> forall m :: m in s.modules.value ==> m.onInstall == InstallSucceeds
  }

  /**
   * The recorded-list invariant holds when the class is loaded and every
   * entry point keeps it, whatever the registry and the configuration.
   */
  lemma RecordedInstalledInvariant(reg: Registry, config: SecurityConfiguration, s: State)
    ensures RecordedInstalled(InitialState())
    ensures RecordedInstalled(s) ==> RecordedInstalled(InstallStep(reg, config, s).post)
    ensures RecordedInstalled(UninstallStep(s).post)
  {
    var ids := config.moduleFactoryIds;
    InstallModulesOutcome(reg, ids, s);
    var t := InstallStep(reg, config, s);
    // the list is replaced as soon as the modules step passes, even if the context step then throws
    if InstallModulesStep(reg, ids, s).result.Pass? {
      assert t.post.modules == InstallModulesStep(reg, ids, s).post.modules == Some(CreatedModules(reg, ids, |ids|));
      forall m | m in CreatedModules(reg, ids, |ids|) ensures m.onInstall == InstallSucceeds {
        CreatedModulesMembers(reg, ids, |ids|, m);
        var k :| 0 <= k < |ids| && ids[k] in reg.moduleFactories && reg.moduleFactories[ids[k]].createModule == Some(m);
        assert Clear(reg, ids[k]);
      }
    }
  }

  /** A second `uninstall` in a row makes no module calls and leaves the state as the first left it. */
  lemma UninstallTwice(s: State)
    ensures var first := UninstallStep(s);
      UninstallStep(first.post) == Transition(Pass, first.post, [])
      && first.post == InitialState()
  {
  }

  /**
   * After a successful `install`, `uninstall` calls `uninstall()` on exactly
   * the modules whose factories returned non-null, last one first, and
   * returns both fields to their initial values.
   */
  lemma InstallThenUninstall(reg: Registry, config: SecurityConfiguration, s: State)
    requires InstallStep(reg, config, s).result.Pass?
    ensures var ids := config.moduleFactoryIds;
      var ms := CreatedModules(reg, ids, |ids|);
      var u := UninstallStep(InstallStep(reg, config, s).post);
      u.calls == UninstallCalls(ms, 0) && u.post == InitialState()
      && |u.calls| == |ms|
      && forall k :: 0 <= k < |ms| ==> u.calls[k] == UninstallModule(ms[|ms| - 1 - k])
  {
    var ids := config.moduleFactoryIds;
    RunModulesSucceeds(reg, ids, |ids|);
    UninstallCallsReversed(CreatedModules(reg, ids, |ids|), 0);
  }

  /**
   * No rollback: when the module loop throws at identifier `k`, the modules
   * created before it had `install()` called but are not recorded, so the
   * state is unchanged and a following `uninstall` tears down only what the
   * earlier state recorded.
   */
  lemma FailedInstallKeepsEarlierModules(reg: Registry, config: SecurityConfiguration, s: State, k: nat)
    requires k < |config.moduleFactoryIds|
    requires forall j :: 0 <= j < k ==> Clear(reg, config.moduleFactoryIds[j])
    requires !Clear(reg, config.moduleFactoryIds[k])
    ensures var ids := config.moduleFactoryIds;
      var t := InstallStep(reg, config, s);
      t.result.Fail? && t.post == s
      && (forall m :: m in CreatedModules(reg, ids, k) ==> InstallModule(m) in t.calls)
      && UninstallStep(t.post).calls == UninstallStep(s).calls
  {
    var ids := config.moduleFactoryIds;
    RunModulesStopsAtFirstFatal(reg, ids, k);
    var t := InstallStep(reg, config, s);
    assert t.calls == ModuleCallsUpTo(reg, ids, k) + ModuleCalls(reg, ids[k]);
    forall m | m in CreatedModules(reg, ids, k) ensures InstallModule(m) in t.calls {
      CreatedModulesInstalled(reg, ids, k, m);
    }
  }
}
