/**
 * The loop of `installModules`: for each configured module-factory
 * identifier, in order, look the factory up (a miss is fatal), create the
 * module (null means "does not apply here"), install it (an exception is
 * fatal) and collect it.
 *
 * `RunModules(reg, ids, n)` is the loop after its first `n` iterations, so it
 * recurses on the last identifier processed, as the loop extends its prefix.
 * `CreatedModules` and `ModuleCallsUpTo` are the reference definitions it is
 * compared with: they know nothing of exceptions.
 */
module ModuleInstallation {
  import opened SecurityTypes

  /** What the module loop makes of one identifier. */
  datatype ModuleAttempt =
    | ModuleInstalled(installed: Module)
    | ModuleSkipped
    | ModuleFatal(error: SecurityError)

  function AttemptModule(reg: Registry, id: string): ModuleAttempt {
    if id !in reg.moduleFactories then ModuleFatal(NoModuleFactory(id))
    else match reg.moduleFactories[id].createModule
      case None => ModuleSkipped
      case Some(m) =>
        if m.onInstall == InstallThrows then ModuleFatal(ModuleInstallFailed(id)) else ModuleInstalled(m)
  }

  /** The calls the module loop makes for one identifier. */
  function ModuleCalls(reg: Registry, id: string): seq<Call> {
    if id !in reg.moduleFactories then [FindModuleFactory(id)]
    else match reg.moduleFactories[id].createModule
      case None => [FindModuleFactory(id), CreateModule(id)]
      case Some(m) => [FindModuleFactory(id), CreateModule(id), InstallModule(m)]
  }

  /** The factory is registered, and the module it creates is either absent or installs without throwing. */
  predicate Clear(reg: Registry, id: string) {
    id in reg.moduleFactories
    && (reg.moduleFactories[id].createModule.None?
        || reg.moduleFactories[id].createModule.value.onInstall == InstallSucceeds)
  }

  /** Where the module loop stands: still collecting, or ended by an exception. */
  datatype ModulesStatus = Collected(modules: seq<Module>) | Thrown(error: SecurityError)

  datatype ModulesRun = ModulesRun(status: ModulesStatus, calls: seq<Call>)

  /** The module loop after its first `n` iterations over `ids`. */
  function RunModules(reg: Registry, ids: seq<string>, n: nat): ModulesRun
    requires n <= |ids|
  {
    if n == 0 then ModulesRun(Collected([]), [])
    else ExtendModules(reg, RunModules(reg, ids, n - 1), ids[n - 1])
  }

  /** One more iteration of the module loop, unless it has already thrown. */
  function ExtendModules(reg: Registry, before: ModulesRun, id: string): ModulesRun {
    if before.status.Thrown? then before
    else ModulesRun(Collect(before.status.modules, AttemptModule(reg, id)), before.calls + ModuleCalls(reg, id))
  }

  function Collect(modules: seq<Module>, attempt: ModuleAttempt): ModulesStatus {
    match attempt
    case ModuleInstalled(m) => Collected(modules + [m])
    case ModuleSkipped => Collected(modules)
    case ModuleFatal(e) => Thrown(e)
  }

  /** Reference definition: the non-null `createModule` results of the first `n` identifiers, in order. */
  function CreatedModules(reg: Registry, ids: seq<string>, n: nat): seq<Module>
    requires n <= |ids|
  {
    if n == 0 then []
    else
      var id := ids[n - 1];
      CreatedModules(reg, ids, n - 1)
        + if id in reg.moduleFactories && reg.moduleFactories[id].createModule.Some?
          then [reg.moduleFactories[id].createModule.value] else []
  }

  /** Reference definition: the calls for the first `n` identifiers, each identifier's calls in turn. */
  function ModuleCallsUpTo(reg: Registry, ids: seq<string>, n: nat): seq<Call>
    requires n <= |ids|
  {
    if n == 0 then [] else ModuleCallsUpTo(reg, ids, n - 1) + ModuleCalls(reg, ids[n - 1])
  }

  /** One iteration of the module loop, spelled out call by call, branch by branch. */
  lemma ModulesLoopStep(reg: Registry, ids: seq<string>, i: nat)
    requires i < |ids| && RunModules(reg, ids, i).status.Collected?
    ensures var before, id := RunModules(reg, ids, i), ids[i];
      id !in reg.moduleFactories ==>
        RunModules(reg, ids, i + 1) == ModulesRun(Thrown(NoModuleFactory(id)), before.calls + [FindModuleFactory(id)])
    ensures var before, id := RunModules(reg, ids, i), ids[i];
      id in reg.moduleFactories && reg.moduleFactories[id].createModule.None? ==>
        RunModules(reg, ids, i + 1) == ModulesRun(before.status, before.calls + [FindModuleFactory(id), CreateModule(id)])
    ensures var before, id := RunModules(reg, ids, i), ids[i];
      id in reg.moduleFactories && reg.moduleFactories[id].createModule.Some? ==>
        var m := reg.moduleFactories[id].createModule.value;
        var calls := before.calls + [FindModuleFactory(id), CreateModule(id), InstallModule(m)];
        RunModules(reg, ids, i + 1) ==
          if m.onInstall == InstallThrows then ModulesRun(Thrown(ModuleInstallFailed(id)), calls)
          else ModulesRun(Collected(before.status.modules + [m]), calls)
  {
  }

  /** Once the module loop has thrown, the remaining iterations change nothing. */
  lemma {:induction false} RunModulesSettled(reg: Registry, ids: seq<string>, n: nat, m: nat)
    requires n <= m <= |ids|
    requires RunModules(reg, ids, n).status.Thrown?
    ensures RunModules(reg, ids, m) == RunModules(reg, ids, n)
    decreases m
  {
    if n < m {
      RunModulesSettled(reg, ids, n, m - 1);
    }
  }

  /**
   * The first `n` iterations get through exactly when each of those
   * identifiers is clear; they then hold exactly the non-null modules, in
   * configuration order, and have made every identifier's calls in order.
   */
  lemma {:induction false} RunModulesSucceeds(reg: Registry, ids: seq<string>, n: nat)
    requires n <= |ids|
    ensures RunModules(reg, ids, n).status.Collected? <==> forall k :: 0 <= k < n ==> Clear(reg, ids[k])
    ensures RunModules(reg, ids, n).status.Collected? ==>
      RunModules(reg, ids, n).status.modules == CreatedModules(reg, ids, n)
      && RunModules(reg, ids, n).calls == ModuleCallsUpTo(reg, ids, n)
  {
    if n > 0 {
      RunModulesSucceeds(reg, ids, n - 1);
      if !Clear(reg, ids[n - 1]) {
        assert RunModules(reg, ids, n).status.Thrown?;
      }
    }
  }

  /** A module is collected exactly when one of the first `n` factories created it. */
  lemma {:induction false} CreatedModulesMembers(reg: Registry, ids: seq<string>, n: nat, m: Module)
    requires n <= |ids|
    ensures m in CreatedModules(reg, ids, n) <==>
      exists k :: 0 <= k < n && ids[k] in reg.moduleFactories
                  && reg.moduleFactories[ids[k]].createModule == Some(m)
  {
    if n > 0 {
      CreatedModulesMembers(reg, ids, n - 1, m);
    }
  }

  /**
   * The first identifier that is not clear ends the loop with its exception;
   * the calls are those of the identifiers before it and its own.
   */
  lemma RunModulesStopsAtFirstFatal(reg: Registry, ids: seq<string>, k: nat)
    requires k < |ids|
    requires forall j :: 0 <= j < k ==> Clear(reg, ids[j])
    requires !Clear(reg, ids[k])
    ensures RunModules(reg, ids, |ids|).status == Thrown(AttemptModule(reg, ids[k]).error)
    ensures RunModules(reg, ids, |ids|).calls == ModuleCallsUpTo(reg, ids, k + 1)
  {
    RunModulesSucceeds(reg, ids, k);
    RunModulesSettled(reg, ids, k + 1, |ids|);
  }

  /**
   * After the first identifier that is not clear, no identifier that only
   * appears later is looked up or asked to create a module. (That no module
   * of theirs is installed follows from `RunModulesStopsAtFirstFatal`, whose
   * calls end with the fatal identifier's own.)
   */
  lemma LaterModulesUntouched(reg: Registry, ids: seq<string>, k: nat)
    requires k < |ids|
    requires forall j :: 0 <= j < k ==> Clear(reg, ids[j])
    requires !Clear(reg, ids[k])
    ensures forall j, c :: k < j < |ids| && ids[j] !in ids[..k + 1] && c in RunModules(reg, ids, |ids|).calls ==>
      c.FactoryId() != Some(ids[j])
  {
    RunModulesStopsAtFirstFatal(reg, ids, k);
    forall j, c | k < j < |ids| && ids[j] !in ids[..k + 1] && c in ModuleCallsUpTo(reg, ids, k + 1)
      ensures c.FactoryId() != Some(ids[j])
    {
      if c.FactoryId() == Some(ids[j]) {
        ModuleCallsWithin(reg, ids, k + 1, c);
      }
    }
  }

  /** The first `n` identifiers' calls name only those identifiers. */
  lemma {:induction false} ModuleCallsWithin(reg: Registry, ids: seq<string>, n: nat, c: Call)
    requires n <= |ids|
    requires c in ModuleCallsUpTo(reg, ids, n) && c.FactoryId().Some?
    ensures c.FactoryId().value in ids[..n]
  {
    if c in ModuleCalls(reg, ids[n - 1]) {
      assert ids[..n][n - 1] == c.FactoryId().value;
    } else {
      ModuleCallsWithin(reg, ids, n - 1, c);
      assert ids[..n - 1] <= ids[..n];
    }
  }

  /** Every module created by the first `n` clear identifiers had its `install()` called. */
  lemma {:induction false} CreatedModulesInstalled(reg: Registry, ids: seq<string>, n: nat, m: Module)
    requires n <= |ids|
    requires m in CreatedModules(reg, ids, n)
    ensures InstallModule(m) in ModuleCallsUpTo(reg, ids, n)
  {
    if m !in CreatedModules(reg, ids, n - 1) {
      assert ModuleCalls(reg, ids[n - 1])[2] == InstallModule(m);
    } else {
      CreatedModulesInstalled(reg, ids, n - 1, m);
    }
  }

  /** The module loop calls only module factories and modules, never a context factory. */
  lemma {:induction false} RunModulesCallsKind(reg: Registry, ids: seq<string>, n: nat)
    requires n <= |ids|
    ensures forall c :: c in RunModules(reg, ids, n).calls ==> c.IsModuleInstallCall()
  {
    if n > 0 {
      RunModulesCallsKind(reg, ids, n - 1);
    }
  }
}
