/**
 * The process-wide security installer. The two static fields of the source
 * class become the fields of one `SecurityUtils` object standing for the
 * process; each entry point is a method proved against the transition that
 * `Lifecycle` defines for it. The ghost `trace` records, in order, every
 * call the installer makes on a factory, a module or the registry.
 */
module Security {
  import opened SecurityTypes
  import opened ModuleInstallation
  import opened ContextSelection
  import opened Lifecycle

  class SecurityUtils {
    /** `installedContext`; None models null. */
    var installedContext: Option<Context>
    /** `installedModules`; None models null. */
    var installedModules: Option<seq<Module>>
    /** The calls made on collaborators so far. */
    ghost var trace: seq<Call>

    /** The static initialisers: a no-op context and no module list. */
    constructor ()
      ensures installedContext == InitialState().context && installedModules == InitialState().modules
      ensures trace == []
    {
      installedContext := Some(NoOpContext);
      installedModules := None;
      trace := [];
    }

    method GetInstalledContext() returns (c: Option<Context>)
      ensures c == installedContext
    {
      c := installedContext;
    }

    method GetInstalledModules() returns (ms: Option<seq<Module>>)
      ensures ms == installedModules
    {
      ms := installedModules;
    }

    /** `install(config)`: install the modules, then the context. */
    method Install(reg: Registry, config: SecurityConfiguration) returns (r: Outcome)
      modifies this
      ensures var t := InstallStep(reg, config, State(old(installedContext), old(installedModules)));
        r == t.result
        && installedContext == t.post.context && installedModules == t.post.modules
        && trace == old(trace) + t.calls
    {
      r := InstallModules(reg, config);
      if r.Fail? {
        return;
      }
      r := InstallContext(reg, config);
    }

    /**
     * `installModules(config)`: look up, create and install each configured
     * module in order; the list is published only after the loop.
     */
    method InstallModules(reg: Registry, config: SecurityConfiguration) returns (r: Outcome)
      modifies this
      ensures var t := InstallModulesStep(reg, config.moduleFactoryIds, State(old(installedContext), old(installedModules)));
        r == t.result
        && installedContext == t.post.context && installedModules == t.post.modules
        && trace == old(trace) + t.calls
    {
      var ids := config.moduleFactoryIds;
      var modules: seq<Module> := [];
      ghost var calls: seq<Call> := [];
      var i := 0;
      while i < |ids|
        invariant 0 <= i <= |ids|
        invariant RunModules(reg, ids, i) == ModulesRun(Collected(modules), calls)
        invariant installedContext == old(installedContext) && installedModules == old(installedModules)
        invariant trace == old(trace)
      {
        var id := ids[i];
        ModulesLoopStep(reg, ids, i);
        calls := calls + [FindModuleFactory(id)];
        if id !in reg.moduleFactories {
          InstallModulesThrown(reg, ids, State(old(installedContext), old(installedModules)), i + 1);
          trace := trace + calls;
          return Fail(NoModuleFactory(id));
        }
        var factory := reg.moduleFactories[id];
        calls := calls + [CreateModule(id)];
        var created := factory.createModule;
        // null when the module does not apply in this environment
        if created.Some? {
          var m := created.value;
          calls := calls + [InstallModule(m)];
          if m.onInstall == InstallThrows {
            InstallModulesThrown(reg, ids, State(old(installedContext), old(installedModules)), i + 1);
            trace := trace + calls;
            return Fail(ModuleInstallFailed(id));
          }
          modules := modules + [m];
        }
        i := i + 1;
      }
      trace := trace + calls;
      installedModules := Some(modules);
      r := Pass;
    }

    /**
     * `installContext(config)`: the first context factory that is found,
     * compatible and returns from `createContext` sets the context; the rest
     * are not consulted. A null context afterwards is an error.
     */
    method InstallContext(reg: Registry, config: SecurityConfiguration) returns (r: Outcome)
      modifies this
      ensures var t := InstallContextStep(reg, config.contextFactoryIds, State(old(installedContext), old(installedModules)));
        r == t.result
        && installedContext == t.post.context && installedModules == t.post.modules
        && trace == old(trace) + t.calls
    {
      var ids := config.contextFactoryIds;
      ghost var calls: seq<Call> := [];
      var i := 0;
      while i < |ids|
        invariant 0 <= i <= |ids|
        invariant RunContexts(reg, ids, i) == ContextRun(Pending, calls)
        invariant installedContext == old(installedContext) && installedModules == old(installedModules)
        invariant trace == old(trace)
      {
        var id := ids[i];
        ContextsLoopStep(reg, ids, i);
        calls := calls + [FindContextFactory(id)];
        if id in reg.contextFactories {
          var factory := reg.contextFactories[id];
          calls := calls + [CheckCompatible(id)];
          if factory.compatible {
            calls := calls + [CreateContext(id)];
            match factory.createContext {
              case Created(c) =>
                installedContext := c;
                InstallContextSelected(reg, ids, State(old(installedContext), old(installedModules)), i + 1);
                break;
              case InitializeFailure =>   // logged; try the next factory
              case LinkageFailure =>      // logged; try the next factory
            }
          }
        }
        i := i + 1;
      }
      trace := trace + calls;
      if installedContext.None? {
        r := Fail(NoValidContext);
      } else {
        r := Pass;
      }
    }

    /**
     * `uninstall()`: uninstall the recorded modules from the last one down,
     * swallowing both kinds of failure, then forget them and reset the
     * context to a fresh no-op one.
     */
    method Uninstall()
      modifies this
      ensures var t := UninstallStep(State(old(installedContext), old(installedModules)));
        installedContext == t.post.context && installedModules == t.post.modules && trace == old(trace) + t.calls
    {
      if installedModules.Some? {
        var ms := installedModules.value;
        var i := |ms| - 1;
        while i >= 0
          invariant -1 <= i < |ms|
          invariant trace == old(trace) + UninstallCalls(ms, i + 1)
          decreases i + 1
        {
          var m := ms[i];
          trace := trace + [UninstallModule(m)];
          match m.onUninstall {
            case UninstallSucceeds =>
            case UninstallUnsupported =>   // ignored
            case UninstallThrows =>        // logged as a warning
          }
          i := i - 1;
        }
        installedModules := None;
      }
      installedContext := Some(NoOpContext);
    }
  }
}
