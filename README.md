# Process-wide security installation (Flink `SecurityUtils`)

This project models how a Flink process installs and removes its security
environment. Two static fields make up the environment:

- `installedContext` is the active security context. It starts as a no-op
  context.
- `installedModules` is the list of installed security modules. It starts as
  null.

The entry points work as follows:

- `install(config)` runs `installModules` and then `installContext`.
- `installModules` takes each configured module-factory identifier in order.
  It looks the factory up (a miss is fatal), creates the module (null means
  the module does not apply) and installs it (an exception is fatal). It
  publishes the collected list only after the loop.
- `installContext` takes each configured context-factory identifier in order.
  A factory that is missing, incompatible, or whose `createContext` throws
  `SecurityContextInitializeException` or `LinkageError` is skipped. The first
  `createContext` that returns sets the context, and the loop stops there. A
  null context after the loop throws.
- `uninstall` calls `uninstall()` on the recorded modules from the last one
  down and swallows both failure kinds. It then forgets the list and resets
  the context to a no-op one.

The project has five files:

- `security_types.dfy` (module `SecurityTypes`) holds the entities as values.
  These are the configuration, the factory registry, modules, contexts, the
  calls the installer makes on its collaborators, and the errors that leave
  `install`. Every collaborator is an oracle whose answers are fixed in these
  values. `Option`'s `None` stands for Java's `null`.
- `module_installation.dfy` (module `ModuleInstallation`) covers the module
  loop. `RunModules(reg, ids, n)` is the loop after `n` iterations. It is
  compared with two reference definitions, `CreatedModules` and
  `ModuleCallsUpTo`, which know nothing of exceptions.
- `context_selection.dfy` (module `ContextSelection`) covers the context loop.
  `RunContexts(reg, ids, n)` is the loop after `n` iterations, and
  `ContextCallsUpTo` is its reference definition.
- `lifecycle.dfy` (module `Lifecycle`) defines each entry point as a
  transition of the two fields. A transition gives the outcome, the new state
  and the calls made. The file also proves the properties that relate the
  entry points.
- `security_utils.dfy` (module `Security`) holds the class `SecurityUtils`. Its
  fields are the two static fields plus a ghost `trace` of collaborator calls.
  Each entry point is an imperative method with the source's loop. The method
  is proved to produce exactly the `Lifecycle` transition: its result, both
  fields and the calls appended to `trace`.

In three places the model follows the code even where a reader might expect
otherwise:

- `installContext` throws whenever the field is null after the loop. The field
  starts non-null and `uninstall` resets it to non-null. But after an
  `install` in which the chosen factory returned null, the field stays null.
  A later `install` in which no factory is chosen then throws again
  (`NullContextPersists`).
- Calling `install` again replaces `installedModules` with the new list. The
  modules already recorded are not uninstalled first.
- When a module's `install()` throws part-way through the loop, the modules
  installed before it are never recorded. So `uninstall` never reaches them
  (`FailedInstallKeepsEarlierModules`).

## Model

| member | source | states |
|---|---|---|
| Security.SecurityUtils.constructor | flink-runtime/src/main/java/org/apache/flink/runtime/security/SecurityUtils.java:50-52 | the fields start as a no-op context and a null module list, and no call has been made |
| Security.SecurityUtils.GetInstalledContext | flink-runtime/src/main/java/org/apache/flink/runtime/security/SecurityUtils.java:54-56 | returns the current context field, null included |
| Security.SecurityUtils.GetInstalledModules | flink-runtime/src/main/java/org/apache/flink/runtime/security/SecurityUtils.java:58-60 | returns the current module list field, null included |
| Security.SecurityUtils.Install | flink-runtime/src/main/java/org/apache/flink/runtime/security/SecurityUtils.java:67-71 | outcome, both fields and appended calls are those of the modules step, followed by the context step only if the modules step did not throw |
| Security.SecurityUtils.InstallModules | flink-runtime/src/main/java/org/apache/flink/runtime/security/SecurityUtils.java:73-94 | the loop computes exactly the module-loop run: the exception of the first fatal identifier with both fields untouched, or the collected list published with the context untouched; it appends the run's calls to the trace |
| Security.SecurityUtils.InstallContext | flink-runtime/src/main/java/org/apache/flink/runtime/security/SecurityUtils.java:96-123 | the loop computes exactly the context-loop run: the first chosen factory's context, or the old one when none is chosen; it throws exactly when that is null, leaves the module list alone and appends the run's calls |
| Security.SecurityUtils.Uninstall | flink-runtime/src/main/java/org/apache/flink/runtime/security/SecurityUtils.java:125-143 | calls uninstall on every recorded module from last to first, whichever of the three modelled outcomes each has, then the list is null and the context a no-op one |
| ModuleInstallation.ModulesLoopStep | flink-runtime/src/main/java/org/apache/flink/runtime/security/SecurityUtils.java:78-91 | proof aid for the method loop: the module-loop run unfolded by one iteration, branch by branch (a lookup miss throws, null is skipped after createModule, an install either throws or appends the module) |
| ModuleInstallation.RunModulesSettled | flink-runtime/src/main/java/org/apache/flink/runtime/security/SecurityUtils.java:79-90 | once the module loop has thrown, later identifiers change neither the outcome nor the calls |
| ModuleInstallation.RunModulesSucceeds | flink-runtime/src/main/java/org/apache/flink/runtime/security/SecurityUtils.java:76-93 | the loop gets through iff every identifier is found and none of its created modules throws on install; the list is then exactly the non-null modules in configuration order, and the calls are every identifier's calls in order |
| ModuleInstallation.CreatedModulesMembers | flink-runtime/src/main/java/org/apache/flink/runtime/security/SecurityUtils.java:86-91 | a module is collected iff some configured factory created it (null results are never collected) |
| ModuleInstallation.RunModulesStopsAtFirstFatal | flink-runtime/src/main/java/org/apache/flink/runtime/security/SecurityUtils.java:79-90 | the first identifier that is missing or whose module throws on install decides the exception (IllegalArgumentException for a miss); the calls end with that identifier's own |
| ModuleInstallation.LaterModulesUntouched | flink-runtime/src/main/java/org/apache/flink/runtime/security/SecurityUtils.java:77-84 | after the fatal identifier, no identifier that appears only later is looked up or asked to create a module |
| ModuleInstallation.ModuleCallsWithin | flink-runtime/src/main/java/org/apache/flink/runtime/security/SecurityUtils.java:77-86 | every call of the first n iterations that names a factory names one of the first n identifiers |
| ModuleInstallation.CreatedModulesInstalled | flink-runtime/src/main/java/org/apache/flink/runtime/security/SecurityUtils.java:88-90 | every non-null created module had install called on it |
| ModuleInstallation.RunModulesCallsKind | flink-runtime/src/main/java/org/apache/flink/runtime/security/SecurityUtils.java:77-92 | the module loop calls only module-factory lookups, createModule and install |
| ContextSelection.ContextsLoopStep | flink-runtime/src/main/java/org/apache/flink/runtime/security/SecurityUtils.java:98-117 | proof aid for the method loop: the context-loop run unfolded by one iteration, branch by branch (a miss or an incompatible factory is skipped, a createContext that returns stops the loop, one that throws is skipped) |
| ContextSelection.RunContextsSettled | flink-runtime/src/main/java/org/apache/flink/runtime/security/SecurityUtils.java:104-106 | after the break, later identifiers change neither the choice nor the calls |
| ContextSelection.RunContextsExhausted | flink-runtime/src/main/java/org/apache/flink/runtime/security/SecurityUtils.java:98-117 | the loop runs to the end iff no identifier is found, compatible and created without throwing; it then makes every identifier's calls in order |
| ContextSelection.FirstSuccessWins | flink-runtime/src/main/java/org/apache/flink/runtime/security/SecurityUtils.java:98-106 | the chosen context is the one made by the first chosen factory, and the calls stop with that factory's createContext |
| ContextSelection.LaterContextsUntouched | flink-runtime/src/main/java/org/apache/flink/runtime/security/SecurityUtils.java:98-106 | after the chosen factory, no identifier that appears only later is looked up, asked about compatibility or asked to create a context |
| ContextSelection.ContextCallsWithin | flink-runtime/src/main/java/org/apache/flink/runtime/security/SecurityUtils.java:98-104 | every call of the first n iterations that names a factory names one of the first n identifiers |
| ContextSelection.RunContextsSelectedFirst | flink-runtime/src/main/java/org/apache/flink/runtime/security/SecurityUtils.java:101-106 | whenever the loop broke out, it did so at the first chosen identifier and with its context |
| ContextSelection.NeverCreatesIncompatible | flink-runtime/src/main/java/org/apache/flink/runtime/security/SecurityUtils.java:101-104 | createContext is called only on a factory that was found and reported itself compatible |
| ContextSelection.RunContextsCallsKind | flink-runtime/src/main/java/org/apache/flink/runtime/security/SecurityUtils.java:98-117 | the context loop calls only context-factory lookups, isCompatibleWith and createContext |
| Lifecycle.InstallModulesThrown | flink-runtime/src/main/java/org/apache/flink/runtime/security/SecurityUtils.java:79-90 | once the module loop has thrown, installModules throws that exception, leaves the state as it was and has made the calls so far |
| Lifecycle.InstallContextSelected | flink-runtime/src/main/java/org/apache/flink/runtime/security/SecurityUtils.java:104-122 | once a context is chosen, it becomes the field (keeping the module list) and installContext throws exactly when it is null |
| Lifecycle.InstallModulesOutcome | flink-runtime/src/main/java/org/apache/flink/runtime/security/SecurityUtils.java:73-94 | installModules succeeds iff every identifier is clear; it then records exactly the created modules in order and keeps the context; when it throws, neither field changes |
| Lifecycle.InstallContextThrowsOnlyOnNull | flink-runtime/src/main/java/org/apache/flink/runtime/security/SecurityUtils.java:119-122 | from a non-null context, installContext throws iff the first chosen factory returned null; with no chosen factory the state is unchanged |
| Lifecycle.NullContextPersists | flink-runtime/src/main/java/org/apache/flink/runtime/security/SecurityUtils.java:119-122 | from a null context, an installContext with no chosen factory throws and leaves the state unchanged |
| Lifecycle.ModulesBeforeContext | flink-runtime/src/main/java/org/apache/flink/runtime/security/SecurityUtils.java:67-71 | install makes all module calls before any context call; when the modules throw it makes no context call and the state is unchanged |
| Lifecycle.UninstallCallsReversed | flink-runtime/src/main/java/org/apache/flink/runtime/security/SecurityUtils.java:127-138 | the uninstall calls visit every recorded module exactly once, in reverse order |
| Lifecycle.RecordedInstalledInvariant | flink-runtime/src/main/java/org/apache/flink/runtime/security/SecurityUtils.java:50-143 | a recorded module list holds only modules whose install returned normally: true when the class is loaded, kept by install for every registry and configuration, and by uninstall |
| Lifecycle.UninstallTwice | flink-runtime/src/main/java/org/apache/flink/runtime/security/SecurityUtils.java:125-143 | uninstall returns both fields to their initial values; a second uninstall in a row makes no module call and changes nothing |
| Lifecycle.InstallThenUninstall | flink-runtime/src/main/java/org/apache/flink/runtime/security/SecurityUtils.java:125-143 | after a successful install, uninstall calls uninstall on exactly the created modules, last first, and restores the initial state |
| Lifecycle.FailedInstallKeepsEarlierModules | flink-runtime/src/main/java/org/apache/flink/runtime/security/SecurityUtils.java:86-93 | when a module throws part-way, the earlier modules were installed but not recorded: the state is unchanged and a following uninstall tears down only what was recorded before |

## Left out

- Logging (`LOG.error`, `warn`, `debug`) is left out because it has no effect on the two fields.
- `SecurityFactoryServiceLoader` discovers factories through the service loader and reflection. It is not part of this model. The registry is a map from identifier to factory, and an absent key stands for `NoMatchSecurityFactoryException`.
- What concrete modules and contexts do (Kerberos, Hadoop and JAAS login, delegation tokens) is left out. They are opaque values with fixed answers.
- Each collaborator's answer is fixed per identifier. So a factory that is listed twice answers the same way both times.
- `new NoOpSecurityContext()` is modelled as one value, so two no-op contexts are indistinguishable. Object identity is not modelled.
- Some unchecked exceptions are not modelled:
  - from `createModule`, and from `isCompatibleWith` (except `NoMatchSecurityFactoryException`, which the catch at line 115 would turn into a skip of that factory);
  - any exception other than `NoMatchSecurityFactoryException` from the lookups;
  - a `LinkageError` raised outside `createContext`;
  - any exception from `createContext` other than `SecurityContextInitializeException`, `LinkageError` and `NoMatchSecurityFactoryException`. Such an exception would leave `installContext` and `install` with the context unchanged. A `NoMatchSecurityFactoryException` from `createContext` would be caught at line 115, and the factory would be skipped like a lookup miss;
  - any exception from a module's `uninstall()` other than `UnsupportedOperationException` and `SecurityInstallException`. Such an exception would leave `uninstall` part-way: the lower-index modules would be skipped, the module list would stay recorded and the context would not be reset.
- The static fields are unsynchronised, but the model assumes single-threaded use.
- `GetInstalledModules`: `getInstalledModules` returns the live `ArrayList`, so a caller could change what `uninstall` later tears down. The model returns the list as a value, so this aliasing is not captured, and `RecordedInstalledInvariant` holds only on the assumption that no caller changes the returned list.
- The installer does not depend on the contents of `SecurityConfiguration` beyond the two identifier lists. The rest of the configuration reaches the collaborators only through their fixed answers.
- `ChildFirstClassLoader`, `StreamPlanEnvironment` and `OptimizerPlanEnvironment` are not part of this model. They are class-loading and environment glue outside the installer.
