/**
 * The entities the process-wide security installer works with: the
 * configuration it is given, the factory registry it consults, the modules and
 * contexts the factories produce, the calls it makes on them, and the errors it
 * raises. Every external collaborator is an oracle whose answer is fixed in
 * these values, so the installer's behaviour is a function of them.
 */
module SecurityTypes {

  datatype Option<+T> = None | Some(value: T)

  /** What `SecurityModule.install()` does when the installer calls it. */
  datatype InstallBehaviour = InstallSucceeds | InstallThrows

  /** What `SecurityModule.uninstall()` does when the installer calls it. */
  datatype UninstallBehaviour =
    | UninstallSucceeds
    | UninstallUnsupported   // throws UnsupportedOperationException
    | UninstallThrows        // throws SecurityInstallException

  /** An installed security module (Hadoop, JAAS, ZooKeeper, ...), opaque apart from its lifecycle answers. */
  datatype Module = Module(name: string, onInstall: InstallBehaviour, onUninstall: UninstallBehaviour)

  /** A security context: the built-in no-op one, or one made by a context factory. */
  datatype Context = NoOpContext | FactoryContext(name: string)

  /** A module factory: `createModule(config)` gives a module, or null when the module does not apply here. */
  datatype ModuleFactory = ModuleFactory(createModule: Option<Module>)

  /** What `createContext(config)` does: returns a context (possibly null) or throws one of the two caught errors. */
  datatype CreateContextBehaviour =
    | Created(context: Option<Context>)
    | InitializeFailure      // throws SecurityContextInitializeException
    | LinkageFailure         // throws LinkageError

  /** A context factory: its `isCompatibleWith(config)` answer and its `createContext(config)` behaviour. */
  datatype ContextFactory = ContextFactory(compatible: bool, createContext: CreateContextBehaviour)

  /**
   * The factory registry behind `findModuleFactory` and `findContextFactory`:
   * an identifier that is not a key throws NoMatchSecurityFactoryException.
   */
  datatype Registry = Registry(
    moduleFactories: map<string, ModuleFactory>,
    contextFactories: map<string, ContextFactory>)

  /** The two ordered identifier lists of a security configuration. */
  datatype SecurityConfiguration = SecurityConfiguration(
    moduleFactoryIds: seq<string>,
    contextFactoryIds: seq<string>)

  /** One call the installer makes on a collaborator, in the order it makes them. */
  datatype Call =
    | FindModuleFactory(id: string)
    | CreateModule(id: string)
    | InstallModule(target: Module)
    | FindContextFactory(id: string)
    | CheckCompatible(id: string)
    | CreateContext(id: string)
    | UninstallModule(recorded: Module)
  {
    predicate IsModuleInstallCall() {
      FindModuleFactory? || CreateModule? || InstallModule?
    }

    predicate IsContextCall() {
      FindContextFactory? || CheckCompatible? || CreateContext?
    }

    /** The factory identifier the call is made for; calls on a module name none. */
    function FactoryId(): Option<string> {
      if InstallModule? || UninstallModule? then None else Some(id)
    }
  }

  /** The exceptions that leave `install`. */
  datatype SecurityError =
    | NoModuleFactory(id: string)         // IllegalArgumentException("Unable to find module factory class")
    | ModuleInstallFailed(id: string)     // the exception thrown by a module's install()
    | NoValidContext                      // Exception("Unable to install a valid security context factory!")

  datatype Outcome = Pass | Fail(error: SecurityError)

  /**
   * The two static fields: `installedContext` (None models null) and
   * `installedModules` (None models null).
   */
  datatype State = State(context: Option<Context>, modules: Option<seq<Module>>)

  /** What one entry point does: its outcome, the state it leaves, the calls it makes. */
  datatype Transition = Transition(result: Outcome, post: State, calls: seq<Call>)

  /** The values of the two static fields when the class is loaded. */
  function InitialState(): State {
    State(Some(NoOpContext), None)
  }
}
