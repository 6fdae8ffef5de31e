/**
  * The operating system and environment as the core sees them.
  *
  * Every Win32 or .NET call the core makes is a method or field of `Os`. The
  * calls whose answers the core cannot predict (binding a hotkey, running the
  * package query, starting a process) are nondeterministic, and each effect
  * is appended to `trace`, so callers can state which effects happened, in
  * which order and with which arguments.
  */
module Host {
  import opened Wrappers

  /** An `IntPtr` window handle; 0 is `IntPtr.Zero`. */
  type Handle = int

  /** One process returned by `Process.GetProcessesByName`: its main window handle and whether that window is visible. */
  datatype ProcessWindow = ProcessWindow(mainWindow: Handle, visible: bool)

  /** What running the package-query script gave back. */
  datatype QueryOutcome =
    | NoProcess                                   // `Process.Start` returned null
    | Faulted                                     // an exception was raised and caught
    | Exited(exitCode: int, output: string)       // raw standard output

  /** Each distinct message box the core can show. */
  datatype Warning =
    | UwpAppNotFound(searchTerm: string)
    | NotFoundInPath(appName: string)
    | ApplicationNotFound(path: string)
    | LaunchFailed(target: string)
    | HotkeyNotRegistered(hotkey: string)
    | DefaultConfigCreated
    | InvalidConfigJson
    | ConfigLoadError
    | NoShortcutsDefined

  /** An observable effect on the outside world. */
  datatype Event =
    | Bind(id: int, modifiers: bv32, keyCode: nat, ok: bool)  // `RegisterHotKey` and its answer
    | Unbind(id: int)                                        // `UnregisterHotKey`
    | Activate(window: Handle)                               // the whole `ActivateWindow` sequence
    | PackageQuery(term: string, outcome: QueryOutcome)      // one run of the PowerShell lookup
    | Launch(target: string, ok: bool)                       // `Process.Start` with shell execute; !ok: it threw
    | Warn(warning: Warning)                                 // `MessageBox.Show`

  class Os {
    /** Everything the core has done to the outside world, oldest first. */
    var trace: seq<Event>
    /** The hotkey ids currently bound to the application's message window. */
    var bound: set<int>

    /** `Process.GetProcessesByName`, one snapshot per name. */
    var processes: string -> seq<ProcessWindow>
    /** The paths for which `File.Exists` holds. */
    var files: set<string>
    /** `Environment.GetEnvironmentVariable("PATH")`. */
    var pathVariable: Option<string>
    /** `Environment.ExpandEnvironmentVariables`. */
    var expand: string -> string

    constructor (processes: string -> seq<ProcessWindow>, files: set<string>,
                 pathVariable: Option<string>, expand: string -> string)
      ensures trace == [] && bound == {}
      ensures this.processes == processes && this.files == files
      ensures this.pathVariable == pathVariable && this.expand == expand
    {
      trace, bound := [], {};
      this.processes, this.files := processes, files;
      this.pathVariable, this.expand := pathVariable, expand;
    }

    /** `RegisterHotKey`: the system may refuse, e.g. when another application owns the combination. */
    method RegisterHotKey(id: int, modifiers: bv32, keyCode: nat) returns (ok: bool)
      modifies this`trace, this`bound
      ensures trace == old(trace) + [Bind(id, modifiers, keyCode, ok)]
      ensures bound == if ok then old(bound) + {id} else old(bound)
    {
      ok :| true;
      trace := trace + [Bind(id, modifiers, keyCode, ok)];
      if ok {
        bound := bound + {id};
      }
    }

    /** `UnregisterHotKey`. */
    method UnregisterHotKey(id: int)
      modifies this`trace, this`bound
      ensures trace == old(trace) + [Unbind(id)]
      ensures bound == old(bound) - {id}
    {
      trace := trace + [Unbind(id)];
      bound := bound - {id};
    }

    /** Restore, attach to the foreground thread and bring `window` to the front. */
    method ActivateWindow(window: Handle)
      modifies this`trace
      ensures trace == old(trace) + [Activate(window)]
    {
      trace := trace + [Activate(window)];
    }

    /** Run the package-query script for `term` and collect its output. */
    method RunPackageQuery(term: string) returns (outcome: QueryOutcome)
      modifies this`trace
      ensures trace == old(trace) + [PackageQuery(term, outcome)]
    {
      outcome :| true;
      trace := trace + [PackageQuery(term, outcome)];
    }

    /** `Process.Start` with `UseShellExecute`; `ok` is false when it threw. */
    method StartProcess(target: string) returns (ok: bool)
      modifies this`trace
      ensures trace == old(trace) + [Launch(target, ok)]
    {
      ok :| true;
      trace := trace + [Launch(target, ok)];
    }

    /** `MessageBox.Show`. */
    method ShowWarning(warning: Warning)
      modifies this`trace
      ensures trace == old(trace) + [Warn(warning)]
    {
      trace := trace + [Warn(warning)];
    }
  }
}
