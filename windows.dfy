/**
  * `WindowManager`: brings an application's existing window to the front,
  * or resolves a launch path (`finduwp:`, `path:`, `ms-` or a plain file)
  * and starts it.
  */
module Windows {
  import opened Wrappers
  import opened Text
  import opened Host
  import opened UwpApps

  // ---------------------------------------------------------------------------
  // Window selection

  /** A window the search accepts: a non-zero handle, in the first pass also a visible one. */
  predicate Candidate(p: ProcessWindow, visibleOnly: bool) {
    p.mainWindow != 0 && (!visibleOnly || p.visible)
  }

  /** The index of the first accepted window, in enumeration order. */
  function FirstCandidate(processes: seq<ProcessWindow>, visibleOnly: bool): (r: Option<nat>)
    ensures r.Some? ==> r.value < |processes| && Candidate(processes[r.value], visibleOnly)
    ensures r.Some? ==> forall j :: 0 <= j < r.value ==> !Candidate(processes[j], visibleOnly)
    ensures r.None? ==> forall j :: 0 <= j < |processes| ==> !Candidate(processes[j], visibleOnly)
  {
    if processes == [] then None
    else if Candidate(processes[0], visibleOnly) then Some(0)
    else
      match FirstCandidate(processes[1..], visibleOnly)
      case None => None
      case Some(k) => Some(k + 1)
  }

  /**
    * The window `TryActivateWindow` brings forward: the first visible one,
    * otherwise the first non-zero one; 0 when every handle is zero.
    */
  function ChooseWindow(processes: seq<ProcessWindow>): (window: Handle)
    ensures window != 0 ==>
              exists k :: 0 <= k < |processes| && processes[k].mainWindow == window
                          && (processes[k].visible || forall j :: 0 <= j < |processes| ==> !Candidate(processes[j], true))
  {
    match FirstCandidate(processes, true)
    case Some(k) => processes[k].mainWindow
    case None =>
      match FirstCandidate(processes, false)
      case Some(k) => processes[k].mainWindow
      case None => 0
  }

  /** The first visible window wins, whatever comes after it. */
  lemma FirstVisibleWins(processes: seq<ProcessWindow>, i: nat)
    requires i < |processes| && Candidate(processes[i], true)
    requires forall j :: 0 <= j < i ==> !Candidate(processes[j], true)
    ensures ChooseWindow(processes) == processes[i].mainWindow
  {
  }

  /** With no visible window, the first non-zero handle is chosen. */
  lemma FirstNonZeroOtherwise(processes: seq<ProcessWindow>, i: nat)
    requires forall j :: 0 <= j < |processes| ==> !Candidate(processes[j], true)
    requires i < |processes| && processes[i].mainWindow != 0
    requires forall j :: 0 <= j < i ==> processes[j].mainWindow == 0
    ensures ChooseWindow(processes) == processes[i].mainWindow
  {
  }

  /** No window is chosen exactly when every main window handle is zero (in particular when there is no process). */
  lemma NothingToActivate(processes: seq<ProcessWindow>)
    ensures ChooseWindow(processes) == 0 <==> forall j :: 0 <= j < |processes| ==> processes[j].mainWindow == 0
  {
    var r := FirstCandidate(processes, true);
    if r.Some? {
      assert Candidate(processes[r.value], true);
    } else {
      var q := FirstCandidate(processes, false);
      if q.None? {
        forall j | 0 <= j < |processes| ensures processes[j].mainWindow == 0 {
          assert !Candidate(processes[j], false);
        }
      }
    }
  }

  /**
    * Looks up the processes called `processName` and activates the best
    * window among them; true exactly when a window was activated.
    */
  method TryActivateWindow(os: Os, processName: string) returns (activated: bool)
    modifies os`trace
    ensures activated <==> ChooseWindow(os.processes(processName)) != 0
    ensures os.trace == old(os.trace) + (if activated then [Activate(ChooseWindow(os.processes(processName)))] else [])
  {
    var processes := os.processes(processName);
    if |processes| == 0 {
      return false;
    }
    var targetWindow: Handle := 0;
    for i := 0 to |processes|
      invariant targetWindow == 0
      invariant forall j :: 0 <= j < i ==> !Candidate(processes[j], true)
    {
      if processes[i].mainWindow != 0 && processes[i].visible {
        targetWindow := processes[i].mainWindow;
        FirstVisibleWins(processes, i);
        break;
      }
    }
    if targetWindow == 0 {
      for i := 0 to |processes|
        invariant targetWindow == 0
        invariant forall j :: 0 <= j < i ==> processes[j].mainWindow == 0
      {
        if processes[i].mainWindow != 0 {
          targetWindow := processes[i].mainWindow;
          FirstNonZeroOtherwise(processes, i);
          break;
        }
      }
      if targetWindow == 0 {
        NothingToActivate(processes);
      }
    }
    if targetWindow == 0 {
      return false;
    }
    os.ActivateWindow(targetWindow);
    return true;
  }

  // ---------------------------------------------------------------------------
  // Launch-path resolution

  const FindUwpPrefix := "finduwp:"
  const PathPrefix := "path:"
  const ProtocolPrefix := "ms-"
  const ExeSuffix := ".exe"

  /** The package search term of a `finduwp:` path: the rest of it, trimmed. */
  function SearchTerm(path: string): (term: string)
    requires StartsWithIgnoreCase(path, FindUwpPrefix)
  {
    Trim(path[|FindUwpPrefix|..])
  }

  /** `name`, with `.exe` appended unless it already ends in `.exe` in any casing. */
  function WithExe(name: string): (r: string)
    ensures EndsWithIgnoreCase(r, ExeSuffix)
    ensures |name| <= |r| && r[..|name|] == name
    ensures EndsWithIgnoreCase(name, ExeSuffix) ==> r == name
  {
    if EndsWithIgnoreCase(name, ExeSuffix) then name
    else
      assert (name + ExeSuffix)[|name + ExeSuffix| - |ExeSuffix|..] == ExeSuffix;
      name + ExeSuffix
  }

  /** The file name a `path:` path asks for. */
  function ExeName(path: string): (name: string)
    requires StartsWithIgnoreCase(path, PathPrefix)
    ensures EndsWithIgnoreCase(name, ExeSuffix)
  {
    WithExe(Trim(path[|PathPrefix|..]))
  }

  predicate IsDirectorySeparator(c: char) {
    c == '\\' || c == '/'
  }

  /** `Path.IsPathRooted` on Windows: a leading separator or a drive letter and colon. */
  predicate IsPathRooted(path: string) {
    (|path| >= 1 && IsDirectorySeparator(path[0]))
    || (|path| >= 2 && (('A' <= path[0] <= 'Z') || ('a' <= path[0] <= 'z')) && path[1] == ':')
  }

  /** `Path.Combine(first, second)`: the file name always ends the result. */
  function Combine(first: string, second: string): (full: string)
    ensures |second| <= |full| && full[|full| - |second|..] == second
  {
    if first == [] then second
    else if second == [] then first
    else if IsPathRooted(second) then second
    else if IsDirectorySeparator(first[|first| - 1]) || IsDirectorySeparator(second[0]) then first + second
    else first + "\\" + second
  }

  /** A `PATH` entry holds the file: it is not blank and the combined path exists. */
  predicate Holds(dir: string, name: string, files: set<string>) {
    !IsBlank(dir) && Combine(Trim(dir), name) in files
  }

  /** The combined path in the first `PATH` entry, in listed order, that holds `name`. */
  function SearchPath(dirs: seq<string>, name: string, files: set<string>): (found: Option<string>)
    ensures found.Some? <==> exists k :: 0 <= k < |dirs| && Holds(dirs[k], name, files)
    ensures found.Some? ==> found.value in files
  {
    if dirs == [] then None
    else if Holds(dirs[0], name, files) then Some(Combine(Trim(dirs[0]), name))
    else
      var rest := SearchPath(dirs[1..], name, files);
      assert forall k :: 1 <= k < |dirs| ==> dirs[k] == dirs[1..][k - 1];
      rest
  }

  /** Entries before the first that holds the file do not matter, and later ones are never consulted. */
  lemma {:induction false} SearchPathFirst(dirs: seq<string>, name: string, files: set<string>, k: nat)
    requires k < |dirs| && Holds(dirs[k], name, files)
    requires forall j :: 0 <= j < k ==> !Holds(dirs[j], name, files)
    ensures SearchPath(dirs, name, files) == Some(Combine(Trim(dirs[k]), name))
    decreases k
  {
    if k > 0 {
      SearchPathFirst(dirs[1..], name, files, k - 1);
    }
  }

  /** What `LaunchApplication` ends up doing: start exactly one target, or warn and start nothing. */
  datatype Decision = Start(target: string) | Refuse(warning: Warning)

  /** The last two rules: an `ms-` protocol is started unchecked, any other path only when the file exists. */
  function Direct(path: string, files: set<string>): (d: Decision)
    ensures d.Start? ==> d.target == path && (StartsWithIgnoreCase(path, ProtocolPrefix) || path in files)
    ensures d.Refuse? ==> d.warning == ApplicationNotFound(path) && path !in files
  {
    if StartsWithIgnoreCase(path, ProtocolPrefix) then Start(path)
    else if path in files then Start(path)
    else Refuse(ApplicationNotFound(path))
  }

  /** The dispatch after the package lookup: `path:` search on `PATH`, then the two last rules. */
  function Resolve(path: string, pathVariable: Option<string>, files: set<string>): (d: Decision)
    ensures d.Start? ==> StartsWithIgnoreCase(d.target, ProtocolPrefix) || d.target in files
    ensures !StartsWithIgnoreCase(path, PathPrefix) ==> d == Direct(path, files)
    ensures d.Refuse? ==> d.warning.NotFoundInPath? || d.warning.ApplicationNotFound?
  {
    if StartsWithIgnoreCase(path, PathPrefix) then
      var appName := ExeName(path);
      var found := if pathVariable.Some? then SearchPath(Split(pathVariable.value, ';'), appName, files) else None;
      var resolved := if found.Some? then found.value else path;
      if StartsWithIgnoreCase(resolved, PathPrefix) then Refuse(NotFoundInPath(appName))
      else Direct(resolved, files)
    else Direct(path, files)
  }

  /**
    * The whole dispatch, given the package lookup's answer `lookup` (only
    * consulted for a `finduwp:` path): an unresolved package is refused, a
    * resolved one goes through the same rules as any other path.
    */
  function Plan(path: string, lookup: Option<string>, pathVariable: Option<string>, files: set<string>): (d: Decision)
    ensures d.Start? ==> StartsWithIgnoreCase(d.target, ProtocolPrefix) || d.target in files
    ensures d.Refuse? && d.warning.UwpAppNotFound? ==> StartsWithIgnoreCase(path, FindUwpPrefix) && lookup.None?
  {
    if StartsWithIgnoreCase(path, FindUwpPrefix) then
      match lookup
      case None => Refuse(UwpAppNotFound(SearchTerm(path)))
      case Some(resolved) => Resolve(resolved, pathVariable, files)
    else Resolve(path, pathVariable, files)
  }

  /** `events` carry out `d`: a warning, or a start that either succeeds or throws and is reported. */
  predicate Performs(d: Decision, events: seq<Event>) {
    match d
    case Refuse(w) => events == [Warn(w)]
    case Start(t) => events == [Launch(t, true)] || events == [Launch(t, false), Warn(LaunchFailed(t))]
  }

  /** The targets of the process starts among `events`, in order. */
  function Launches(events: seq<Event>): (targets: seq<string>)
    ensures |targets| <= |events|
  {
    if events == [] then []
    else (if events[0].Launch? then [events[0].target] else []) + Launches(events[1..])
  }

  /**
    * `events` are what one `LaunchApplication(path)` call did: for `finduwp:`,
    * the package lookup (which moved the cache from `cache` to `cache'`)
    * followed by the dispatch of its answer; otherwise the dispatch alone.
    */
  ghost predicate LaunchEffect(path: string, cache: map<string, string>, cache': map<string, string>,
                               events: seq<Event>, pathVariable: Option<string>, files: set<string>)
  {
    if StartsWithIgnoreCase(path, FindUwpPrefix) then
      var term := SearchTerm(path);
      var m := QueriesNeeded(cache, term);
      m <= |events| && LookupEffect(cache, term, events[..m], cache')
      && Performs(Plan(path, Cached(cache', term), pathVariable, files), events[m..])
    else
      cache' == cache && Performs(Plan(path, None, pathVariable, files), events)
  }

  // ---------------------------------------------------------------------------
  // Properties of the dispatch

  /** A case-insensitive prefix fixes the first letter up to case. */
  lemma StartsWithHead(s: string, prefix: string)
    requires |prefix| > 0
    ensures StartsWithIgnoreCase(s, prefix) ==> UpperChar(s[0]) == UpperChar(prefix[0])
  {
    if StartsWithIgnoreCase(s, prefix) {
      assert Upper(s[..|prefix|])[0] == Upper(prefix)[0];
    }
  }

  lemma ProtocolIsNotPath(path: string)
    ensures !(StartsWithIgnoreCase(path, ProtocolPrefix) && StartsWithIgnoreCase(path, PathPrefix))
  {
    StartsWithHead(path, ProtocolPrefix);
    StartsWithHead(path, PathPrefix);
  }

  /** An `ms-` protocol, in any casing, is started without an existence check. */
  lemma ProtocolUnchecked(path: string, pathVariable: Option<string>, files: set<string>)
    requires StartsWithIgnoreCase(path, ProtocolPrefix)
    ensures Resolve(path, pathVariable, files) == Start(path)
  {
    ProtocolIsNotPath(path);
  }

  /** A plain path is started exactly when the file exists, and otherwise reported as missing. */
  lemma PlainPathNeedsFile(path: string, pathVariable: Option<string>, files: set<string>)
    requires !StartsWithIgnoreCase(path, FindUwpPrefix) && !StartsWithIgnoreCase(path, PathPrefix)
    requires !StartsWithIgnoreCase(path, ProtocolPrefix)
    ensures Plan(path, None, pathVariable, files) == Start(path) <==> path in files
    ensures path !in files ==> Plan(path, None, pathVariable, files) == Refuse(ApplicationNotFound(path))
  {
  }

  /** Nothing but an `ms-` protocol or an existing file is ever started. */
  lemma StartedTargetsExist(path: string, lookup: Option<string>, pathVariable: Option<string>, files: set<string>)
    requires Plan(path, lookup, pathVariable, files).Start?
    ensures var t := Plan(path, lookup, pathVariable, files).target;
            StartsWithIgnoreCase(t, ProtocolPrefix) || t in files
  {
  }

  /** Combining a directory with a name keeps the name's ending. */
  lemma CombineKeepsSuffix(first: string, second: string, suffix: string)
    requires EndsWithIgnoreCase(second, suffix)
    ensures EndsWithIgnoreCase(Combine(first, second), suffix)
  {
    var full := Combine(first, second);
    assert full[|full| - |suffix|..] == second[|second| - |suffix|..];
  }

  lemma ResolveFound(path: string, dirs: string, files: set<string>, full: string)
    requires StartsWithIgnoreCase(path, PathPrefix)
    requires SearchPath(Split(dirs, ';'), ExeName(path), files) == Some(full)
    requires !StartsWithIgnoreCase(full, PathPrefix)
    ensures Resolve(path, Some(dirs), files) == Start(full)
  {
  }

  /** A `path:` target is the first `PATH` entry holding the `.exe` name, and it does end in `.exe`. */
  lemma PathSearchStartsFirstHit(path: string, dirs: string, files: set<string>, k: nat)
    requires StartsWithIgnoreCase(path, PathPrefix)
    requires k < |Split(dirs, ';')| && Holds(Split(dirs, ';')[k], ExeName(path), files)
    requires forall j :: 0 <= j < k ==> !Holds(Split(dirs, ';')[j], ExeName(path), files)
    requires !StartsWithIgnoreCase(Combine(Trim(Split(dirs, ';')[k]), ExeName(path)), PathPrefix)
    ensures Resolve(path, Some(dirs), files) == Start(Combine(Trim(Split(dirs, ';')[k]), ExeName(path)))
    ensures EndsWithIgnoreCase(Resolve(path, Some(dirs), files).target, ExeSuffix)
  {
    var entries := Split(dirs, ';');
    var name := ExeName(path);
    var full := Combine(Trim(entries[k]), name);
    SearchPathFirst(entries, name, files, k);
    ResolveFound(path, dirs, files, full);
    CombineKeepsSuffix(Trim(entries[k]), name, ExeSuffix);
  }

  /** A `path:` name no `PATH` entry holds, or no `PATH` at all, is reported and nothing starts. */
  lemma PathSearchMiss(path: string, pathVariable: Option<string>, files: set<string>)
    requires StartsWithIgnoreCase(path, PathPrefix)
    requires pathVariable.Some? ==>
               forall k :: 0 <= k < |Split(pathVariable.value, ';')| ==> !Holds(Split(pathVariable.value, ';')[k], ExeName(path), files)
    ensures Resolve(path, pathVariable, files) == Refuse(NotFoundInPath(ExeName(path)))
  {
  }

  /** An unresolved package starts nothing; a resolved one is dispatched like any other path. */
  lemma PackagePathFallsThrough(path: string, lookup: Option<string>, pathVariable: Option<string>, files: set<string>)
    requires StartsWithIgnoreCase(path, FindUwpPrefix)
    ensures lookup.None? ==> Plan(path, lookup, pathVariable, files) == Refuse(UwpAppNotFound(SearchTerm(path)))
    ensures lookup.Some? ==> Plan(path, lookup, pathVariable, files) == Resolve(lookup.value, pathVariable, files)
  {
  }

  lemma {:induction false} LaunchesAppend(a: seq<Event>, b: seq<Event>)
    ensures Launches(a + b) == Launches(a) + Launches(b)
    decreases |a|
  {
    if a != [] {
      assert (a + b)[1..] == a[1..] + b;
      LaunchesAppend(a[1..], b);
    } else {
      assert a + b == b;
    }
  }

  /** A call starts at most one process, and only the planned target. */
  lemma AtMostOneLaunch(path: string, cache: map<string, string>, cache': map<string, string>,
                        events: seq<Event>, pathVariable: Option<string>, files: set<string>)
    requires LaunchEffect(path, cache, cache', events, pathVariable, files)
    ensures |Launches(events)| <= 1
    ensures forall k :: 0 <= k < |Launches(events)| ==>
              StartsWithIgnoreCase(Launches(events)[k], ProtocolPrefix) || Launches(events)[k] in files
  {
    if StartsWithIgnoreCase(path, FindUwpPrefix) {
      var term := SearchTerm(path);
      var m := QueriesNeeded(cache, term);
      assert events == events[..m] + events[m..];
      LaunchesAppend(events[..m], events[m..]);
      if m == 1 {
        assert events[..m] == [events[0]] && Launches(events[..m]) == [];
      }
      PlanLaunches(Plan(path, Cached(cache', term), pathVariable, files), events[m..]);
      if Plan(path, Cached(cache', term), pathVariable, files).Start? {
        StartedTargetsExist(path, Cached(cache', term), pathVariable, files);
      }
    } else {
      PlanLaunches(Plan(path, None, pathVariable, files), events);
      if Plan(path, None, pathVariable, files).Start? {
        StartedTargetsExist(path, None, pathVariable, files);
      }
    }
  }

  /** Carrying out a decision starts its target once, or nothing when it refuses. */
  lemma PlanLaunches(d: Decision, events: seq<Event>)
    requires Performs(d, events)
    ensures Launches(events) == if d.Start? then [d.target] else []
  {
    if d.Start? && |events| == 2 {
      assert events[1..] == [events[1]];
    }
  }

  // ---------------------------------------------------------------------------
  // LaunchApplication

  /** The `PATH` search: the combined path in the first non-blank entry where that file exists. */
  method SearchPathVariable(os: Os, appName: string) returns (found: Option<string>)
    ensures found == if os.pathVariable.Some? then SearchPath(Split(os.pathVariable.value, ';'), appName, os.files) else None
  {
    found := None;
    if os.pathVariable.None? {
      return;
    }
    var paths := Split(os.pathVariable.value, ';');
    for i := 0 to |paths|
      invariant found == None
      invariant SearchPath(paths, appName, os.files) == SearchPath(paths[i..], appName, os.files)
    {
      assert paths[i..][0] == paths[i] && paths[i..][1..] == paths[i + 1..];
      if IsBlank(paths[i]) {
        continue;
      }
      var fullPath := Combine(Trim(paths[i]), appName);
      if fullPath in os.files {
        found := Some(fullPath);
        break;
      }
    }
  }

  /** Starts `target`, reporting the exception if it throws. */
  method StartTarget(os: Os, target: string) returns (ghost events: seq<Event>)
    modifies os`trace
    ensures os.trace == old(os.trace) + events && Performs(Start(target), events)
  {
    var ok := os.StartProcess(target);
    events := [Launch(target, ok)];
    if !ok {
      os.ShowWarning(LaunchFailed(target));
      events := events + [Warn(LaunchFailed(target))];
    }
  }

  /** Shows `warning`. */
  method ShowRefusal(os: Os, warning: Warning) returns (ghost events: seq<Event>)
    modifies os`trace
    ensures os.trace == old(os.trace) + events && Performs(Refuse(warning), events)
  {
    os.ShowWarning(warning);
    events := [Warn(warning)];
  }

  /** Everything after the package lookup: the `path:`, `ms-` and existence rules. */
  method LaunchResolved(os: Os, path: string) returns (ghost events: seq<Event>)
    modifies os`trace
    ensures os.trace == old(os.trace) + events
    ensures Performs(Resolve(path, os.pathVariable, os.files), events)
  {
    var target := path;
    if StartsWithIgnoreCase(target, PathPrefix) {
      var appName := ExeName(target);
      var found := SearchPathVariable(os, appName);
      if found.Some? {
        target := found.value;
      }
      if StartsWithIgnoreCase(target, PathPrefix) {
        events := ShowRefusal(os, NotFoundInPath(appName));
        return;
      }
    }
    if StartsWithIgnoreCase(target, ProtocolPrefix) {
      events := StartTarget(os, target);
      return;
    }
    if target !in os.files {
      events := ShowRefusal(os, ApplicationNotFound(target));
      return;
    }
    events := StartTarget(os, target);
  }

  /**
    * Resolves `path` and starts what it names, or shows why it cannot; an
    * exception while starting is reported, never passed on.
    */
  method LaunchApplication(os: Os, finder: UwpAppFinder, path: string) returns (ghost events: seq<Event>)
    requires finder.os == os && finder.Valid()
    modifies finder, os`trace
    ensures finder.Valid()
    ensures os.trace == old(os.trace) + events
    ensures LaunchEffect(path, old(finder.cache), finder.cache, events, os.pathVariable, os.files)
  {
    if StartsWithIgnoreCase(path, FindUwpPrefix) {
      var searchTerm := SearchTerm(path);
      var resolvedPath, queries := finder.FindUwpApp(searchTerm);
      ghost var rest;
      if resolvedPath.None? {
        rest := ShowRefusal(os, UwpAppNotFound(searchTerm));
      } else {
        rest := LaunchResolved(os, resolvedPath.value);
      }
      events := queries + rest;
      assert events[..|queries|] == queries && events[|queries|..] == rest;
      return;
    }
    events := LaunchResolved(os, path);
  }
}
