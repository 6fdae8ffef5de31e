/**
  * `Program`: the tray application's lifetime. It loads the shortcut list,
  * binds one hotkey per shortcut (the id is the shortcut's index), answers
  * each hotkey press by activating or launching the shortcut's application,
  * rebinds everything on reload and releases every binding on exit.
  */
module App {
  import opened Wrappers
  import opened Host
  import opened HotkeyParsing
  import opened Hotkeys
  import opened UwpApps
  import opened Windows

  /** One entry of the configuration file (`ShortcutConfig`). */
  datatype Shortcut = Shortcut(hotkey: string, processName: string, launchPath: string)

  /** What reading the configuration file found. */
  datatype ConfigFile =
    | Missing                                   // no file: a default one is written
    | Malformed                                 // the JSON could not be parsed
    | Unreadable                                // reading or deserialising failed in another way
    | Parsed(shortcuts: Option<seq<Shortcut>>)  // None: the document or its list is `null`

  /** An event delivered by the message loop. */
  datatype UiEvent = HotkeyPressed(id: int) | ReloadRequested(file: ConfigFile)

  // ---------------------------------------------------------------------------
  // Loading the configuration

  /** The warning loading `file` shows, if any. */
  function LoadWarning(file: ConfigFile): (w: Option<Warning>)
    ensures w.None? <==> file.Parsed? && file.shortcuts.GetOr([]) != []
  {
    match file
    case Missing => Some(DefaultConfigCreated)
    case Malformed => Some(InvalidConfigJson)
    case Unreadable => Some(ConfigLoadError)
    case Parsed(list) => if list.GetOr([]) == [] then Some(NoShortcutsDefined) else None
  }

  /** The shortcut list after loading `file`: replaced when the file was deserialised, kept otherwise. */
  function LoadedShortcuts(file: ConfigFile, previous: Option<seq<Shortcut>>): (loaded: Option<seq<Shortcut>>)
    ensures !file.Parsed? ==> loaded == previous
    ensures file.Parsed? ==> loaded.Some? && (loaded.value == [] <==> LoadWarning(file) == Some(NoShortcutsDefined))
  {
    if file.Parsed? then Some(file.shortcuts.GetOr([])) else previous
  }

  /** A successful load always leaves a non-empty list; a failed one may leave the old or an empty list. */
  lemma LoadedListIsUsable(file: ConfigFile, previous: Option<seq<Shortcut>>)
    ensures LoadWarning(file).None? ==> LoadedShortcuts(file, previous).Some? && LoadedShortcuts(file, previous).value != []
    ensures !file.Parsed? ==> LoadedShortcuts(file, previous) == previous
    ensures file.Parsed? && LoadWarning(file).Some? ==> LoadedShortcuts(file, previous) == Some([])
  {
  }

  // ---------------------------------------------------------------------------
  // Registering every shortcut

  /**
    * What registering shortcut `id` does, its hotkey having parsed to
    * `parsed`: a bind attempt when it parsed, and a warning when registration
    * failed.
    */
  function Attempt(id: nat, hotkey: string, parsed: Option<Hotkey>, ok: bool): (events: seq<Event>)
    ensures |events| == (if parsed.Some? then 1 else 0) + (if ok then 0 else 1)
    ensures !ok ==> events[|events| - 1] == Warn(HotkeyNotRegistered(hotkey))
  {
    BindEvents(id, parsed, ok) + (if ok then [] else [Warn(HotkeyNotRegistered(hotkey))])
  }

  /**
    * The events of registering every shortcut in order, `parses[i]` being
    * what the hotkey of shortcut `i` parsed to and `oks[i]` the result of
    * registering it.
    */
  function Registration(shortcuts: seq<Shortcut>, parses: seq<Option<Hotkey>>, oks: seq<bool>): (events: seq<Event>)
    requires |parses| == |oks| == |shortcuts|
    ensures |events| <= 2 * |shortcuts|
    ensures forall e | e in events :: (e.Bind? && 0 <= e.id < |shortcuts|) || e.Warn?
  {
    if shortcuts == [] then []
    else
      var n := |shortcuts| - 1;
      Registration(shortcuts[..n], parses[..n], oks[..n]) + Attempt(n, shortcuts[n].hotkey, parses[n], oks[n])
  }

  /** The indices whose registration succeeded, in order. */
  function Accepted(oks: seq<bool>): (ids: seq<int>)
    ensures |ids| <= |oks|
    ensures forall i :: i in ids <==> 0 <= i < |oks| && oks[i]
  {
    if oks == [] then []
    else
      var n := |oks| - 1;
      Accepted(oks[..n]) + (if oks[n] then [n] else [])
  }

  /** The accepted ids are exactly the indices whose registration succeeded, each once, in increasing order. */
  lemma {:induction false} AcceptedIds(oks: seq<bool>)
    ensures forall id :: id in Accepted(oks) <==> 0 <= id < |oks| && oks[id]
    ensures forall a, b :: 0 <= a < b < |Accepted(oks)| ==> Accepted(oks)[a] < Accepted(oks)[b]
  {
    if oks != [] {
      var n := |oks| - 1;
      AcceptedIds(oks[..n]);
      var prefix := Accepted(oks[..n]);
      var ids := Accepted(oks);
      assert ids == prefix + (if oks[n] then [n] else []);
      forall a, b | 0 <= a < b < |ids| ensures ids[a] < ids[b] {
        if b == |prefix| {
          assert prefix[a] in prefix;
        }
      }
    }
  }

  lemma RegistrationSnoc(shortcuts: seq<Shortcut>, parses: seq<Option<Hotkey>>, oks: seq<bool>,
                         parsed: Option<Hotkey>, ok: bool, i: nat)
    requires i < |shortcuts| && |parses| == |oks| == i
    ensures Registration(shortcuts[..i + 1], parses + [parsed], oks + [ok])
            == Registration(shortcuts[..i], parses, oks) + Attempt(i, shortcuts[i].hotkey, parsed, ok)
  {
    assert shortcuts[..i + 1][..i] == shortcuts[..i] && (parses + [parsed])[..i] == parses && (oks + [ok])[..i] == oks;
  }

  /** What the hotkey of `shortcut` parses to. */
  function ParsedHotkey(shortcut: Shortcut): Option<Hotkey> {
    ParseHotkey(shortcut.hotkey)
  }

  /** `ys` is `f` applied to each element of `xs`, one for one. */
  ghost predicate IsMap<A, B>(f: A -> B, xs: seq<A>, ys: seq<B>) {
    |ys| == |xs| && forall j {:trigger f(xs[j])} :: 0 <= j < |xs| ==> ys[j] == f(xs[j])
  }

  lemma IsMapSnoc<A, B>(f: A -> B, xs: seq<A>, ys: seq<B>, y: B, i: nat)
    requires i < |xs| && IsMap(f, xs[..i], ys) && y == f(xs[i])
    ensures IsMap(f, xs[..i + 1], ys + [y])
  {
    forall j | 0 <= j < i + 1 ensures (ys + [y])[j] == f(xs[..i + 1][j]) {
      if j < i {
        assert xs[..i][j] == xs[..i + 1][j];
      }
    }
  }

  lemma AcceptedSnoc(oks: seq<bool>, ok: bool)
    ensures Accepted(oks + [ok]) == Accepted(oks) + (if ok then [|oks|] else [])
  {
    assert (oks + [ok])[..|oks|] == oks;
  }

  /** A sequence built up to `done` and then extended by `step` ends as if extended by `whole` at once. */
  lemma ExtendBy<T>(prefix: seq<T>, done: seq<T>, step: seq<T>, whole: seq<T>)
    requires whole == done + step
    ensures prefix + done + step == prefix + whole
  {
  }

  /** One more shortcut attempted: the trace, the accepted ids and the parses each grow by its part. */
  lemma RegisterStep(trace0: seq<Event>, ids0: seq<int>, list: seq<Shortcut>, parses: seq<Option<Hotkey>>,
                     oks: seq<bool>, parsed: Option<Hotkey>, ok: bool, i: nat)
    requires i < |list| && |parses| == |oks| == i
    requires IsMap(ParsedHotkey, list[..i], parses) && parsed == ParsedHotkey(list[i])
    ensures trace0 + Registration(list[..i], parses, oks) + Attempt(i, list[i].hotkey, parsed, ok)
            == trace0 + Registration(list[..i + 1], parses + [parsed], oks + [ok])
    ensures ids0 + Accepted(oks) + (if ok then [i] else []) == ids0 + Accepted(oks + [ok])
    ensures IsMap(ParsedHotkey, list[..i + 1], parses + [parsed])
  {
    RegistrationSnoc(list, parses, oks, parsed, ok, i);
    ExtendBy(trace0, Registration(list[..i], parses, oks), Attempt(i, list[i].hotkey, parsed, ok),
             Registration(list[..i + 1], parses + [parsed], oks + [ok]));
    IsMapSnoc(ParsedHotkey, list, parses, parsed, i);
    AcceptedSnoc(oks, ok);
    ExtendBy(ids0, Accepted(oks), if ok then [i] else [], Accepted(oks + [ok]));
  }

  /** The indices whose hotkey parsed, in increasing order. */
  function Parseable(parses: seq<Option<Hotkey>>): (ids: seq<int>)
  {
    if parses == [] then []
    else
      var n := |parses| - 1;
      Parseable(parses[..n]) + (if parses[n].Some? then [n] else [])
  }

  /** The ids of the bind attempts among `events`, in order. */
  function BindIds(events: seq<Event>): (ids: seq<int>)
    ensures |ids| <= |events|
    ensures forall id | id in ids :: exists k :: 0 <= k < |events| && events[k].Bind? && events[k].id == id
  {
    if events == [] then []
    else
      var n := |events| - 1;
      BindIds(events[..n]) + (if events[n].Bind? then [events[n].id] else [])
  }

  /** The number of warnings among `events`. */
  function Warnings(events: seq<Event>): (count: nat)
    ensures count <= |events|
    ensures count == 0 <==> forall k | 0 <= k < |events| :: !events[k].Warn?
  {
    if events == [] then 0
    else
      var n := |events| - 1;
      Warnings(events[..n]) + (if events[n].Warn? then 1 else 0)
  }

  lemma {:induction false} BindIdsAppend(a: seq<Event>, b: seq<Event>)
    ensures BindIds(a + b) == BindIds(a) + BindIds(b)
    decreases |b|
  {
    if b == [] {
      assert a + b == a;
    } else {
      var n := |b| - 1;
      assert (a + b)[..|a + b| - 1] == a + b[..n];
      BindIdsAppend(a, b[..n]);
    }
  }

  lemma {:induction false} WarningsAppend(a: seq<Event>, b: seq<Event>)
    ensures Warnings(a + b) == Warnings(a) + Warnings(b)
    decreases |b|
  {
    if b == [] {
      assert a + b == a;
    } else {
      var n := |b| - 1;
      assert (a + b)[..|a + b| - 1] == a + b[..n];
      WarningsAppend(a, b[..n]);
    }
  }

  /** One shortcut's attempt binds under its own index exactly when its hotkey parsed. */
  lemma AttemptBinds(id: nat, hotkey: string, parsed: Option<Hotkey>, ok: bool)
    ensures BindIds(Attempt(id, hotkey, parsed, ok)) == if parsed.Some? then [id] else []
    ensures Warnings(Attempt(id, hotkey, parsed, ok)) == if ok then 0 else 1
  {
    var b := BindEvents(id, parsed, ok);
    var w: seq<Event> := if ok then [] else [Warn(HotkeyNotRegistered(hotkey))];
    BindIdsAppend(b, w);
    WarningsAppend(b, w);
    if b != [] {
      assert b[0] in b;
      assert b[..0] == [];
    }
    if w != [] {
      assert w[..0] == [];
    }
  }

  /**
    * Every shortcut whose hotkey parses gets a bind attempt, in index order,
    * with its index as id, whatever happened to the shortcuts before it.
    */
  lemma {:induction false} EveryShortcutAttempted(shortcuts: seq<Shortcut>, parses: seq<Option<Hotkey>>, oks: seq<bool>)
    requires |parses| == |oks| == |shortcuts|
    ensures BindIds(Registration(shortcuts, parses, oks)) == Parseable(parses)
  {
    if shortcuts != [] {
      var n := |shortcuts| - 1;
      EveryShortcutAttempted(shortcuts[..n], parses[..n], oks[..n]);
      BindIdsAppend(Registration(shortcuts[..n], parses[..n], oks[..n]), Attempt(n, shortcuts[n].hotkey, parses[n], oks[n]));
      AttemptBinds(n, shortcuts[n].hotkey, parses[n], oks[n]);
    }
  }

  /** Each shortcut that could not be registered causes exactly one warning, and no other warning is shown. */
  lemma {:induction false} OneWarningPerFailure(shortcuts: seq<Shortcut>, parses: seq<Option<Hotkey>>, oks: seq<bool>)
    requires |parses| == |oks| == |shortcuts|
    ensures Warnings(Registration(shortcuts, parses, oks)) == |shortcuts| - |Accepted(oks)|
  {
    if shortcuts != [] {
      var n := |shortcuts| - 1;
      OneWarningPerFailure(shortcuts[..n], parses[..n], oks[..n]);
      WarningsAppend(Registration(shortcuts[..n], parses[..n], oks[..n]), Attempt(n, shortcuts[n].hotkey, parses[n], oks[n]));
      AttemptBinds(n, shortcuts[n].hotkey, parses[n], oks[n]);
    }
  }

  // ---------------------------------------------------------------------------
  // The application

  class Program {
    /** The system. */
    const os: Os
    /** The package lookup and its cache (a static field of `UwpAppFinder`, shared by every launch). */
    const finder: UwpAppFinder
    /** `_shortcuts`: the loaded list, indexed by hotkey id. */
    var shortcuts: Option<seq<Shortcut>>
    /** `_hotkeyManager`: created once the configuration has loaded. */
    var manager: Option<HotkeyManager>

    ghost function Managed(): set<object>
      reads this
    {
      if manager.Some? then {manager.value} else {}
    }

    ghost predicate Valid()
      reads this, os, finder, Managed()
    {
      finder.os == os && finder.Valid()
      && (manager.Some? ==> manager.value.os == os && manager.value.Valid())
    }

    constructor (os: Os, finder: UwpAppFinder)
      requires finder.os == os && finder.Valid()
      ensures this.os == os && this.finder == finder
      ensures shortcuts == None && manager == None
      ensures Valid()
    {
      this.os := os;
      this.finder := finder;
      shortcuts := None;
      manager := None;
    }

    /** Reads the shortcut list; true exactly when a non-empty list was loaded. */
    method LoadConfig(file: ConfigFile) returns (ok: bool)
      modifies this`shortcuts, os`trace
      ensures ok <==> LoadWarning(file).None?
      ensures shortcuts == LoadedShortcuts(file, old(shortcuts))
      ensures os.trace == old(os.trace) + (if ok then [] else [Warn(LoadWarning(file).value)])
    {
      match file
      case Missing =>
        os.ShowWarning(DefaultConfigCreated);
        return false;
      case Malformed =>
        os.ShowWarning(InvalidConfigJson);
        return false;
      case Unreadable =>
        os.ShowWarning(ConfigLoadError);
        return false;
      case Parsed(list) =>
        shortcuts := Some(list.GetOr([]));
        if shortcuts.value == [] {
          os.ShowWarning(NoShortcutsDefined);
          return false;
        }
        return true;
    }

    /**
      * Registers shortcut `id`'s hotkey under its index and shows a warning
      * when that fails; `parsed` is what the hotkey parsed to.
      */
    method RegisterShortcut(hotkeys: HotkeyManager, id: nat, hotkey: string)
      returns (ghost parsed: Option<Hotkey>, ok: bool)
      requires hotkeys.os == os && hotkeys.Valid()
      modifies hotkeys, os`trace, os`bound
      ensures hotkeys.Valid()
      ensures parsed == ParseHotkey(hotkey) && (ok ==> parsed.Some?)
      ensures os.trace == old(os.trace) + Attempt(id, hotkey, parsed, ok)
      ensures hotkeys.registeredIds == old(hotkeys.registeredIds) + (if ok then [id] else [])
    {
      parsed := ParseHotkey(hotkey);
      ok := hotkeys.RegisterHotkey(id, hotkey);
      if !ok {
        ghost var bind := BindEvents(id, parsed, ok);
        os.ShowWarning(HotkeyNotRegistered(hotkey));
      }
    }

    /**
      * Registers every shortcut of `list` in order with its index as id,
      * showing a warning for each one that fails; `parses` are what the
      * hotkeys parsed to and `oks` the per-shortcut results.
      */
    method RegisterAll(hotkeys: HotkeyManager, list: seq<Shortcut>)
      returns (ghost parses: seq<Option<Hotkey>>, ghost oks: seq<bool>)
      requires hotkeys.os == os && hotkeys.Valid()
      modifies hotkeys, os`trace, os`bound
      ensures hotkeys.Valid()
      ensures |oks| == |list| && IsMap(ParsedHotkey, list, parses)
      ensures os.trace == old(os.trace) + Registration(list, parses, oks)
      ensures hotkeys.registeredIds == old(hotkeys.registeredIds) + Accepted(oks)
    {
      parses, oks := [], [];
      for i := 0 to |list|
        invariant |parses| == |oks| == i
        invariant hotkeys.Valid()
        invariant os.trace == old(os.trace) + Registration(list[..i], parses, oks)
        invariant hotkeys.registeredIds == old(hotkeys.registeredIds) + Accepted(oks)
        invariant IsMap(ParsedHotkey, list[..i], parses)
      {
        var parsed, ok := RegisterShortcut(hotkeys, i, list[i].hotkey);
        RegisterStep(old(os.trace), old(hotkeys.registeredIds), list, parses, oks, parsed, ok, i);
        parses, oks := parses + [parsed], oks + [ok];
      }
      assert list[..|list|] == list;
    }

    /**
      * `RegisterHotkeys`: with a loaded list and a manager, registers every
      * shortcut (see `RegisterAll`); otherwise does nothing.
      */
    method RegisterHotkeys() returns (ghost parses: seq<Option<Hotkey>>, ghost oks: seq<bool>)
      requires Valid()
      modifies os`trace, os`bound, Managed()
      ensures Valid()
      ensures shortcuts.None? || manager.None? ==> os.trace == old(os.trace) && os.bound == old(os.bound) && oks == []
      ensures shortcuts.Some? && manager.Some? ==>
                |oks| == |shortcuts.value| && IsMap(ParsedHotkey, shortcuts.value, parses)
                && os.trace == old(os.trace) + Registration(shortcuts.value, parses, oks)
                && manager.value.registeredIds == old(manager.value.registeredIds) + Accepted(oks)
    {
      if shortcuts.None? || manager.None? {
        return [], [];
      }
      parses, oks := RegisterAll(manager.value, shortcuts.value);
    }

    /**
      * Answers a press of hotkey `id`: nothing for an id outside the list;
      * otherwise the shortcut's window is activated if there is one, and
      * only if there is none its (environment-expanded) path is launched.
      */
    method OnHotkeyPressed(id: int) returns (ghost events: seq<Event>)
      requires Valid()
      modifies finder, os`trace
      ensures Valid()
      ensures os.trace == old(os.trace) + events
      ensures shortcuts.None? || id < 0 || id >= |shortcuts.value| ==> events == [] && finder.cache == old(finder.cache)
      ensures shortcuts.Some? && 0 <= id < |shortcuts.value|
              && ChooseWindow(os.processes(shortcuts.value[id].processName)) != 0 ==>
                events == [Activate(ChooseWindow(os.processes(shortcuts.value[id].processName)))]
                && finder.cache == old(finder.cache)
      ensures shortcuts.Some? && 0 <= id < |shortcuts.value|
              && ChooseWindow(os.processes(shortcuts.value[id].processName)) == 0 ==>
                LaunchEffect(os.expand(shortcuts.value[id].launchPath), old(finder.cache), finder.cache, events,
                             os.pathVariable, os.files)
    {
      if shortcuts.None? || id < 0 || id >= |shortcuts.value| {
        return [];
      }
      var shortcut := shortcuts.value[id];
      var expandedPath := os.expand(shortcut.launchPath);
      ghost var window := ChooseWindow(os.processes(shortcut.processName));
      var activated := TryActivateWindow(os, shortcut.processName);
      if activated {
        return [Activate(window)];
      }
      events := LaunchApplication(os, finder, expandedPath);
    }

    /**
      * The tray menu's reload: releases every binding, reloads the file and,
      * only when that succeeds, registers the new list.
      */
    method Reload(file: ConfigFile) returns (ghost parses: seq<Option<Hotkey>>, ghost oks: seq<bool>)
      requires Valid()
      modifies this`shortcuts, os`trace, os`bound, Managed()
      ensures Valid()
      ensures shortcuts == LoadedShortcuts(file, old(shortcuts))
      ensures manager.Some? && LoadWarning(file).Some? ==> manager.value.registeredIds == [] && os.bound == {}
      ensures manager.Some? && LoadWarning(file).None? ==>
                |oks| == |shortcuts.value| && IsMap(ParsedHotkey, shortcuts.value, parses)
                && manager.value.registeredIds == Accepted(oks)
                && os.trace == old(os.trace) + UnbindEvents(old(manager.value.registeredIds))
                     + Registration(shortcuts.value, parses, oks)
      ensures manager.Some? && LoadWarning(file).Some? ==>
                os.trace == old(os.trace) + UnbindEvents(old(manager.value.registeredIds)) + [Warn(LoadWarning(file).value)]
    {
      parses, oks := [], [];
      if manager.Some? {
        manager.value.UnregisterAll();
      }
      ghost var released := os.trace;
      var ok := LoadConfig(file);
      if ok {
        assert os.trace == released;
        parses, oks := RegisterHotkeys();
        assert manager.Some? ==> manager.value.registeredIds == [] + Accepted(oks) == Accepted(oks);
      }
    }

    /**
      * The whole run: load the file (stopping if that fails), create the
      * manager and register, serve the message loop's events, and finally
      * release every binding.
      */
    method Run(file: ConfigFile, session: seq<UiEvent>)
      requires Valid() && manager.None? && os.bound == {}
      modifies this, os`trace, os`bound, finder
      ensures os.bound == {}
      ensures LoadWarning(file).Some? ==>
                manager.None? && os.trace == old(os.trace) + [Warn(LoadWarning(file).value)]
    {
      var ok := LoadConfig(file);
      if !ok {
        return;
      }
      var hotkeys := new HotkeyManager(os);
      manager := Some(hotkeys);
      var _, _ := RegisterHotkeys();
      for k := 0 to |session|
        invariant Valid() && manager == Some(hotkeys) && fresh(hotkeys)
      {
        match session[k]
        case HotkeyPressed(id) =>
          var _ := OnHotkeyPressed(id);
        case ReloadRequested(next) =>
          var _, _ := Reload(next);
      }
      hotkeys.UnregisterAll();
    }
  }
}
