/**
  * `HotkeyManager`: binds parsed hotkeys to the application's message window
  * and remembers which ids the system accepted, so that they can all be
  * released again.
  */
module Hotkeys {
  import opened Wrappers
  import opened Host
  import opened HotkeyParsing

  /** `MOD_NOREPEAT`: holding the combination down does not repeat the notification. */
  const MOD_NOREPEAT: bv32 := 0x4000

  /** The ids of a list, as a set. */
  function Ids(ids: seq<int>): set<int> {
    set k | 0 <= k < |ids| :: ids[k]
  }

  lemma IdsSnoc(ids: seq<int>, id: int)
    ensures Ids(ids + [id]) == Ids(ids) + {id}
  {
    var r := ids + [id];
    forall x | x in Ids(r) ensures x in Ids(ids) + {id} {
      var k :| 0 <= k < |r| && r[k] == x;
      if k < |ids| { assert ids[k] == x; }
    }
    forall x | x in Ids(ids) + {id} ensures x in Ids(r) {
      if x == id { assert r[|ids|] == x; }
      else { var k :| 0 <= k < |ids| && ids[k] == x; assert r[k] == x; }
    }
  }

  /** The events `UnregisterAll` causes for the recorded `ids`: one release per id, in order. */
  function UnbindEvents(ids: seq<int>): (events: seq<Event>)
    ensures |events| == |ids|
    ensures forall k :: 0 <= k < |ids| ==> events[k] == Unbind(ids[k])
  {
    if ids == [] then [] else UnbindEvents(ids[..|ids| - 1]) + [Unbind(ids[|ids| - 1])]
  }

  /** The flags passed to `RegisterHotKey` for a parsed hotkey. */
  function BindFlags(h: Hotkey): (flags: bv32)
    ensures flags & MOD_NOREPEAT == MOD_NOREPEAT
    ensures flags & 0xF == h.modifiers & 0xF
  {
    h.modifiers | MOD_NOREPEAT
  }

  /**
    * What `RegisterHotkey` asks of the system for a hotkey string that parsed
    * to `parsed`, `ok` being the answer: nothing when it did not parse,
    * otherwise one bind of the parsed key with auto-repeat switched off.
    */
  function BindEvents(id: int, parsed: Option<Hotkey>, ok: bool): (events: seq<Event>)
    ensures |events| <= 1
    ensures events == [] <==> parsed.None?
    ensures forall e | e in events ::
              e.Bind? && e.id == id && e.ok == ok && e.keyCode == parsed.value.keyCode
              && e.modifiers & MOD_NOREPEAT == MOD_NOREPEAT && e.modifiers & 0xF == parsed.value.modifiers & 0xF
  {
    match parsed
    case None => []
    case Some(h) => [Bind(id, BindFlags(h), h.keyCode, ok)]
  }

  class HotkeyManager {
    /** The system, reached through the message window this manager was created for. */
    const os: Os
    /** `_registeredIds`: the ids the system accepted, oldest first. */
    var registeredIds: seq<int>

    /** The recorded ids are exactly the ids bound to the window. */
    ghost predicate Valid()
      reads this, os
    {
      os.bound == Ids(registeredIds)
    }

    /** A manager for a freshly created window, to which nothing is bound yet. */
    constructor (os: Os)
      requires os.bound == {}
      ensures this.os == os && registeredIds == []
      ensures Valid()
    {
      this.os := os;
      registeredIds := [];
    }

    /**
      * Parses `hotkeyString` and, only when that succeeds, asks the system to
      * bind it (without auto-repeat) under `id`; the id is recorded exactly
      * when the system accepts.
      */
    method RegisterHotkey(id: int, hotkeyString: string) returns (ok: bool)
      requires Valid()
      modifies this, os`trace, os`bound
      ensures Valid()
      ensures ok ==> ParseHotkey(hotkeyString).Some?
      ensures os.trace == old(os.trace) + BindEvents(id, ParseHotkey(hotkeyString), ok)
      ensures registeredIds == old(registeredIds) + (if ok then [id] else [])
    {
      var parsed, modifiers, keyCode := TryParseHotkey(hotkeyString);
      if !parsed {
        return false;
      }
      modifiers := modifiers | MOD_NOREPEAT;
      ok := os.RegisterHotKey(id, modifiers, keyCode);
      if ok {
        IdsSnoc(registeredIds, id);
        registeredIds := registeredIds + [id];
      }
    }

    /** Releases every recorded id, in order, and forgets them all. */
    method UnregisterAll()
      requires Valid()
      modifies this, os`trace, os`bound
      ensures Valid()
      ensures registeredIds == [] && os.bound == {}
      ensures os.trace == old(os.trace) + UnbindEvents(old(registeredIds))
    {
      var ids := registeredIds;
      for i := 0 to |ids|
        invariant os.trace == old(os.trace) + UnbindEvents(ids[..i])
        invariant os.bound == old(os.bound) - Ids(ids[..i])
      {
        os.UnregisterHotKey(ids[i]);
        assert ids[..i + 1] == ids[..i] + [ids[i]];
        IdsSnoc(ids[..i], ids[i]);
      }
      assert ids[..|ids|] == ids;
      registeredIds := [];
    }
  }
}
