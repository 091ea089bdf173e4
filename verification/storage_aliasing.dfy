/** The session store as written: `loadState` hands out the module-level
    `defaultState` object itself whenever it falls back, and `addSession`
    prepends to the array it was handed in place. The contents of that shared
    array are therefore part of the page's state. */
module StorageAliasing {
  import opened Wrappers
  import opened JsonModel
  import opened Types
  import Storage

  /** The persisted slot and the array inside the shared default state. */
  datatype World = World(slot: Storage.Slot, defaultSessions: seq<Json>)

  /** The page as it starts: whatever is stored, and an empty default state. */
  predicate Fresh(w: World) {
    w.defaultSessions == []
  }

  /** A loaded state: its sessions, and whether it is the shared default object. */
  datatype Loaded = Loaded(sessions: seq<Json>, isDefault: bool)

  /** `loadState()` as written. While the default array is still empty it
      agrees with the immutable reading. */
  function LoadStateAsWritten(c: Codec, w: World): (r: Loaded)
    ensures r.isDefault <==> Storage.UsesDefault(c, w.slot)
    ensures r.isDefault ==> r.sessions == w.defaultSessions
    ensures Fresh(w) ==> r.sessions == Storage.LoadState(c, w.slot)
  {
    if Storage.UsesDefault(c, w.slot) then Loaded(w.defaultSessions, true)
    else Loaded(Storage.StoredSessions(c, w.slot), false)
  }

  /** `addSession(s)` as written: `unshift` on the loaded array, then save.
      When the load fell back, the shared default array grows as well. */
  function AddSessionAsWritten(c: Codec, w: World, s: Session): (r: World)
    ensures var l := LoadStateAsWritten(c, w);
      && r.slot == Storage.SaveState(c, [Encode(s)] + l.sessions)
      && (l.isDefault ==> r.defaultSessions == [Encode(s)] + w.defaultSessions)
      && (!l.isDefault ==> r.defaultSessions == w.defaultSessions)
  {
    var l := LoadStateAsWritten(c, w);
    var list := [Encode(s)] + l.sessions;
    World(Storage.SaveState(c, list), if l.isDefault then list else w.defaultSessions)
  }

  /** `clearAll()` as written: it saves whatever the shared default object holds. */
  function ClearAllAsWritten(c: Codec, w: World): (r: World)
    ensures r.defaultSessions == w.defaultSessions
    ensures r.slot == Storage.SaveState(c, w.defaultSessions)
  {
    World(Storage.SaveState(c, w.defaultSessions), w.defaultSessions)
  }

  /** On a page where nothing is stored yet, `addSession(s)` followed by
      `clearAll()` leaves `s` in the store, and a later `clearAll()` still does. */
  lemma ClearAllKeepsSession(c: Codec, s: Session)
    requires Faithful(c)
    ensures var w1 := AddSessionAsWritten(c, World(None, []), s);
      var w2 := ClearAllAsWritten(c, w1);
      && Storage.LoadState(c, w2.slot) == [Encode(s)]
      && Storage.LoadState(c, ClearAllAsWritten(c, w2).slot) == [Encode(s)]
  {
    Storage.LoadSave(c, [Encode(s)]);
  }
}
