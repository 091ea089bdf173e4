/** The session store: one JSON document `{ sessions: [...] }` kept under a
    single local-storage key. Local storage is the slot the operations read and
    return; every write replaces the whole document. */
module Storage {
  import opened Wrappers
  import opened Seqs
  import opened JsonModel
  import opened Types

  /** The text under the store's key; `None` when the key is absent. */
  type Slot = Option<string>

  /** The `sessions` array of a parsed document, when it has one. */
  function SessionsOf(doc: Json): (r: Option<seq<Json>>)
    ensures r.Some? <==> Field(doc, "sessions").Some? && Field(doc, "sessions").value.JArr?
    ensures r.Some? ==> Field(doc, "sessions") == Some(JArr(r.value))
  {
    match Field(doc, "sessions")
    case Some(JArr(items)) => Some(items)
    case _ => None
  }

  /** The cases in which loading falls back to the default state: no text or
      empty text, text that does not parse, or a parsed value that is falsy or
      has no `sessions` array. */
  predicate UsesDefault(c: Codec, slot: Slot) {
    || slot.None?
    || slot.value == []
    || c.parse(slot.value).Err?
    || !Truthy(c.parse(slot.value).value)
    || SessionsOf(c.parse(slot.value).value).None?
  }

  /** The stored array of a slot that does not fall back. */
  function StoredSessions(c: Codec, slot: Slot): seq<Json>
    requires !UsesDefault(c, slot)
  {
    SessionsOf(c.parse(slot.value).value).value
  }

  /** `loadState()` under the immutable reading, in which the default state is
      always the empty list. The stored entries come back unfiltered. */
  function LoadState(c: Codec, slot: Slot): (r: seq<Json>)
    ensures UsesDefault(c, slot) ==> r == []
    ensures !UsesDefault(c, slot) ==> c.parse(slot.value).Ok? && SessionsOf(c.parse(slot.value).value) == Some(r)
  {
    if UsesDefault(c, slot) then [] else StoredSessions(c, slot)
  }

  /** `saveState({ sessions })`. */
  function SaveState(c: Codec, entries: seq<Json>): (r: Slot)
    ensures r.Some?
  {
    Some(c.stringify(StateJson(entries), 0))
  }

  /** What is saved is what the next load returns. */
  lemma LoadSave(c: Codec, entries: seq<Json>)
    requires Faithful(c)
    ensures LoadState(c, SaveState(c, entries)) == entries
  {
    var doc := StateJson(entries);
    assert c.parse(c.stringify(doc, 0)) == Ok(doc) && c.stringify(doc, 0) != [];
    assert SessionsOf(doc) == Some(entries);
  }

  /** `addSession(s)`. */
  function AddSession(c: Codec, slot: Slot, s: Session): Slot {
    SaveState(c, [Encode(s)] + LoadState(c, slot))
  }

  /** After `addSession(s)` the stored list is `s` followed by the old list:
      `s` comes first, the length grows by one and the rest is unchanged. */
  lemma AddSessionPrepends(c: Codec, slot: Slot, s: Session)
    requires Faithful(c)
    ensures var after := LoadState(c, AddSession(c, slot, s));
      && after == [Encode(s)] + LoadState(c, slot)
      && |after| == |LoadState(c, slot)| + 1
      && after[0] == Encode(s)
      && after[1..] == LoadState(c, slot)
  {
    LoadSave(c, [Encode(s)] + LoadState(c, slot));
  }

  /** The entry's `actionId` is the tag of `a`. */
  predicate IsAction(e: Json, a: ActionId) {
    Field(e, "actionId") == Some(JStr(a.Tag()))
  }

  /** `sessions.filter(s => s.actionId === a)` on entries that are not `null`. */
  function OfAction(entries: seq<Json>, a: ActionId): (r: seq<Json>)
    ensures |r| <= |entries|
    ensures forall i :: 0 <= i < |r| ==> IsAction(r[i], a) && r[i] in entries
    ensures forall i :: 0 <= i < |entries| && IsAction(entries[i], a) ==> entries[i] in r
  {
    if entries == [] then []
    else if IsAction(entries[0], a) then [entries[0]] + OfAction(entries[1..], a)
    else OfAction(entries[1..], a)
  }

  /** Filtering by action keeps stored order: it distributes over concatenation. */
  lemma {:induction false} OfActionAppend(xs: seq<Json>, ys: seq<Json>, a: ActionId)
    ensures OfAction(xs + ys, a) == OfAction(xs, a) + OfAction(ys, a)
  {
    if xs == [] {
      assert xs + ys == ys;
    } else {
      assert (xs + ys)[0] == xs[0];
      assert (xs + ys)[1..] == xs[1..] + ys;
      OfActionAppend(xs[1..], ys, a);
    }
  }

  /** Reading `.actionId` of a `null` entry throws a TypeError. */
  datatype StoreError = NullEntry

  /** `getSessions()` and `getSessions(a)`. */
  function GetSessions(c: Codec, slot: Slot, filter: Option<ActionId>): (r: Result<seq<Json>, StoreError>)
    ensures filter.None? ==> r == Ok(LoadState(c, slot))
    ensures filter.Some? ==> (r.Err? <==> JNull in LoadState(c, slot))
    ensures filter.Some? && r.Ok? ==> r.value == OfAction(LoadState(c, slot), filter.value)
  {
    var all := LoadState(c, slot);
    match filter
    case None => Ok(all)
    case Some(a) => if JNull in all then Err(NullEntry) else Ok(OfAction(all, a))
  }

  /** The typed sessions of one action, in order. */
  function SessionsOfAction(ss: seq<Session>, a: ActionId): (r: seq<Session>)
    ensures forall i :: 0 <= i < |r| ==> r[i].Action() == a && r[i] in ss
    ensures forall i :: 0 <= i < |ss| && ss[i].Action() == a ==> ss[i] in r
  {
    if ss == [] then []
    else if ss[0].Action() == a then [ss[0]] + SessionsOfAction(ss[1..], a)
    else SessionsOfAction(ss[1..], a)
  }

  /** On a store of typed sessions, `getSessions(a)` returns exactly the
      sessions of action `a`, in stored order. */
  lemma {:induction false} GetSessionsTyped(c: Codec, slot: Slot, ss: seq<Session>, a: ActionId)
    requires LoadState(c, slot) == EncodeAll(ss)
    ensures GetSessions(c, slot, Some(a)) == Ok(EncodeAll(SessionsOfAction(ss, a)))
  {
    assert JNull !in EncodeAll(ss) by {
      forall i | 0 <= i < |ss| ensures EncodeAll(ss)[i] != JNull {
        assert Truthy(Encode(ss[i]));
      }
    }
    OfActionEncoded(ss, a);
  }

  lemma {:induction false} OfActionEncoded(ss: seq<Session>, a: ActionId)
    ensures OfAction(EncodeAll(ss), a) == EncodeAll(SessionsOfAction(ss, a))
  {
    if ss != [] {
      var e := EncodeAll(ss);
      assert e[0] == Encode(ss[0]);
      assert e[1..] == EncodeAll(ss[1..]);
      assert IsAction(Encode(ss[0]), a) <==> ss[0].Action() == a;
      OfActionEncoded(ss[1..], a);
      if ss[0].Action() == a {
        assert EncodeAll([ss[0]] + SessionsOfAction(ss[1..], a))
            == [Encode(ss[0])] + EncodeAll(SessionsOfAction(ss[1..], a));
      }
    }
  }

  /** `clearAll()` with the default state kept empty. */
  function ClearAll(c: Codec): Slot {
    SaveState(c, [])
  }

  /** After `clearAll()` the store loads as empty. */
  lemma ClearAllEmpties(c: Codec)
    requires Faithful(c)
    ensures LoadState(c, ClearAll(c)) == []
  {
    LoadSave(c, []);
  }

  /** `exportState()`: the loaded state, pretty-printed with an indent of 2. */
  function ExportState(c: Codec, slot: Slot): string {
    c.stringify(StateJson(LoadState(c, slot)), 2)
  }

  datatype ImportError =
    | ParseFailure(message: string)  // `JSON.parse` threw
    | MalformedImport                 // the value has no `sessions` array

  /** The slot after an import, and either the number imported or the error thrown. */
  datatype ImportOutcome = ImportOutcome(slot: Slot, result: Result<nat, ImportError>)

  /** `importState(text)`. */
  function ImportState(c: Codec, slot: Slot, text: string): (r: ImportOutcome)
    ensures r.result.Err? ==> r.slot == slot
    ensures c.parse(text).Err? ==> r.result == Err(ParseFailure(c.parse(text).error))
    ensures c.parse(text).Ok? && SessionsOf(c.parse(text).value).None? ==> r.result == Err(MalformedImport)
    ensures r.result.Ok? <==> c.parse(text).Ok? && SessionsOf(c.parse(text).value).Some?
    ensures r.result.Ok? ==>
      var kept := Filter(Truthy, SessionsOf(c.parse(text).value).value);
      r.slot == SaveState(c, kept) && r.result.value == |kept|
  {
    match c.parse(text)
    case Err(message) => ImportOutcome(slot, Err(ParseFailure(message)))
    case Ok(doc) =>
      if !Truthy(doc) || SessionsOf(doc).None? then ImportOutcome(slot, Err(MalformedImport))
      else
        var kept := Filter(Truthy, SessionsOf(doc).value);
        ImportOutcome(SaveState(c, kept), Ok(|kept|))
  }

  /** A successful import stores exactly the truthy entries, in order, and
      reports how many the store now holds. */
  lemma ImportStores(c: Codec, slot: Slot, text: string)
    requires Faithful(c)
    requires ImportState(c, slot, text).result.Ok?
    ensures var r := ImportState(c, slot, text);
      && LoadState(c, r.slot) == Filter(Truthy, SessionsOf(c.parse(text).value).value)
      && |LoadState(c, r.slot)| == r.result.value
  {
    LoadSave(c, Filter(Truthy, SessionsOf(c.parse(text).value).value));
  }

  /** Exporting and importing reproduces the stored list when no entry is falsy,
      whatever the store held before the import. */
  lemma ExportImport(c: Codec, slot: Slot, before: Slot)
    requires Faithful(c)
    requires forall i :: 0 <= i < |LoadState(c, slot)| ==> Truthy(LoadState(c, slot)[i])
    ensures var r := ImportState(c, before, ExportState(c, slot));
      && r.result == Ok(|LoadState(c, slot)|)
      && LoadState(c, r.slot) == LoadState(c, slot)
  {
    var entries := LoadState(c, slot);
    var doc := StateJson(entries);
    assert c.parse(c.stringify(doc, 2)) == Ok(doc);
    assert SessionsOf(doc) == Some(entries);
    FilterAll(Truthy, entries);
    LoadSave(c, entries);
  }
}
