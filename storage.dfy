/**
 * The browser's key/value store and the game's persistence helpers on top of it
 * (frontend/src/utils/localStorage.ts). JSON is abstract: a codec is passed in,
 * and each round-trip fact assumes only that the codec round-trips the value in hand.
 */
module Storage {
  import opened Wrappers

  /** A JSON value, as `JSON.parse` produces and `JSON.stringify` consumes. */
  datatype Json =
    | JNull
    | JBool(b: bool)
    | JNumber(n: real)
    | JString(s: string)
    | JArray(items: seq<Json>)
    | JObject(fields: seq<(string, Json)>)

  /** `JSON.stringify` and `JSON.parse`; `parse` answers None where `JSON.parse` throws. */
  datatype JsonCodec = JsonCodec(stringify: Json -> string, parse: string -> Option<Json>)

  /**
   * What JSON guarantees of a value it can represent: parsing its
   * serialisation gives it back, and that serialisation is never empty.
   * It is stated per value, because no string encoding can round-trip every real.
   */
  predicate RoundTrips(codec: JsonCodec, v: Json)
  {
    codec.parse(codec.stringify(v)) == Some(v) && codec.stringify(v) != ""
  }

  /** The round-trip premise is not vacuous: for every value some codec meets it. */
  lemma RoundTripsSatisfiable(v: Json)
    ensures exists codec :: RoundTrips(codec, v)
  {
    var codec := JsonCodec(x => "null", t => Some(v));
    assert RoundTrips(codec, v);
  }

  /** `window.localStorage`: string keys to string values, updated in place. */
  class LocalStorage {
    var items: map<string, string>

    constructor ()
      ensures items == map[]
    {
      items := map[];
    }

    /** getItem: the stored string, or null. */
    method GetItem(key: string) returns (r: Option<string>)
      ensures r.Some? <==> key in items
      ensures r.Some? ==> r.value == items[key]
    {
      r := if key in items then Some(items[key]) else None;
    }

    method SetItem(key: string, value: string)
      modifies this
      ensures items == old(items)[key := value]
    {
      items := items[key := value];
    }

    method RemoveItem(key: string)
      modifies this
      ensures items == old(items) - {key}
    {
      items := items - {key};
    }
  }

  const GameStateKey: string := "gameState"
  const ThemeKey: string := "theme"

  datatype Theme = Light | Dark

  /** The JSON form of a theme value, the string "light" or "dark". */
  function ThemeJson(t: Theme): Json
  {
    match t
    case Light => JString("light")
    case Dark => JString("dark")
  }

  /** The value a read returns and the store it leaves behind. */
  datatype Loaded = Loaded(value: Option<Json>, items: map<string, string>)

  /**
   * The specification of a read of `key`: a missing or empty item reads as
   * null and changes nothing; an item that does not parse reads as null and
   * is removed; otherwise the parsed value is returned as is.
   */
  function Load(items: map<string, string>, key: string, codec: JsonCodec): (r: Loaded)
    ensures r.items == items || (key in items && r.items == items - {key})
    ensures r.value.Some? ==>
      key in items && items[key] != "" && codec.parse(items[key]) == r.value && r.items == items
    ensures r.items != items ==> r.value == None && codec.parse(items[key]).None?
    ensures key in items && items[key] != "" && codec.parse(items[key]).Some? ==> r.value.Some?
  {
    if key !in items || items[key] == "" then Loaded(None, items)
    else match codec.parse(items[key])
      case None => Loaded(None, items - {key})
      case Some(v) => Loaded(Some(v), items)
  }

  /** The read shared by getGameState and getTheme. */
  method GetParsed(store: LocalStorage, key: string, codec: JsonCodec) returns (r: Option<Json>)
    modifies store
    ensures Loaded(r, store.items) == Load(old(store.items), key, codec)
  {
    var item := store.GetItem(key);
    if item.None? || item.value == "" {
      return None;
    }
    r := codec.parse(item.value);
    if r.None? {
      store.RemoveItem(key);
    }
  }

  method GetGameState(store: LocalStorage, codec: JsonCodec) returns (r: Option<Json>)
    modifies store
    ensures Loaded(r, store.items) == Load(old(store.items), GameStateKey, codec)
  {
    r := GetParsed(store, GameStateKey, codec);
  }

  method SetGameState(store: LocalStorage, codec: JsonCodec, state: Json)
    modifies store
    ensures store.items == old(store.items)[GameStateKey := codec.stringify(state)]
  {
    store.SetItem(GameStateKey, codec.stringify(state));
  }

  method RemoveGameState(store: LocalStorage)
    modifies store
    ensures store.items == old(store.items) - {GameStateKey}
  {
    store.RemoveItem(GameStateKey);
  }

  /** getTheme returns whatever parses, without checking that it is "light" or "dark". */
  method GetTheme(store: LocalStorage, codec: JsonCodec) returns (r: Option<Json>)
    modifies store
    ensures Loaded(r, store.items) == Load(old(store.items), ThemeKey, codec)
  {
    r := GetParsed(store, ThemeKey, codec);
  }

  method SetTheme(store: LocalStorage, codec: JsonCodec, theme: Theme)
    modifies store
    ensures store.items == old(store.items)[ThemeKey := codec.stringify(ThemeJson(theme))]
  {
    store.SetItem(ThemeKey, codec.stringify(ThemeJson(theme)));
  }

  method RemoveTheme(store: LocalStorage)
    modifies store
    ensures store.items == old(store.items) - {ThemeKey}
  {
    store.RemoveItem(ThemeKey);
  }

  /** A missing item reads as null and leaves the store alone. */
  lemma LoadMissing(items: map<string, string>, key: string, codec: JsonCodec)
    requires key !in items
    ensures Load(items, key, codec) == Loaded(None, items)
  {
  }

  /** An empty item is falsy: it reads as null and is not removed. */
  lemma LoadEmpty(items: map<string, string>, key: string, codec: JsonCodec)
    requires key in items && items[key] == ""
    ensures Load(items, key, codec) == Loaded(None, items)
    ensures key in Load(items, key, codec).items
  {
  }

  /** A corrupt item reads as null and is removed; every other key is kept. */
  lemma LoadCorrupt(items: map<string, string>, key: string, codec: JsonCodec)
    requires key in items && items[key] != "" && codec.parse(items[key]).None?
    ensures Load(items, key, codec).value == None
    ensures key !in Load(items, key, codec).items
    ensures forall k :: k != key ==> (k in Load(items, key, codec).items <==> k in items)
  {
  }

  /** A read touches no key but its own, and never adds or changes an item. */
  lemma LoadTouchesOnlyItsKey(items: map<string, string>, key: string, codec: JsonCodec)
    ensures Load(items, key, codec).items.Keys <= items.Keys
    ensures forall k :: k in Load(items, key, codec).items ==>
      Load(items, key, codec).items[k] == items[k]
    ensures forall k :: k in items && k != key ==> k in Load(items, key, codec).items
  {
  }

  /** Writing a value and reading it back gives that value, whatever was stored before. */
  lemma StoreThenLoad(items: map<string, string>, key: string, codec: JsonCodec, v: Json)
    requires RoundTrips(codec, v)
    ensures Load(items[key := codec.stringify(v)], key, codec) ==
      Loaded(Some(v), items[key := codec.stringify(v)])
  {
  }

  /** Writing or removing one key does not change what a read of another key returns. */
  lemma KeysIndependent(items: map<string, string>, key: string, other: string, s: string, codec: JsonCodec)
    requires key != other
    ensures Load(items[key := s], other, codec).value == Load(items, other, codec).value
    ensures Load(items - {key}, other, codec).value == Load(items, other, codec).value
  {
  }

  lemma GameStateAndThemeKeysDiffer()
    ensures GameStateKey != ThemeKey
  {
  }

  /** getTheme returns any parsed value: a stored number comes back unchecked. */
  lemma ThemeIsNotChecked(items: map<string, string>, codec: JsonCodec)
    requires RoundTrips(codec, JNumber(1.0))
    ensures Load(items[ThemeKey := codec.stringify(JNumber(1.0))], ThemeKey, codec).value
      == Some(JNumber(1.0))
    ensures forall t :: ThemeJson(t) != JNumber(1.0)
  {
    StoreThenLoad(items, ThemeKey, codec, JNumber(1.0));
  }

  /** setGameState then getGameState returns the state, even over an earlier one. */
  method SaveAndRestoreGameState(store: LocalStorage, codec: JsonCodec, first: Json, state: Json)
    returns (r: Option<Json>)
    requires RoundTrips(codec, state)
    modifies store
    ensures r == Some(state)
    ensures store.items == old(store.items)[GameStateKey := codec.stringify(state)]
  {
    SetGameState(store, codec, first);
    SetGameState(store, codec, state);
    r := GetGameState(store, codec);
    StoreThenLoad(old(store.items), GameStateKey, codec, state);
  }

  /** setTheme then removeGameState then getTheme returns the theme just set. */
  method SaveThemeThenClearGameState(store: LocalStorage, codec: JsonCodec, theme: Theme)
    returns (r: Option<Json>)
    requires RoundTrips(codec, ThemeJson(theme))
    modifies store
    ensures r == Some(ThemeJson(theme))
    ensures GameStateKey !in store.items
  {
    SetTheme(store, codec, theme);
    RemoveGameState(store);
    StoreThenLoad(old(store.items), ThemeKey, codec, ThemeJson(theme));
    KeysIndependent(old(store.items)[ThemeKey := codec.stringify(ThemeJson(theme))], GameStateKey, ThemeKey, "", codec);
    r := GetTheme(store, codec);
  }
}
