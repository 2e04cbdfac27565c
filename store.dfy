/**
 * The persistent store adapter of utils/storage.ts over the device's
 * key-value store (AsyncStorage).
 *
 * What each reader makes of a stored entry is a pure function of that entry
 * (and of the current time); the lemmas about those functions state the
 * round trips and expiry rules. The `AsyncStorage` class holds the key-value
 * map and ties each operation of the source to those functions.
 */
module Store {
  import opened Wrappers
  import opened Text
  import opened Json
  import opened ShelterTypes
  import opened Seqs

  // ---------- Keys and limits ----------

  const Prefix := "@BombShelterApp:"
  const SheltersKey := "@BombShelterApp:shelters"
  const SettingsKey := "@BombShelterApp:settings"
  const LastLocationKey := "@BombShelterApp:lastLocation"
  const EmergencyContactsKey := "@BombShelterApp:emergencyContacts"
  const SearchHistoryKey := "@BombShelterApp:searchHistory"
  const FavoriteSheltersKey := "@BombShelterApp:favoriteShelters"
  const LastUpdateKey := "@BombShelterApp:lastUpdate"
  const AppVersionKey := "@BombShelterApp:appVersion"

  /** `Object.values(STORAGE_KEYS)`. */
  const AppKeys: set<string> := {SheltersKey, SettingsKey, LastLocationKey, EmergencyContactsKey,
                                 SearchHistoryKey, FavoriteSheltersKey, LastUpdateKey, AppVersionKey}

  /** 30 days and 1 hour, in milliseconds. */
  const ShelterMaxAge: int := 30 * 24 * 60 * 60 * 1000
  const LocationMaxAge: int := 60 * 60 * 1000
  const HistoryLimit: nat := 20
  const EnvelopeVersion := "1.0"

  /**
   * The text stored under a key: JSON text, read back by `JSON.parse` as the
   * value it encodes; the ISO date text written for the last update; the
   * empty text, which is falsy and so read as nothing stored; or other text
   * `JSON.parse` rejects.
   */
  datatype Entry = Json(value: JValue) | Instant(ms: int) | Empty | Corrupt

  datatype StoreError = WriteFailed | InvalidFormat

  /** `new Date(text)`: the instant written by `saveShelters`, or a date from other text, which is not parsed here. */
  datatype Moment = At(ms: int) | FromOtherText

  /** `{latitude: data.latitude, longitude: data.longitude}` as read back, unchecked. */
  datatype StoredLocation = StoredLocation(latitude: JValue, longitude: JValue)

  /**
   * What `JSON.parse(await getItem(key))` leaves the readers with. A missing
   * key, a failed read and a parse error all end in the reader's default, so
   * all three are `None`.
   */
  function Parsed(e: Option<Entry>): (r: Option<JValue>)
    ensures r.Some? <==> e.Some? && e.value.Json?
    ensures e.Some? && e.value.Json? ==> r == Some(e.value.value)
  {
    match e
    case Some(Json(v)) => Some(v)
    case _ => None
  }

  /** `data.timestamp && now - data.timestamp > maxAge`; a NaN difference is never greater. */
  predicate IsStale(timestamp: JValue, now: int, maxAge: int)
  {
    Truthy(timestamp)
    && match ToNumber(timestamp)
       case Some(t) => (now as real) - t > maxAge as real
       case None => false
  }

  /**
   * A numeric timestamp expires once more than `maxAge` has passed since it,
   * except the time 0, which is falsy; a missing timestamp never expires.
   */
  lemma StaleTimestamp(t: real, now: int, maxAge: int)
    ensures IsStale(JNum(t), now, maxAge) <==> t != 0.0 && (now as real) - t > maxAge as real
    ensures !IsStale(JUndefined, now, maxAge) && !IsStale(JNull, now, maxAge)
  {
  }

  /** An empty array is truthy and counts as the time 0, so such an envelope expires once 30 days have passed since 0. */
  lemma EmptyArrayTimestamp(now: int)
    ensures IsStale(JArr([]), now, ShelterMaxAge) <==> now > ShelterMaxAge
  {
    ArrayNumber(JNull);
  }

  // ---------- Shelters ----------

  /** The object `saveShelters` stores. */
  function Envelope(shelters: seq<Shelter>, now: int): JValue
  {
    JObj(map["shelters" := JArr(SheltersToJson(shelters)), "timestamp" := JNum(now as real),
             "count" := JNum(|shelters| as real), "version" := JStr(EnvelopeVersion)])
  }

  /** The record check of `getShelters`: a truthy record with string id and name and numeric coordinates. */
  predicate IsStoredShelter(v: JValue)
  {
    && Truthy(v)
    && IsString(Get(v, "id")) && IsString(Get(v, "name"))
    && IsNumber(Get(v, "latitude")) && IsNumber(Get(v, "longitude"))
  }

  /**
   * `getShelters`: nothing for a missing, unreadable or expired envelope;
   * otherwise the stored records that pass the record check, in stored order.
   */
  function LoadShelterRecords(e: Option<Entry>, now: int): (r: seq<JValue>)
    ensures forall x :: x in r ==> IsStoredShelter(x)
    ensures Parsed(e).None? ==> r == []
    ensures r != [] ==>
              var data := Parsed(e).value;
              && !IsStale(Get(data, "timestamp"), now, ShelterMaxAge)
              && Get(data, "shelters").JArr?
              && Sublist(r, Get(data, "shelters").items)
    ensures Parsed(e).Some? && Parsed(e).value.JObj?
            && !IsStale(Get(Parsed(e).value, "timestamp"), now, ShelterMaxAge)
            && Get(Parsed(e).value, "shelters").JArr? ==>
              forall x :: x in Get(Parsed(e).value, "shelters").items && IsStoredShelter(x) ==> x in r
  {
    match Parsed(e)
    case None => []
    case Some(data) =>
      if data.JNull? || data.JUndefined? then []
      else if IsStale(Get(data, "timestamp"), now, ShelterMaxAge) then []
      else match Or(Get(data, "shelters"), JArr([]))
        case JArr(items) => Filter(IsStoredShelter, items)
        case _ => []
  }

  /** Every encoded shelter passes the record check of `getShelters`. */
  lemma EncodedSheltersPass(shelters: seq<Shelter>)
    ensures forall x :: x in SheltersToJson(shelters) ==> IsStoredShelter(x)
  {
    forall x | x in SheltersToJson(shelters)
      ensures IsStoredShelter(x)
    {
      var i :| 0 <= i < |shelters| && SheltersToJson(shelters)[i] == x;
      ShelterJsonNames(shelters[i]);
      ShelterJsonNumbers(shelters[i]);
    }
  }

  /**
   * Saving and loading: the saved records come back, all of them and in
   * order, unless a non-zero save time lies more than 30 days back (exactly
   * 30 days is still fresh).
   */
  lemma SheltersRoundTrip(shelters: seq<Shelter>, savedAt: int, now: int)
    ensures var r := LoadShelterRecords(Some(Json(Envelope(shelters, savedAt))), now);
            r == if savedAt != 0 && now - savedAt > ShelterMaxAge then [] else SheltersToJson(shelters)
  {
    var data := Envelope(shelters, savedAt);
    EnvelopeFields(shelters, savedAt);
    assert Parsed(Some(Json(data))) == Some(data);
    assert IsStale(Get(data, "timestamp"), now, ShelterMaxAge) <==> savedAt != 0 && now - savedAt > ShelterMaxAge;
    EncodedSheltersPass(shelters);
    FilterAll(IsStoredShelter, SheltersToJson(shelters));
  }

  /** From a fresh envelope every copy of a record that passes the check is read back, and no copy of any other. */
  lemma LoadedRecordCount(e: Option<Entry>, now: int, x: JValue)
    requires Parsed(e).Some? && Parsed(e).value.JObj?
    requires !IsStale(Get(Parsed(e).value, "timestamp"), now, ShelterMaxAge)
    requires Get(Parsed(e).value, "shelters").JArr?
    ensures multiset(LoadShelterRecords(e, now))[x]
            == if IsStoredShelter(x) then multiset(Get(Parsed(e).value, "shelters").items)[x] else 0
  {
    FilterCount(IsStoredShelter, Get(Parsed(e).value, "shelters").items, x);
  }

  /** Each record read back decodes to the shelter saved at its position. */
  lemma SheltersDecode(shelters: seq<Shelter>)
    ensures forall i :: 0 <= i < |shelters| ==> ShelterFromJson(SheltersToJson(shelters)[i]) == Some(shelters[i])
  {
    forall i | 0 <= i < |shelters|
      ensures ShelterFromJson(SheltersToJson(shelters)[i]) == Some(shelters[i])
    {
      ShelterRoundTrip(shelters[i]);
    }
  }

  lemma EnvelopeFields(shelters: seq<Shelter>, now: int)
    ensures var data := Envelope(shelters, now);
            && data.JObj?
            && Get(data, "timestamp") == JNum(now as real)
            && Get(data, "shelters") == JArr(SheltersToJson(shelters))
  {
  }

  /** The envelope states how many shelters it holds and its format version. */
  lemma EnvelopeCount(shelters: seq<Shelter>, now: int)
    ensures var data := Envelope(shelters, now);
            && ToNumber(Get(data, "count")) == Some(|Get(data, "shelters").items| as real)
            && Get(data, "version") == JStr("1.0")
  {
    var data := Envelope(shelters, now);
    assert Get(data, "count") == JNum(|shelters| as real);
    assert Get(data, "shelters") == JArr(SheltersToJson(shelters));
  }

  /** `getLastUpdate`: `lastUpdate ? new Date(lastUpdate) : null`. */
  function LoadLastUpdate(e: Option<Entry>): (r: Option<Moment>)
    ensures r.None? <==> e.None? || e == Some(Empty)
    ensures forall ms :: e == Some(Instant(ms)) ==> r == Some(At(ms))
  {
    match e
    case None => None
    case Some(Empty) => None
    case Some(Instant(ms)) => Some(At(ms))
    case Some(_) => Some(FromOtherText)
  }

  // ---------- Last location ----------

  /** `{...location, timestamp: now}`. */
  function LocationRecord(c: Coordinates, now: int): JValue
  {
    JObj(map["latitude" := JNum(c.latitude), "longitude" := JNum(c.longitude),
             "timestamp" := JNum(now as real)])
  }

  /** `getLastLocation`: nothing for a missing, unreadable or expired record, else its two coordinates. */
  function LoadLastLocation(e: Option<Entry>, now: int): (r: Option<StoredLocation>)
    ensures Parsed(e).None? ==> r.None?
    ensures r.Some? ==>
              var data := Parsed(e).value;
              && !IsStale(Get(data, "timestamp"), now, LocationMaxAge)
              && r.value == StoredLocation(Get(data, "latitude"), Get(data, "longitude"))
    ensures Parsed(e).Some? && !Parsed(e).value.JNull? && !Parsed(e).value.JUndefined?
            && !IsStale(Get(Parsed(e).value, "timestamp"), now, LocationMaxAge) ==>
              r.Some?
    ensures Parsed(e).Some? && (Parsed(e).value.JNull? || Parsed(e).value.JUndefined?) ==> r.None?
  {
    match Parsed(e)
    case None => None
    case Some(data) =>
      if data.JNull? || data.JUndefined? then None
      else if IsStale(Get(data, "timestamp"), now, LocationMaxAge) then None
      else Some(StoredLocation(Get(data, "latitude"), Get(data, "longitude")))
  }

  /** A saved location comes back as saved unless a non-zero save time lies more than an hour back. */
  lemma LocationRoundTrip(c: Coordinates, savedAt: int, now: int)
    ensures LoadLastLocation(Some(Json(LocationRecord(c, savedAt))), now)
            == if savedAt != 0 && now - savedAt > LocationMaxAge then None
               else Some(StoredLocation(JNum(c.latitude), JNum(c.longitude)))
  {
    var data := LocationRecord(c, savedAt);
    assert Get(data, "timestamp") == JNum(savedAt as real);
    assert Get(data, "latitude") == JNum(c.latitude);
    assert Get(data, "longitude") == JNum(c.longitude);
  }

  // ---------- Settings ----------

  /** `getDefaultSettings`. */
  function DefaultSettings(): AppSettings
  {
    AppSettings(enableNotifications := true, enableVoiceNavigation := true,
                preferredLanguage := Bg, maxSearchDistance := 10.0,
                autoDownloadMaps := true, emergencyContacts := [])
  }

  /** The own properties a spread of the parsed settings contributes. */
  function StoredFields(e: Option<Entry>): map<string, JValue>
  {
    match Parsed(e)
    case Some(JObj(fields)) => fields
    case _ => map[]
  }

  /**
   * `getSettings`: `{...getDefaultSettings(), ...settings}`: every default
   * key is present, stored values win, and missing keys take their default.
   */
  function LoadSettings(e: Option<Entry>): (r: JValue)
    ensures r.JObj?
    ensures forall k :: k in r.fields <==> k in StoredFields(e) || k in SettingsFields(DefaultSettings())
    ensures forall k :: k in StoredFields(e) ==> r.fields[k] == StoredFields(e)[k]
    ensures forall k :: k !in StoredFields(e) && k in SettingsFields(DefaultSettings()) ==>
              r.fields[k] == SettingsFields(DefaultSettings())[k]
  {
    JObj(SettingsFields(DefaultSettings()) + StoredFields(e))
  }

  /** With nothing stored the settings read back are the defaults. */
  lemma SettingsWhenAbsent()
    ensures SettingsFromJson(LoadSettings(None)) == Some(DefaultSettings())
  {
    assert LoadSettings(None) == SettingsToJson(DefaultSettings());
    SettingsRoundTrip(DefaultSettings());
  }

  /** Saved settings override every default, so they read back unchanged. */
  lemma SettingsSaveLoad(s: AppSettings)
    ensures LoadSettings(Some(Json(SettingsToJson(s)))) == SettingsToJson(s)
    ensures SettingsFromJson(LoadSettings(Some(Json(SettingsToJson(s))))) == Some(s)
  {
    var d := SettingsFields(DefaultSettings());
    var f := SettingsFields(s);
    assert d.Keys == f.Keys;
    assert d + f == f;
    SettingsRoundTrip(s);
  }

  /** Settings saved before a field existed get that field's default. */
  lemma SettingsFillMissing(s: AppSettings)
    ensures SettingsFromJson(LoadSettings(Some(Json(JObj(SettingsFields(s) - {"autoDownloadMaps"})))))
            == Some(s.(autoDownloadMaps := true))
  {
    var f := SettingsFields(s);
    var stored := f - {"autoDownloadMaps"};
    var e := Some(Json(JObj(stored)));
    assert StoredFields(e) == stored;
    var v := LoadSettings(e);
    SettingsJsonFields(s);
    SettingsJsonFields(DefaultSettings());
    assert "autoDownloadMaps" !in stored;
    assert Get(v, "autoDownloadMaps") == JBool(true);
    assert Get(v, "enableNotifications") == f["enableNotifications"];
    assert Get(v, "enableVoiceNavigation") == f["enableVoiceNavigation"];
    assert Get(v, "preferredLanguage") == f["preferredLanguage"];
    assert Get(v, "maxSearchDistance") == f["maxSearchDistance"];
    assert Get(v, "emergencyContacts") == f["emergencyContacts"];
    ContactsRoundTrip(s.emergencyContacts);
    SettingsFromFields(v, s.(autoDownloadMaps := true));
  }

  // ---------- Lists: contacts, history, favourites ----------

  /** `json ? JSON.parse(json) : []`, with a failed read giving `[]` as well. */
  function LoadList(e: Option<Entry>): (r: JValue)
    ensures Parsed(e).None? ==> r == JArr([])
    ensures Parsed(e).Some? ==> r == Parsed(e).value
  {
    match Parsed(e)
    case Some(v) => v
    case None => JArr([])
  }

  /** Saved emergency contacts read back as saved. */
  lemma ContactsSaveLoad(cs: seq<EmergencyContact>)
    ensures var v := LoadList(Some(Json(JArr(ContactsToJson(cs)))));
            v.JArr? && ContactsFromJson(v.items) == Some(cs)
  {
    ContactsRoundTrip(cs);
  }

  /** The earlier searches other than `query`, in their stored order. */
  function OtherSearches(query: string, items: seq<JValue>): seq<JValue>
  {
    Filter((x: JValue) => x != JStr(query), items)
  }

  function Min(a: nat, b: nat): nat
  {
    if a <= b then a else b
  }

  /**
   * `[query, ...history.filter(item => item !== query)].slice(0, 20)`: the
   * query first, then as many of the other earlier searches, newest first,
   * as fit in the limit; none is dropped while there is room.
   */
  function NewHistory(query: string, items: seq<JValue>): (r: seq<JValue>)
    ensures |r| == Min(HistoryLimit, 1 + |OtherSearches(query, items)|)
    ensures r[0] == JStr(query)
    ensures r[1..] == OtherSearches(query, items)[..|r| - 1]
    ensures forall i :: 1 <= i < |r| ==> r[i] != JStr(query)
    ensures Sublist(r[1..], items)
    ensures |items| < HistoryLimit ==> forall x :: x in items && x != JStr(query) ==> x in r
  {
    var kept := OtherSearches(query, items);
    var h := [JStr(query)] + kept;
    assert h[1..] == kept;
    assert forall i :: 1 <= i < |h| ==> h[i] == kept[i - 1] && h[i] in kept;
    if |h| > HistoryLimit then
      assert h[..HistoryLimit][1..] == kept[..HistoryLimit - 1];
      SublistPrefix(kept, items, HistoryLimit - 1);
      h[..HistoryLimit]
    else
      assert kept[..|h| - 1] == kept;
      h
  }

  /** The query occurs exactly once in the new history. */
  lemma HistoryHoldsQueryOnce(query: string, items: seq<JValue>)
    ensures multiset(NewHistory(query, items))[JStr(query)] == 1
  {
    var r := NewHistory(query, items);
    assert r == [r[0]] + r[1..];
    assert JStr(query) !in r[1..];
  }

  /** What `addSearchToHistory` writes; nothing when the stored history is not an array (the error is swallowed). */
  function HistoryWrite(e: Option<Entry>, query: string): (r: Option<JValue>)
    ensures r.Some? <==> LoadList(e).JArr?
    ensures r.Some? ==> r == Some(JArr(NewHistory(query, LoadList(e).items)))
  {
    match LoadList(e)
    case JArr(items) => Some(JArr(NewHistory(query, items)))
    case _ => None
  }

  /** What `addFavoriteShelter` writes: the list with the id appended, unless it is there already or the list is not an array. */
  function FavoriteAddWrite(e: Option<Entry>, id: string): (r: Option<JValue>)
    ensures r.Some? <==> LoadList(e).JArr? && JStr(id) !in LoadList(e).items
    ensures r.Some? ==> r.value.JArr? && r.value.items == LoadList(e).items + [JStr(id)]
  {
    match LoadList(e)
    case JArr(items) => if JStr(id) in items then None else Some(JArr(items + [JStr(id)]))
    case _ => None
  }

  /** What `removeFavoriteShelter` writes: the list without the id, even when it was absent. */
  function FavoriteRemoveWrite(e: Option<Entry>, id: string): (r: Option<JValue>)
    ensures r.Some? <==> LoadList(e).JArr?
    ensures r.Some? ==> && r.value.JArr?
                        && JStr(id) !in r.value.items
                        && Sublist(r.value.items, LoadList(e).items)
                        && forall x :: x in LoadList(e).items && x != JStr(id) ==> x in r.value.items
  {
    match LoadList(e)
    case JArr(items) => Some(JArr(Filter((x: JValue) => x != JStr(id), items)))
    case _ => None
  }

  /**
   * `isFavoriteShelter`: membership for an array; `includes` on a stored
   * string is a substring test; any other value throws and gives false.
   */
  predicate IsFavorite(e: Option<Entry>, id: string)
  {
    match LoadList(e)
    case JArr(items) => JStr(id) in items
    case JStr(s) => Contains(s, id)
    case _ => false
  }

  /** The entry after an optional write of JSON. */
  function Written(e: Option<Entry>, w: Option<JValue>): Option<Entry>
  {
    if w.Some? then Some(Json(w.value)) else e
  }

  /** Adding a favourite to an array makes it a favourite, and adding it again writes nothing. */
  lemma FavoriteAddIdempotent(e: Option<Entry>, id: string)
    requires LoadList(e).JArr?
    ensures var after := Written(e, FavoriteAddWrite(e, id));
            IsFavorite(after, id) && FavoriteAddWrite(after, id).None?
  {
    var after := Written(e, FavoriteAddWrite(e, id));
    if FavoriteAddWrite(e, id).Some? {
      var items := LoadList(e).items + [JStr(id)];
      assert items[|items| - 1] == JStr(id);
      assert LoadList(after) == JArr(items);
    }
  }

  /** Removing a favourite leaves it no favourite, and removes every occurrence while keeping the others counted as before. */
  lemma FavoriteRemoveAll(e: Option<Entry>, id: string)
    requires LoadList(e).JArr?
    ensures !IsFavorite(Written(e, FavoriteRemoveWrite(e, id)), id)
    ensures var rest := FavoriteRemoveWrite(e, id).value.items;
            forall x :: x != JStr(id) ==> multiset(rest)[x] == multiset(LoadList(e).items)[x]
  {
    var items := LoadList(e).items;
    forall x | x != JStr(id)
      ensures multiset(FavoriteRemoveWrite(e, id).value.items)[x] == multiset(items)[x]
    {
      FilterCount((y: JValue) => y != JStr(id), items, x);
    }
  }

  // ---------- Storage size ----------

  /** The UTF-8 length of one character, as `new Blob([text]).size` counts it. */
  function Utf8Width(c: char): nat
  {
    if c < '\U{80}' then 1 else if c < '\U{800}' then 2 else if c < '\U{10000}' then 3 else 4
  }

  function Utf8Length(s: string): (r: nat)
    ensures |s| <= r <= 4 * |s|
  {
    if s == [] then 0 else Utf8Width(s[0]) + Utf8Length(s[1..])
  }

  /** Sizes add up over concatenation. */
  lemma {:induction false} Utf8LengthConcat(a: string, b: string)
    ensures Utf8Length(a + b) == Utf8Length(a) + Utf8Length(b)
  {
    if a != [] {
      assert (a + b)[0] == a[0];
      assert (a + b)[1..] == a[1..] + b;
      Utf8LengthConcat(a[1..], b);
    } else {
      assert a + b == b;
    }
  }

  /** Plain ASCII text takes one byte per character. */
  lemma {:induction false} AsciiUtf8Length(s: string)
    requires forall i :: 0 <= i < |s| ==> s[i] < '\U{80}'
    ensures Utf8Length(s) == |s|
  {
    if s != [] {
      AsciiUtf8Length(s[1..]);
    }
  }

  /** The byte size of every stored entry whose key has the application prefix. */
  function AppSizes(kv: map<string, Entry>, text: Entry -> string): (r: map<string, nat>)
    ensures r.Keys == set k | k in kv && Prefix <= k
    ensures forall k :: k in r && kv[k].Empty? ==> r[k] == 0
  {
    map k | k in kv && Prefix <= k :: if kv[k].Empty? then 0 else Utf8Length(text(kv[k]))
  }

  /** The part of `m` whose keys lie in `keys`. */
  function Restrict(m: map<string, nat>, keys: set<string>): (r: map<string, nat>)
    ensures r.Keys == m.Keys * keys
    ensures forall k :: k in r ==> r[k] == m[k]
  {
    map k | k in m && k in keys :: m[k]
  }

  /** Taking one key out of the restriction takes its value out of the sum. */
  lemma RestrictRemove(m: map<string, nat>, keys: set<string>, k: string)
    requires k in keys
    ensures MapSum(Restrict(m, keys)) == (if k in m then m[k] else 0) + MapSum(Restrict(m, keys - {k}))
  {
    var r := Restrict(m, keys);
    if k in m {
      MapSumRemove(r, k);
      assert r - {k} == Restrict(m, keys - {k});
    } else {
      assert r == Restrict(m, keys - {k});
    }
  }

  // ---------- The store ----------

  /**
   * The device's key-value store. `failing` stands for a store whose every
   * call throws; what each operation then does is the source's catch branch.
   */
  class AsyncStorage {
    var kv: map<string, Entry>
    var failing: bool

    constructor(contents: map<string, Entry>, failing: bool)
      ensures kv == contents && this.failing == failing
    {
      kv := contents;
      this.failing := failing;
    }

    /** `getItem(key)` as the readers see it: a failing read ends like a missing key. */
    function Read(key: string): (r: Option<Entry>)
      reads this
      ensures r.Some? <==> !failing && key in kv
      ensures r.Some? ==> r.value == kv[key]
    {
      if !failing && key in kv then Some(kv[key]) else None
    }

    /** `saveShelters`: writes the envelope, then the update time; a failure is rethrown. */
    method SaveShelters(shelters: seq<Shelter>, now: int) returns (r: Outcome<StoreError>)
      modifies this`kv
      ensures failing ==> r == Fail(WriteFailed) && kv == old(kv)
      ensures !failing ==> r == Pass
                           && kv == old(kv)[SheltersKey := Json(Envelope(shelters, now))]
                                           [LastUpdateKey := Instant(now)]
    {
      if failing {
        return Fail(WriteFailed);
      }
      kv := kv[SheltersKey := Json(Envelope(shelters, now))];
      kv := kv[LastUpdateKey := Instant(now)];
      r := Pass;
    }

    method GetShelters(now: int) returns (r: seq<JValue>)
      ensures r == LoadShelterRecords(Read(SheltersKey), now)
    {
      r := LoadShelterRecords(Read(SheltersKey), now);
    }

    method GetLastUpdate() returns (r: Option<Moment>)
      ensures r == LoadLastUpdate(Read(LastUpdateKey))
    {
      r := LoadLastUpdate(Read(LastUpdateKey));
    }

    /** `saveLastLocation`: a failed write is swallowed. */
    method SaveLastLocation(c: Coordinates, now: int)
      modifies this`kv
      ensures failing ==> kv == old(kv)
      ensures !failing ==> kv == old(kv)[LastLocationKey := Json(LocationRecord(c, now))]
    {
      if !failing {
        kv := kv[LastLocationKey := Json(LocationRecord(c, now))];
      }
    }

    method GetLastLocation(now: int) returns (r: Option<StoredLocation>)
      ensures r == LoadLastLocation(Read(LastLocationKey), now)
    {
      r := LoadLastLocation(Read(LastLocationKey), now);
    }

    /** `saveSettings`: a failure is rethrown. */
    method SaveSettings(s: AppSettings) returns (r: Outcome<StoreError>)
      modifies this`kv
      ensures failing ==> r == Fail(WriteFailed) && kv == old(kv)
      ensures !failing ==> r == Pass && kv == old(kv)[SettingsKey := Json(SettingsToJson(s))]
    {
      if failing {
        return Fail(WriteFailed);
      }
      kv := kv[SettingsKey := Json(SettingsToJson(s))];
      r := Pass;
    }

    method GetSettings() returns (r: JValue)
      ensures r == LoadSettings(Read(SettingsKey))
    {
      r := LoadSettings(Read(SettingsKey));
    }

    /** `saveEmergencyContacts`: a failure is rethrown. */
    method SaveEmergencyContacts(cs: seq<EmergencyContact>) returns (r: Outcome<StoreError>)
      modifies this`kv
      ensures failing ==> r == Fail(WriteFailed) && kv == old(kv)
      ensures !failing ==> r == Pass && kv == old(kv)[EmergencyContactsKey := Json(JArr(ContactsToJson(cs)))]
    {
      if failing {
        return Fail(WriteFailed);
      }
      kv := kv[EmergencyContactsKey := Json(JArr(ContactsToJson(cs)))];
      r := Pass;
    }

    method GetEmergencyContacts() returns (r: JValue)
      ensures r == LoadList(Read(EmergencyContactsKey))
    {
      r := LoadList(Read(EmergencyContactsKey));
    }

    /** `addSearchToHistory`: errors are swallowed. */
    method AddSearchToHistory(query: string)
      modifies this`kv
      ensures failing ==> kv == old(kv)
      ensures !failing ==> kv == WriteOpt(old(kv), SearchHistoryKey, HistoryWrite(old(Read(SearchHistoryKey)), query))
    {
      if !failing {
        kv := WriteOpt(kv, SearchHistoryKey, HistoryWrite(Read(SearchHistoryKey), query));
      }
    }

    method GetSearchHistory() returns (r: JValue)
      ensures r == LoadList(Read(SearchHistoryKey))
    {
      r := LoadList(Read(SearchHistoryKey));
    }

    /** `clearSearchHistory`: errors are swallowed. */
    method ClearSearchHistory()
      modifies this`kv
      ensures failing ==> kv == old(kv)
      ensures !failing ==> kv == old(kv) - {SearchHistoryKey}
    {
      if !failing {
        kv := kv - {SearchHistoryKey};
      }
    }

    /** `addFavoriteShelter`: errors are swallowed. */
    method AddFavoriteShelter(id: string)
      modifies this`kv
      ensures failing ==> kv == old(kv)
      ensures !failing ==> kv == WriteOpt(old(kv), FavoriteSheltersKey, FavoriteAddWrite(old(Read(FavoriteSheltersKey)), id))
    {
      if !failing {
        var favorites := LoadList(Read(FavoriteSheltersKey));
        if favorites.JArr? && JStr(id) !in favorites.items {
          favorites := JArr(favorites.items + [JStr(id)]);
          kv := kv[FavoriteSheltersKey := Json(favorites)];
        }
      }
    }

    /** `removeFavoriteShelter`: errors are swallowed. */
    method RemoveFavoriteShelter(id: string)
      modifies this`kv
      ensures failing ==> kv == old(kv)
      ensures !failing ==> kv == WriteOpt(old(kv), FavoriteSheltersKey, FavoriteRemoveWrite(old(Read(FavoriteSheltersKey)), id))
    {
      if !failing {
        kv := WriteOpt(kv, FavoriteSheltersKey, FavoriteRemoveWrite(Read(FavoriteSheltersKey), id));
      }
    }

    method GetFavoriteShelters() returns (r: JValue)
      ensures r == LoadList(Read(FavoriteSheltersKey))
    {
      r := LoadList(Read(FavoriteSheltersKey));
    }

    method IsFavoriteShelter(id: string) returns (r: bool)
      ensures r == IsFavorite(Read(FavoriteSheltersKey), id)
    {
      r := IsFavorite(Read(FavoriteSheltersKey), id);
    }

    /** `clearAllData`: removes every application key; a failure is rethrown. */
    method ClearAllData() returns (r: Outcome<StoreError>)
      modifies this`kv
      ensures failing ==> r == Fail(WriteFailed) && kv == old(kv)
      ensures !failing ==> r == Pass && kv == old(kv) - AppKeys
    {
      if failing {
        return Fail(WriteFailed);
      }
      kv := kv - AppKeys;
      r := Pass;
    }

    /**
     * `getStorageSize`: the UTF-8 bytes of every entry whose key has the
     * application prefix, visiting the keys in no particular order; `text`
     * gives the stored text of an entry. A failing store counts 0.
     */
    method GetStorageSize(text: Entry -> string) returns (total: nat)
      ensures failing ==> total == 0
      ensures !failing ==> total == MapSum(AppSizes(kv, text))
    {
      if failing {
        return 0;
      }
      ghost var sizes := AppSizes(kv, text);
      var remaining := kv.Keys;
      total := 0;
      assert Restrict(sizes, remaining) == sizes;
      while remaining != {}
        invariant remaining <= kv.Keys
        invariant total + MapSum(Restrict(sizes, remaining)) == MapSum(sizes)
        decreases |remaining|
      {
        var k :| k in remaining;
        RestrictRemove(sizes, remaining, k);
        if Prefix <= k && !kv[k].Empty? {
          total := total + Utf8Length(text(kv[k]));
        }
        remaining := remaining - {k};
      }
      assert Restrict(sizes, remaining) == map[];
    }
  }

  /** The map after an optional write of JSON under `key`. */
  function WriteOpt(kv: map<string, Entry>, key: string, w: Option<JValue>): (r: map<string, Entry>)
    ensures w.None? ==> r == kv
    ensures w.Some? ==> r == kv[key := Json(w.value)]
  {
    if w.Some? then kv[key := Json(w.value)] else kv
  }
}
