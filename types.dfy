/**
 * The records of the shelter application (Shelter, Coordinates,
 * EmergencyContact, AppSettings, SearchFilters) and the JSON objects
 * `JSON.stringify` turns them into, with the typed reading of those objects.
 */
module ShelterTypes {
  import opened Wrappers
  import opened Json

  datatype Coordinates = Coordinates(latitude: real, longitude: real)

  /**
   * A validated shelter. `distance` (km from the user) is optional and only
   * set by callers that annotate shelters; the four provenance fields are
   * passed through from the raw record unchecked.
   */
  datatype Shelter = Shelter(
    id: string,
    name: string,
    address: string,
    operator: string,
    shelterType: string,
    category: string,
    latitude: real,
    longitude: real,
    confidence: real,
    shortCategory: string,
    city: string,
    hasCoordinates: bool,
    distance: Option<real>,
    geocodingStatus: JValue,
    formattedAddress: JValue,
    opencageFormattedAddress: JValue,
    formattedQuery: JValue)

  datatype EmergencyContact = EmergencyContact(id: string, name: string, phone: string, relationship: string)

  datatype Language = Bg | En

  datatype AppSettings = AppSettings(
    enableNotifications: bool,
    enableVoiceNavigation: bool,
    preferredLanguage: Language,
    maxSearchDistance: real,
    autoDownloadMaps: bool,
    emergencyContacts: seq<EmergencyContact>)

  /** Optional query criteria; an absent or falsy criterion is not applied. */
  datatype SearchFilters = SearchFilters(
    maxDistance: Option<real>,
    shelterType: Option<string>,
    category: Option<string>,
    city: Option<string>)

  // ---------- JSON form ----------

  function CoordinatesToJson(c: Coordinates): JValue
  {
    JObj(map["latitude" := JNum(c.latitude), "longitude" := JNum(c.longitude)])
  }

  function OptionalNumber(d: Option<real>): JValue
  {
    match d
    case Some(x) => JNum(x)
    case None => JUndefined
  }

  function ShelterToJson(s: Shelter): JValue
  {
    JObj(map[
      "id" := JStr(s.id),
      "name" := JStr(s.name),
      "address" := JStr(s.address),
      "operator" := JStr(s.operator),
      "type" := JStr(s.shelterType),
      "category" := JStr(s.category),
      "latitude" := JNum(s.latitude),
      "longitude" := JNum(s.longitude),
      "confidence" := JNum(s.confidence),
      "short_category" := JStr(s.shortCategory),
      "city" := JStr(s.city),
      "has_coordinates" := JBool(s.hasCoordinates),
      "distance" := OptionalNumber(s.distance),
      "geocoding_status" := s.geocodingStatus,
      "formatted_address" := s.formattedAddress,
      "opencage_formatted_address" := s.opencageFormattedAddress,
      "formatted_query" := s.formattedQuery])
  }

  function SheltersToJson(ss: seq<Shelter>): (r: seq<JValue>)
    ensures |r| == |ss|
    ensures forall i :: 0 <= i < |ss| ==> r[i] == ShelterToJson(ss[i])
  {
    if ss == [] then [] else [ShelterToJson(ss[0])] + SheltersToJson(ss[1..])
  }

  function ContactToJson(c: EmergencyContact): JValue
  {
    JObj(map["id" := JStr(c.id), "name" := JStr(c.name), "phone" := JStr(c.phone),
             "relationship" := JStr(c.relationship)])
  }

  function ContactsToJson(cs: seq<EmergencyContact>): (r: seq<JValue>)
    ensures |r| == |cs|
  {
    if cs == [] then [] else [ContactToJson(cs[0])] + ContactsToJson(cs[1..])
  }

  function LanguageToJson(l: Language): JValue
  {
    match l
    case Bg => JStr("bg")
    case En => JStr("en")
  }

  function SettingsFields(s: AppSettings): map<string, JValue>
  {
    map[
      "enableNotifications" := JBool(s.enableNotifications),
      "enableVoiceNavigation" := JBool(s.enableVoiceNavigation),
      "preferredLanguage" := LanguageToJson(s.preferredLanguage),
      "maxSearchDistance" := JNum(s.maxSearchDistance),
      "autoDownloadMaps" := JBool(s.autoDownloadMaps),
      "emergencyContacts" := JArr(ContactsToJson(s.emergencyContacts))]
  }

  function SettingsToJson(s: AppSettings): JValue
  {
    JObj(SettingsFields(s))
  }

  // ---------- Typed reading (the TypeScript type assertion made explicit) ----------

  function StrField(v: JValue, key: string): Option<string>
  {
    match Get(v, key)
    case JStr(s) => Some(s)
    case _ => None
  }

  function NumField(v: JValue, key: string): Option<real>
  {
    match Get(v, key)
    case JNum(n) => Some(n)
    case _ => None
  }

  function BoolField(v: JValue, key: string): Option<bool>
  {
    match Get(v, key)
    case JBool(b) => Some(b)
    case _ => None
  }

  /** Reads a Shelter back when every declared field has its declared type. */
  function ShelterFromJson(v: JValue): Option<Shelter>
  {
    var id := StrField(v, "id");
    var name := StrField(v, "name");
    var address := StrField(v, "address");
    var operator := StrField(v, "operator");
    var shelterType := StrField(v, "type");
    var category := StrField(v, "category");
    var lat := NumField(v, "latitude");
    var lon := NumField(v, "longitude");
    var confidence := NumField(v, "confidence");
    var shortCategory := StrField(v, "short_category");
    var city := StrField(v, "city");
    var hasCoordinates := BoolField(v, "has_coordinates");
    var distance := Get(v, "distance");
    if id.Some? && name.Some? && address.Some? && operator.Some? && shelterType.Some?
       && category.Some? && lat.Some? && lon.Some? && confidence.Some? && shortCategory.Some?
       && city.Some? && hasCoordinates.Some? && (distance.JNum? || distance.JUndefined?)
    then
      Some(Shelter(id.value, name.value, address.value, operator.value, shelterType.value,
        category.value, lat.value, lon.value, confidence.value, shortCategory.value, city.value,
        hasCoordinates.value, if distance.JNum? then Some(distance.n) else None,
        Get(v, "geocoding_status"), Get(v, "formatted_address"),
        Get(v, "opencage_formatted_address"), Get(v, "formatted_query")))
    else None
  }

  function ContactFromJson(v: JValue): Option<EmergencyContact>
  {
    var id := StrField(v, "id");
    var name := StrField(v, "name");
    var phone := StrField(v, "phone");
    var relationship := StrField(v, "relationship");
    if id.Some? && name.Some? && phone.Some? && relationship.Some? then
      Some(EmergencyContact(id.value, name.value, phone.value, relationship.value))
    else None
  }

  function ContactsFromJson(vs: seq<JValue>): Option<seq<EmergencyContact>>
  {
    if vs == [] then Some([])
    else match (ContactFromJson(vs[0]), ContactsFromJson(vs[1..]))
      case (Some(c), Some(cs)) => Some([c] + cs)
      case _ => None
  }

  function LanguageFromJson(v: JValue): Option<Language>
  {
    if v == JStr("bg") then Some(Bg) else if v == JStr("en") then Some(En) else None
  }

  function SettingsFromJson(v: JValue): Option<AppSettings>
  {
    var notifications := BoolField(v, "enableNotifications");
    var voice := BoolField(v, "enableVoiceNavigation");
    var language := LanguageFromJson(Get(v, "preferredLanguage"));
    var maxDistance := NumField(v, "maxSearchDistance");
    var autoDownload := BoolField(v, "autoDownloadMaps");
    var contacts := Get(v, "emergencyContacts");
    if notifications.Some? && voice.Some? && language.Some?
       && maxDistance.Some? && autoDownload.Some? && contacts.JArr?
       && ContactsFromJson(contacts.items).Some?
    then
      Some(AppSettings(notifications.value, voice.value,
        language.value,
        maxDistance.value, autoDownload.value, ContactsFromJson(contacts.items).value))
    else None
  }

  // ---------- Round trips ----------

  // The property lookups on the encoded shelter, a few keys at a time.

  lemma ShelterJsonNames(s: Shelter)
    ensures var v := ShelterToJson(s);
      Get(v, "id") == JStr(s.id) && Get(v, "name") == JStr(s.name)
      && Get(v, "address") == JStr(s.address) && Get(v, "operator") == JStr(s.operator)
  {
  }

  lemma ShelterJsonKinds(s: Shelter)
    ensures var v := ShelterToJson(s);
      Get(v, "type") == JStr(s.shelterType) && Get(v, "category") == JStr(s.category)
      && Get(v, "short_category") == JStr(s.shortCategory) && Get(v, "city") == JStr(s.city)
  {
  }

  lemma ShelterJsonNumbers(s: Shelter)
    ensures var v := ShelterToJson(s);
      Get(v, "latitude") == JNum(s.latitude) && Get(v, "longitude") == JNum(s.longitude)
      && Get(v, "confidence") == JNum(s.confidence)
      && Get(v, "has_coordinates") == JBool(s.hasCoordinates)
  {
  }

  lemma ShelterJsonExtras(s: Shelter)
    ensures var v := ShelterToJson(s);
      Get(v, "distance") == OptionalNumber(s.distance)
      && Get(v, "geocoding_status") == s.geocodingStatus
      && Get(v, "formatted_address") == s.formattedAddress
      && Get(v, "opencage_formatted_address") == s.opencageFormattedAddress
      && Get(v, "formatted_query") == s.formattedQuery
  {
  }

  /** Any object whose properties hold the fields of `s` with their declared types reads back as `s`. */
  lemma ShelterFromFields(v: JValue, s: Shelter)
    requires Get(v, "id") == JStr(s.id) && Get(v, "name") == JStr(s.name)
    requires Get(v, "address") == JStr(s.address) && Get(v, "operator") == JStr(s.operator)
    requires Get(v, "type") == JStr(s.shelterType) && Get(v, "category") == JStr(s.category)
    requires Get(v, "short_category") == JStr(s.shortCategory) && Get(v, "city") == JStr(s.city)
    requires Get(v, "latitude") == JNum(s.latitude) && Get(v, "longitude") == JNum(s.longitude)
    requires Get(v, "confidence") == JNum(s.confidence)
    requires Get(v, "has_coordinates") == JBool(s.hasCoordinates)
    requires Get(v, "distance") == OptionalNumber(s.distance)
    requires Get(v, "geocoding_status") == s.geocodingStatus
    requires Get(v, "formatted_address") == s.formattedAddress
    requires Get(v, "opencage_formatted_address") == s.opencageFormattedAddress
    requires Get(v, "formatted_query") == s.formattedQuery
    ensures ShelterFromJson(v) == Some(s)
  {
  }

  lemma {:induction false} ShelterRoundTrip(s: Shelter)
    ensures ShelterFromJson(ShelterToJson(s)) == Some(s)
  {
    ShelterJsonNames(s);
    ShelterJsonKinds(s);
    ShelterJsonNumbers(s);
    ShelterJsonExtras(s);
    ShelterFromFields(ShelterToJson(s), s);
  }

  lemma ContactRoundTrip(c: EmergencyContact)
    ensures ContactFromJson(ContactToJson(c)) == Some(c)
  {
    var v := ContactToJson(c);
    assert Get(v, "id") == JStr(c.id) && Get(v, "name") == JStr(c.name);
    assert Get(v, "phone") == JStr(c.phone) && Get(v, "relationship") == JStr(c.relationship);
  }

  lemma {:induction false} ContactsRoundTrip(cs: seq<EmergencyContact>)
    ensures ContactsFromJson(ContactsToJson(cs)) == Some(cs)
  {
    if cs != [] {
      ContactRoundTrip(cs[0]);
      ContactsRoundTrip(cs[1..]);
      assert ContactsToJson(cs)[1..] == ContactsToJson(cs[1..]);
      assert [cs[0]] + cs[1..] == cs;
    }
  }

  lemma SettingsJsonFields(s: AppSettings)
    ensures var v := SettingsToJson(s);
      && Get(v, "enableNotifications") == JBool(s.enableNotifications)
      && Get(v, "enableVoiceNavigation") == JBool(s.enableVoiceNavigation)
      && Get(v, "preferredLanguage") == LanguageToJson(s.preferredLanguage)
      && Get(v, "maxSearchDistance") == JNum(s.maxSearchDistance)
      && Get(v, "autoDownloadMaps") == JBool(s.autoDownloadMaps)
      && Get(v, "emergencyContacts") == JArr(ContactsToJson(s.emergencyContacts))
  {
  }

  lemma SettingsFromFields(v: JValue, s: AppSettings)
    requires Get(v, "enableNotifications") == JBool(s.enableNotifications)
    requires Get(v, "enableVoiceNavigation") == JBool(s.enableVoiceNavigation)
    requires Get(v, "preferredLanguage") == LanguageToJson(s.preferredLanguage)
    requires Get(v, "maxSearchDistance") == JNum(s.maxSearchDistance)
    requires Get(v, "autoDownloadMaps") == JBool(s.autoDownloadMaps)
    requires Get(v, "emergencyContacts") == JArr(ContactsToJson(s.emergencyContacts))
    requires ContactsFromJson(ContactsToJson(s.emergencyContacts)) == Some(s.emergencyContacts)
    ensures SettingsFromJson(v) == Some(s)
  {
    assert LanguageFromJson(LanguageToJson(s.preferredLanguage)) == Some(s.preferredLanguage);
  }

  lemma {:induction false} SettingsRoundTrip(s: AppSettings)
    ensures SettingsFromJson(SettingsToJson(s)) == Some(s)
  {
    SettingsJsonFields(s);
    ContactsRoundTrip(s.emergencyContacts);
    SettingsFromFields(SettingsToJson(s), s);
  }
}
