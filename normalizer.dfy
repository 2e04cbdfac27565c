/**
 * The record normaliser of utils/storage.ts: `convertRawShelterData` turns
 * one raw JSON record into a Shelter or rejects it, and `extractCity`
 * derives the city name from a city or address text.
 */
module Normalizer {
  import opened Wrappers
  import opened Text
  import opened Json
  import opened ShelterTypes
  import opened Location

  const UnknownCity := "Неизвестен град"
  const UnknownName := "Неизвестно име"
  const UnknownAddress := "Неизвестен адрес"
  const UnknownOperator := "Неизвестен оператор"
  const DefaultType := "Скривалище"
  const UndefinedCategory := "Неопределена"

  // ---------- extractCity ----------

  /** The atom `гр\.` of the city pattern, case-insensitive, occurs at offset `i`. */
  predicate MarkerAt(s: string, i: nat)
  {
    i + 3 <= |s| && s[i] in {'г', 'Г'} && s[i + 1] in {'р', 'Р'} && s[i + 2] == '.'
  }

  /**
   * `/гр\.\s*([^,]+)/i` matches at offset `i`: the marker, then at least one
   * character that is not a comma (`\s*` may match nothing, so a space
   * there also satisfies `[^,]+`).
   */
  predicate CityPatternAt(s: string, i: nat)
  {
    MarkerAt(s, i) && i + 3 < |s| && s[i + 3] != ','
  }

  /** The leftmost offset at or after `from` where the pattern matches; the pattern is not anchored. */
  function FindCityPattern(s: string, from: nat): (r: Option<nat>)
    ensures r.Some? ==> from <= r.value && CityPatternAt(s, r.value)
    ensures r.Some? ==> forall j :: from <= j < r.value ==> !CityPatternAt(s, j)
    ensures r.None? ==> forall j :: from <= j ==> !CityPatternAt(s, j)
    decreases |s| - from
  {
    if from + 3 >= |s| then None
    else if CityPatternAt(s, from) then Some(from)
    else FindCityPattern(s, from + 1)
  }

  /** `s.replace(/^гр\.\s*\/i, '')`. */
  function StripCityPrefix(s: string): string
  {
    if MarkerAt(s, 0) then TrimStart(s[3..]) else s
  }

  /**
   * `extractCity`: an absent or empty value gives the unknown-city text;
   * otherwise the city is taken from the trimmed text of the value.
   */
  function ExtractCity(cityOrAddress: JValue): (r: string)
    ensures !Truthy(cityOrAddress) ==> r == UnknownCity
    ensures Truthy(cityOrAddress) ==> r == CityFromText(Trim(ToStr(cityOrAddress)))
    ensures ',' !in r
    ensures IsTrimmed(r)
  {
    if !Truthy(cityOrAddress) then UnknownCity
    else CityFromText(Trim(ToStr(cityOrAddress)))
  }

  /**
   * The city inside a trimmed text: what follows the first match of the
   * city pattern up to the next comma; else a short text without commas as
   * it is; else the part before the first comma without a leading marker.
   */
  function CityFromText(str: string): (r: string)
    requires IsTrimmed(str)
    ensures ',' !in r
    ensures IsTrimmed(r)
    ensures FindCityPattern(str, 0).Some? ==>
              r == Trim(TakeUntil(str[FindCityPattern(str, 0).value + 3..], ','))
    ensures ',' !in str && |str| < 50 && FindCityPattern(str, 0).None? ==> r == str
    ensures FindCityPattern(str, 0).None? && !(',' !in str && |str| < 50) ==>
              r == StripCityPrefix(Trim(TakeUntil(str, ',')))
  {
    match FindCityPattern(str, 0)
    case Some(i) =>
      var captured := TakeUntil(str[i + 3..], ',');
      TrimKeepsAbsent(captured, ',');
      Trim(captured)
    case None =>
      if ',' !in str && |str| < 50 then str
      else
        var first := TakeUntil(str, ',');
        TrimKeepsAbsent(first, ',');
        StrippedCityShape(Trim(first));
        StripCityPrefix(Trim(first))
  }

  /** Removing the marker keeps a trimmed, comma-free text trimmed and comma-free. */
  lemma {:induction false} StrippedCityShape(t: string)
    requires IsTrimmed(t) && ',' !in t
    ensures IsTrimmed(StripCityPrefix(t)) && ',' !in StripCityPrefix(t)
  {
    if MarkerAt(t, 0) {
      var rest := t[3..];
      var r := TrimStart(rest);
      assert r == rest[|rest| - |r|..];
      if r != [] {
        assert r[|r| - 1] == t[|t| - 1];
      }
      assert forall k :: 0 <= k < |r| ==> r[k] == t[3 + |rest| - |r| + k];
    }
  }

  /** With the pattern matching first at offset `i`, the city is what follows the marker, up to a comma. */
  lemma CityAfterMarker(str: string, i: nat)
    requires IsTrimmed(str)
    requires CityPatternAt(str, i)
    requires forall j :: 0 <= j < i ==> !CityPatternAt(str, j)
    ensures CityFromText(str) == Trim(TakeUntil(str[i + 3..], ','))
  {
    assert FindCityPattern(str, 0) == Some(i);
  }

  /** The city pattern need not start the text: a marker after a comma is found too. */
  lemma UnanchoredCityPattern()
    ensures CityFromText("ж.к. Младост, гр. Варна") == "Варна"
  {
    var str := "ж.к. Младост, гр. Варна";
    assert CityFromText(str) == Trim(TakeUntil(" Варна", ',')) by {
      DistrictAddressShape(str);
      CityAfterMarker(str, 14);
    }
    TrimVarna();
  }

  /** The facts about one address text that place its marker at offset 14. */
  lemma DistrictAddressShape(str: string)
    requires str == "ж.к. Младост, гр. Варна"
    ensures IsTrimmed(str)
    ensures CityPatternAt(str, 14)
    ensures forall j :: 0 <= j < 14 ==> !CityPatternAt(str, j)
    ensures str[17..] == " Варна"
  {
    assert str[0] == 'ж' && str[|str| - 1] == 'а';
    assert forall j :: 0 <= j < 14 ==> str[j] != 'г' && str[j] != 'Г';
  }

  lemma TrimVarna()
    ensures Trim(TakeUntil(" Варна", ',')) == "Варна"
  {
    var w := "Варна";
    assert IsTrimmed(w) by {
      assert w[0] == 'В' && w[|w| - 1] == 'а';
    }
    TakeUntilAbsent(" Варна", ',');
    assert " Варна" == [' '] + w;
    TrimStartOneSpace(w);
  }

  lemma TrimStartOneSpace(w: string)
    requires w != [] && IsTrimmed(w)
    ensures Trim([' '] + w) == w
  {
    var s := [' '] + w;
    assert s[1..] == w;
    assert TrimStart(w) == w;
    assert TrimStart(s) == w;
    TrimAfterTrimStart(s);
    TrimOfTrimmed(w);
  }

  /**
   * In the comma branch the marker removal only ever meets a bare marker:
   * a first part that starts with the marker and goes on would have been
   * caught by the city pattern. So the city is the trimmed first part, or
   * the empty text when that part is the marker alone.
   */
  lemma FirstPartCity(str: string)
    requires IsTrimmed(str) && !CityPatternAt(str, 0)
    ensures var part := Trim(TakeUntil(str, ','));
            StripCityPrefix(part) == if MarkerAt(part, 0) then "" else part
  {
    FirstPartPrefix(str);
    StripFirstPart(str, Trim(TakeUntil(str, ',')));
  }

  /** The trimmed first part of a trimmed text is a comma-free prefix of it. */
  lemma FirstPartPrefix(str: string)
    requires IsTrimmed(str)
    ensures Trim(TakeUntil(str, ',')) <= str && ',' !in Trim(TakeUntil(str, ','))
  {
    var first := TakeUntil(str, ',');
    TrimOfPrefix(str, first);
    TrimKeepsAbsent(first, ',');
  }

  /** Removing the marker from such a prefix, where the pattern does not match, leaves it or nothing. */
  lemma StripFirstPart(str: string, part: string)
    requires part <= str && ',' !in part && !CityPatternAt(str, 0)
    ensures StripCityPrefix(part) == if MarkerAt(part, 0) then "" else part
  {
    if MarkerAt(part, 0) {
      MarkedPartIsBare(str, part);
      assert part[3..] == [];
    }
  }

  /** A comma-free prefix that starts with the marker, where the pattern does not match, is the marker alone. */
  lemma MarkedPartIsBare(str: string, part: string)
    requires part <= str && ',' !in part
    requires MarkerAt(part, 0) && !CityPatternAt(str, 0)
    ensures |part| == 3
  {
  }

  /** A text without the letter of the marker has no city pattern. */
  lemma NoMarkerLetter(s: string)
    requires 'г' !in s && 'Г' !in s
    ensures FindCityPattern(s, 0).None?
  {
  }

  /** A street address with no city marker yields its first part. */
  lemma StreetAddressCity()
    ensures CityFromText("бул. Витоша 1, София") == "бул. Витоша 1"
  {
    var str := "бул. Витоша 1, София";
    var part := "бул. Витоша 1";
    StreetAddressTrimmed(str, part);
    StreetAddressLetters(str);
    StreetAddressComma(str, part);
    NoMarkerLetter(str);
    TakeUntilAt(str, ',', 13);
    TrimOfTrimmed(part);
    FirstPartCity(str);
  }

  /** The facts about one street address that its city depends on. */
  lemma StreetAddressTrimmed(str: string, part: string)
    requires str == "бул. Витоша 1, София" && part == "бул. Витоша 1"
    ensures IsTrimmed(str) && IsTrimmed(part) && !MarkerAt(part, 0)
  {
    assert str[0] == 'б' && str[|str| - 1] == 'я';
    assert part[0] == 'б' && part[|part| - 1] == '1';
  }

  lemma StreetAddressLetters(str: string)
    requires str == "бул. Витоша 1, София"
    ensures 'г' !in str && 'Г' !in str
  {
  }

  lemma StreetAddressComma(str: string, part: string)
    requires str == "бул. Витоша 1, София" && part == "бул. Витоша 1"
    ensures str[..13] == part && str[13] == ',' && ',' !in part
  {
  }

  /** A first part that is the marker alone is removed entirely, leaving an empty city. */
  lemma BareMarkerPartRemoved()
    ensures CityFromText("гр., София") == ""
  {
    var str := "гр., София";
    assert IsTrimmed(str) by {
      assert str[0] == 'г' && str[|str| - 1] == 'я';
    }
    assert !CityPatternAt(str, 0);
    assert forall j :: 1 <= j < |str| ==> str[j] != 'г' && str[j] != 'Г';
    assert FindCityPattern(str, 0).None?;
    assert str[..3] == "гр." && str[3] == ',';
    TakeUntilAt(str, ',', 3);
    assert IsTrimmed("гр.") by {
      assert "гр."[0] == 'г' && "гр."[2] == '.';
    }
    TrimOfTrimmed("гр.");
    FirstPartCity(str);
  }

  // ---------- convertRawShelterData ----------

  /** The four fields the normaliser insists on are all truthy (so a number 0 counts as missing). */
  predicate HasRequiredFields(raw: JValue)
  {
    && Truthy(raw)
    && Truthy(Get(raw, "id")) && Truthy(Get(raw, "name"))
    && Truthy(Get(raw, "latitude")) && Truthy(Get(raw, "longitude"))
  }

  /** `Number(latitude)` and `Number(longitude)` are numbers in range. */
  predicate HasUsableCoordinates(raw: JValue)
  {
    var lat := ToNumber(Get(raw, "latitude"));
    var lon := ToNumber(Get(raw, "longitude"));
    lat.Some? && lon.Some? && InRange(Coordinates(lat.value, lon.value))
  }

  /** `String(v || fallback).trim()`. */
  function TextOr(v: JValue, fallback: string): (r: string)
    ensures IsTrimmed(r)
  {
    Trim(ToStr(Or(v, JStr(fallback))))
  }

  /** `Number(v) || 0`. */
  function NumberOrZero(v: JValue): real
  {
    match ToNumber(v)
    case Some(x) => x
    case None => 0.0
  }

  /**
   * `convertRawShelterData`: rejects a record lacking a truthy id, name,
   * latitude or longitude, or whose coordinates are NaN or out of range;
   * otherwise builds the Shelter with trimmed texts and defaults.
   */
  function ConvertRawShelterData(raw: JValue): (r: Option<Shelter>)
    ensures r.Some? <==> HasRequiredFields(raw) && HasUsableCoordinates(raw)
    ensures r.Some? ==>
              && r.value.hasCoordinates
              && InRange(Coordinates(r.value.latitude, r.value.longitude))
              && ToNumber(Get(raw, "latitude")) == Some(r.value.latitude)
              && ToNumber(Get(raw, "longitude")) == Some(r.value.longitude)
              && r.value.id == ToStr(Get(raw, "id"))
              && r.value.distance == None
    ensures r.Some? ==>
              && IsTrimmed(r.value.name) && IsTrimmed(r.value.address)
              && IsTrimmed(r.value.operator) && IsTrimmed(r.value.shelterType)
              && IsTrimmed(r.value.category) && IsTrimmed(r.value.shortCategory)
              && IsTrimmed(r.value.city) && ',' !in r.value.city
  {
    if !HasRequiredFields(raw) then None
    else
      var lat := ToNumber(Get(raw, "latitude"));
      var lon := ToNumber(Get(raw, "longitude"));
      if lat.None? || lon.None? || !InRange(Coordinates(lat.value, lon.value)) then None
      else
        Some(Shelter(
          id := ToStr(Get(raw, "id")),
          name := TextOr(Get(raw, "name"), UnknownName),
          address := TextOr(Get(raw, "address"), UnknownAddress),
          operator := TextOr(Get(raw, "operator"), UnknownOperator),
          shelterType := TextOr(Get(raw, "type"), DefaultType),
          category := TextOr(Or(Get(raw, "category"), Get(raw, "short_category")), UndefinedCategory),
          latitude := lat.value,
          longitude := lon.value,
          confidence := NumberOrZero(Get(raw, "confidence")),
          shortCategory := TextOr(Or(Get(raw, "short_category"), Get(raw, "category")), UndefinedCategory),
          city := ExtractCity(Or(Or(Get(raw, "city"), Get(raw, "address")), JStr(""))),
          hasCoordinates := true,
          distance := None,
          geocodingStatus := Get(raw, "geocoding_status"),
          formattedAddress := Get(raw, "formatted_address"),
          opencageFormattedAddress := Get(raw, "opencage_formatted_address"),
          formattedQuery := Get(raw, "formatted_query")))
  }

  /** The fallback texts contain no surrounding space. */
  lemma DefaultsTrimmed()
    ensures IsTrimmed(UnknownAddress) && IsTrimmed(UnknownOperator)
    ensures IsTrimmed(DefaultType) && IsTrimmed(UndefinedCategory)
  {
    assert UnknownAddress[0] == 'Н' && UnknownAddress[|UnknownAddress| - 1] == 'с';
    assert UnknownOperator[0] == 'Н' && UnknownOperator[|UnknownOperator| - 1] == 'р';
    assert DefaultType[0] == 'С' && DefaultType[|DefaultType| - 1] == 'е';
    assert UndefinedCategory[0] == 'Н' && UndefinedCategory[|UndefinedCategory| - 1] == 'а';
  }

  /** A truthy value gives its own trimmed text, a falsy one the fallback. */
  lemma TextOrCases(v: JValue, fallback: string)
    requires IsTrimmed(fallback)
    ensures Truthy(v) ==> TextOr(v, fallback) == Trim(ToStr(v))
    ensures !Truthy(v) ==> TextOr(v, fallback) == fallback
  {
    if !Truthy(v) {
      assert Or(v, JStr(fallback)) == JStr(fallback);
      assert ToStr(JStr(fallback)) == fallback;
      TrimOfTrimmed(fallback);
    }
  }

  /**
   * The descriptive fields of an accepted record: the name is the record's
   * own trimmed name (it is required, so its fallback never applies), and
   * the address, operator and type fall back to their defaults when falsy.
   */
  lemma ConvertedTexts(raw: JValue)
    requires ConvertRawShelterData(raw).Some?
    ensures var s := ConvertRawShelterData(raw).value;
            && s.name == Trim(ToStr(Get(raw, "name")))
            && s.address == (if Truthy(Get(raw, "address")) then Trim(ToStr(Get(raw, "address"))) else UnknownAddress)
            && s.operator == (if Truthy(Get(raw, "operator")) then Trim(ToStr(Get(raw, "operator"))) else UnknownOperator)
            && s.shelterType == (if Truthy(Get(raw, "type")) then Trim(ToStr(Get(raw, "type"))) else DefaultType)
  {
    DefaultsTrimmed();
    TextOrCases(Get(raw, "address"), UnknownAddress);
    TextOrCases(Get(raw, "operator"), UnknownOperator);
    TextOrCases(Get(raw, "type"), DefaultType);
  }

  /** `category` and `short_category` each fall back to the other, then to "Неопределена". */
  lemma ConvertedCategories(raw: JValue)
    requires ConvertRawShelterData(raw).Some?
    ensures var s := ConvertRawShelterData(raw).value;
            var category := Get(raw, "category");
            var short := Get(raw, "short_category");
            && s.category == (if Truthy(category) then Trim(ToStr(category))
                              else if Truthy(short) then Trim(ToStr(short)) else UndefinedCategory)
            && s.shortCategory == (if Truthy(short) then Trim(ToStr(short))
                                   else if Truthy(category) then Trim(ToStr(category)) else UndefinedCategory)
  {
    DefaultsTrimmed();
    var category := Get(raw, "category");
    var short := Get(raw, "short_category");
    TextOrCases(Or(category, short), UndefinedCategory);
    TextOrCases(Or(short, category), UndefinedCategory);
  }

  /**
   * The confidence is `Number(confidence)`, or 0 when that is NaN, and the
   * geocoding fields are carried over as they are.
   */
  lemma ConvertedConfidence(raw: JValue)
    requires ConvertRawShelterData(raw).Some?
    ensures var s := ConvertRawShelterData(raw).value;
            && (ToNumber(Get(raw, "confidence")).None? ==> s.confidence == 0.0)
            && (forall x :: ToNumber(Get(raw, "confidence")) == Some(x) ==> s.confidence == x)
            && s.geocodingStatus == Get(raw, "geocoding_status")
            && s.formattedAddress == Get(raw, "formatted_address")
            && s.opencageFormattedAddress == Get(raw, "opencage_formatted_address")
            && s.formattedQuery == Get(raw, "formatted_query")
  {
    var s := ConvertRawShelterData(raw).value;
    assert s.confidence == NumberOrZero(Get(raw, "confidence"));
  }

  /** The value `city || address || ''` picks the first truthy of the two, else a falsy text. */
  lemma CitySource(city: JValue, address: JValue)
    ensures Truthy(city) ==> Or(Or(city, address), JStr("")) == city
    ensures !Truthy(city) && Truthy(address) ==> Or(Or(city, address), JStr("")) == address
    ensures !Truthy(city) && !Truthy(address) ==> !Truthy(Or(Or(city, address), JStr("")))
  {
  }

  /** The city comes from `city`, else from `address`, else is unknown. */
  lemma ConvertedCity(raw: JValue)
    requires ConvertRawShelterData(raw).Some?
    ensures Truthy(Get(raw, "city")) ==>
              ConvertRawShelterData(raw).value.city == ExtractCity(Get(raw, "city"))
    ensures !Truthy(Get(raw, "city")) && Truthy(Get(raw, "address")) ==>
              ConvertRawShelterData(raw).value.city == ExtractCity(Get(raw, "address"))
    ensures !Truthy(Get(raw, "city")) && !Truthy(Get(raw, "address")) ==>
              ConvertRawShelterData(raw).value.city == UnknownCity
  {
    CitySource(Get(raw, "city"), Get(raw, "address"));
  }

  /** A latitude or longitude of the number 0 is falsy, so the record is rejected. */
  lemma ZeroCoordinateRejected(raw: JValue)
    requires Get(raw, "latitude") == JNum(0.0) || Get(raw, "longitude") == JNum(0.0)
    ensures ConvertRawShelterData(raw) == None
  {
  }

  /** `Number("0")` is 0. */
  lemma ZeroTextIsZero()
    ensures ToNumber(JStr("0")) == Some(0.0)
  {
    IntegerTextRoundTrip(0);
    IntegerText(0);
    assert NatToString(0) == "0";
  }

  /**
   * The text "0" is truthy and `Number("0")` is 0, so a latitude given as
   * that text passes where the number 0 is rejected.
   */
  lemma ZeroLatitudeTextAccepted(raw: JValue, longitude: real)
    requires Truthy(raw) && Truthy(Get(raw, "id")) && Truthy(Get(raw, "name"))
    requires Get(raw, "latitude") == JStr("0")
    requires Get(raw, "longitude") == JNum(longitude) && longitude != 0.0 && -180.0 <= longitude <= 180.0
    ensures ConvertRawShelterData(raw).Some?
    ensures ConvertRawShelterData(raw).value.latitude == 0.0
  {
    ZeroTextIsZero();
  }

  /** A record with the four required fields and no city or address is accepted, with the unknown city. */
  lemma MinimalRecordAccepted(raw: JValue, latitude: real, longitude: real)
    requires Truthy(raw) && Truthy(Get(raw, "id")) && Truthy(Get(raw, "name"))
    requires Get(raw, "latitude") == JNum(latitude) && latitude != 0.0 && -90.0 <= latitude <= 90.0
    requires Get(raw, "longitude") == JNum(longitude) && longitude != 0.0 && -180.0 <= longitude <= 180.0
    requires Get(raw, "city") == JUndefined && Get(raw, "address") == JUndefined
    ensures ConvertRawShelterData(raw).Some?
    ensures ConvertRawShelterData(raw).value.city == UnknownCity
  {
    var v := Or(Or(Get(raw, "city"), Get(raw, "address")), JStr(""));
    assert v == JStr("") && !Truthy(v);
    assert ExtractCity(v) == UnknownCity;
  }
}
