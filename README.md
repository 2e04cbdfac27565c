# Bomb shelter finder: shelter data layer

A Dafny model of the data layer of a mobile app that finds bomb shelters in Bulgaria. The app takes raw shelter records from a geocoded JSON file. It normalises each record into a `Shelter` or rejects it, and keeps the accepted set in the device's key-value store (AsyncStorage). The set is stored inside an envelope with a timestamp; it expires after 30 days. The same store also holds:

- the last location, which expires after one hour;
- settings, merged over defaults;
- emergency contacts;
- a search history of at most 20 entries;
- favourite shelter ids.

The app answers queries over shelter lists: filter, text search, stable sort by distance, grouping by city and statistics. It also has small coordinate helpers: validation, clamping, the Bulgaria box, nearest point, travel time and bounding box.

Modules and files:

- `wrappers.dfy`: `Option`, `Result`, `Outcome`.
- `text.dfy` (`Text`): the JavaScript string primitives the code uses. These are `trim`, `toLowerCase`, `includes`, `split(',')[0]` and integer rendering.
- `json.dfy` (`Json`): raw JavaScript values as `JSON.parse` yields them, plus the language rules applied to them:
  - truthiness, property access and `||`;
  - `typeof`;
  - `Number(v)`, as `Option<real>`, where `None` is NaN;
  - `String(v)`.
- `types.dfy` (`ShelterTypes`): the records of types/shelter.ts, their JSON encoding and its typed decoding.
- `normalizer.dfy` (`Normalizer`): `convertRawShelterData` and `extractCity`.
- `import.dfy` (`Import`): `importSheltersFromJson`. Its loop is the method `ConvertRecords`.
- `store.dfy` (`Store`):
  - The class `AsyncStorage`, holding `kv: map<string, Entry>` and a `failing` flag. Each method of the class is one persistence function of the source.
  - The pure functions that say what each reader makes of a stored entry. The round-trip and expiry lemmas are stated over these functions.
- `queries.dfy` (`Queries`): filter, search, sort, grouping and statistics. The sort is an in-place insertion sort on an `array`, proved equal to a functional stable sort. Grouping and statistics are loops over maps.
- `location.dfy` (`Location`): the coordinate helpers. `findNearestPoint` is a loop whose distance function is a parameter.

How the environment is modelled:

- The clock (`Date.now()`) is a parameter `now`, in milliseconds.
- A store whose every call throws is `failing == true`. Each operation then does what the source's `catch` does: it rethrows (`Fail(WriteFailed)`), or swallows the error and writes nothing.
- A stored entry is one of four things:
  - the JSON text of a value, `Json(v)` (JSON round-tripping is the identity on values);
  - the ISO date text of the last update, `Instant(ms)`;
  - the empty text, `Empty`, which is falsy, so every reader takes it for nothing stored;
  - other text that `JSON.parse` rejects, `Corrupt`.
- The comment at utils/storage.ts:210 says the city pattern applies when the text *starts with* "гр.". The regular expression at line 211 is not anchored, so the model follows the code: see `Normalizer.UnanchoredCityPattern`.

## Model

| member | source | states |
|---|---|---|
| Json.Get | utils/storage.ts:150 | Property access yields the own property of an object, and `undefined` on any other value |
| Json.Or | utils/storage.ts:172 | The logical or of two values is the first when it is truthy and the second otherwise |
| Json.ArrayNumber | utils/storage.ts:155-156 | `Number([])` is 0, and `Number([x])` is the number the text of `x` spells, so a one-item or empty array passes as a coordinate |
| Json.IntegerTextRoundTrip | utils/storage.ts:171 | `Number(String(n)) == n` for every integer `n`, so a numeric id survives the string conversion |
| Text.Trim | utils/storage.ts:208 | The result has no leading or trailing whitespace, and it is the infix of the input with only whitespace around it |
| Text.TrimIdempotent | utils/storage.ts:519 | Trimming twice is trimming once |
| Text.LowerIdempotent | utils/storage.ts:519 | Lower-casing twice is lower-casing once |
| Text.Contains | utils/storage.ts:527-530 | `includes` holds exactly when the needle occurs at some offset of the text |
| Text.Lower | utils/storage.ts:519 | `toLowerCase` keeps the length and lowers each character in place; `Text.LowerIdempotent` shows that lowering twice is lowering once |
| Text.TakeUntil | utils/storage.ts:222-224 | `split(',')[0]` is the longest prefix without a comma, and it stops just before the first comma |
| Text.TakeUntilAt | utils/storage.ts:222-224 | When the first comma is at offset `k`, `split(',')[0]` is the text before offset `k` |
| Text.TrimOfPrefix | utils/storage.ts:222-224 | Trimming a prefix of a trimmed text leaves a prefix of that text |
| ShelterTypes.ShelterRoundTrip | types/shelter.ts:3-17 | Decoding the JSON object of a shelter gives back the same shelter, every field included |
| ShelterTypes.ContactsRoundTrip | types/shelter.ts:43-48 | A list of emergency contacts decodes back to itself, element by element and in order |
| ShelterTypes.SettingsRoundTrip | types/shelter.ts:51-58 | Encoded settings decode back to the same settings |
| Normalizer.FindCityPattern | utils/storage.ts:211 | Finds the leftmost offset where `гр.` (either letter case) is followed by a non-comma; `None` means no offset matches |
| Normalizer.StripCityPrefix | utils/storage.ts:225 | `replace(/^гр\.\s*/i, '')`: the marker and the spaces after it are removed only at the start; `Normalizer.StrippedCityShape` and `Normalizer.StripFirstPart` state what it leaves |
| Normalizer.ExtractCity | utils/storage.ts:205-229 | A falsy value gives "Неизвестен град"; otherwise the city is derived from the trimmed text; the result is always trimmed and never holds a comma |
| Normalizer.CityFromText | utils/storage.ts:208-226 | The text after the first pattern match, up to a comma; else a short comma-free text unchanged; else the first comma-separated part without a leading `гр.`. The result is trimmed and comma-free |
| Normalizer.CityAfterMarker | utils/storage.ts:211-213 | When the first match is at offset `i`, the city is the trimmed text after the marker, up to the next comma |
| Normalizer.UnanchoredCityPattern | utils/storage.ts:210-211 | "ж.к. Младост, гр. Варна" gives "Варна": the pattern is found after the start of the text |
| Normalizer.FirstPartCity | utils/storage.ts:211-225 | In the comma branch, removing a leading `гр.` from the trimmed first part either leaves the part as it is or, when the part is `гр.` alone, leaves nothing; a longer part with the marker would have matched the city pattern |
| Normalizer.FirstPartPrefix | utils/storage.ts:222-224 | The trimmed first part of a trimmed text is a comma-free prefix of it |
| Normalizer.StripFirstPart | utils/storage.ts:225 | On a comma-free prefix where the pattern does not match, removing the marker leaves the prefix or nothing |
| Normalizer.MarkedPartIsBare | utils/storage.ts:211-225 | A comma-free prefix that starts with `гр.` where the pattern does not match is exactly `гр.` |
| Normalizer.StreetAddressCity | utils/storage.ts:208-225 | "бул. Витоша 1, София" has no marker, so its city is the first part, "бул. Витоша 1" |
| Normalizer.BareMarkerPartRemoved | utils/storage.ts:222-225 | "гр., София" gives the empty text: the first part is the bare marker, which the removal deletes |
| Normalizer.StrippedCityShape | utils/storage.ts:224-225 | Removing a leading `гр.` and the spaces after it keeps a trimmed, comma-free part trimmed and comma-free |
| Normalizer.TextOr | utils/storage.ts:172-184 | A text field (the value, or its fallback when falsy, converted to text and trimmed) is always trimmed |
| Normalizer.TextOrCases | utils/storage.ts:172-184 | A text field is the trimmed text of a truthy value, and exactly its fallback for a falsy one |
| Normalizer.ConvertedTexts | utils/storage.ts:172-175 | Of an accepted record: the name is its trimmed name; the address, operator and type are their trimmed values, or "Неизвестен адрес", "Неизвестен оператор" and "Скривалище" when falsy |
| Normalizer.ConvertedCategories | utils/storage.ts:176-184 | `category` falls back to `short_category` and `short_category` to `category`, each then to "Неопределена" |
| Normalizer.ConvertedConfidence | utils/storage.ts:181-192 | The confidence is `Number(confidence)`, or 0 when that is NaN (missing included); the four geocoding fields are carried over unchanged |
| Normalizer.ConvertedCity | utils/storage.ts:185 | The city is taken from `city` when truthy, else from `address` when truthy, else is "Неизвестен град" |
| Normalizer.ConvertRawShelterData | utils/storage.ts:147-200 | A record is accepted iff raw, id, name, latitude and longitude are all truthy and `Number` of both coordinates is a number in range. On success: has_coordinates is set; the coordinates are in range and are `Number` of the raw values; the id is `String(id)`; there is no distance; every text field is trimmed; the city has no comma |
| Normalizer.ZeroCoordinateRejected | utils/storage.ts:150 | A latitude or longitude of the number 0 rejects the record |
| Normalizer.ZeroLatitudeTextAccepted | utils/storage.ts:150-167 | A latitude given as the text "0" is truthy and passes, and the shelter then has latitude 0 |
| Normalizer.MinimalRecordAccepted | utils/storage.ts:150-185 | A record with only the required fields is accepted, with the unknown-city text as its city |
| Import.IsShelterFile | utils/storage.ts:107 | The format test: a truthy value whose `shelters` is an array; `Import.ImportSheltersFromJson` fails with `InvalidFormat` exactly when it does not hold |
| Import.ConvertAll | utils/storage.ts:113-127 | The accepted records in file order, no more than the file holds; `Import.ConvertAllSources` and `Import.ConvertAllAppend` characterise them |
| Import.Rejected | utils/storage.ts:113-126 | The number of skipped records; `Import.AcceptedPlusSkipped` shows it makes up the rest of the file |
| Import.ConvertAllSources | utils/storage.ts:115-123 | Every imported shelter is the normalised form of some record of the file, and it has coordinates in range |
| Import.AcceptedPlusSkipped | utils/storage.ts:113-127 | Accepted plus skipped records equal the number of records in the file |
| Import.ConvertAllAppend | utils/storage.ts:115-123 | Import of a concatenation is the concatenation of the imports, so accepted records keep the file's order |
| Import.ZeroLatitudesImportNothing | utils/storage.ts:150 | A file whose records all have latitude 0 imports nothing and skips every record |
| Import.ConvertRecords | utils/storage.ts:111-128 | The loop's accepted list is exactly `ConvertAll(raws)`, its skipped count is `Rejected(raws)`, and the two add up to the input length |
| Import.ImportSheltersFromJson | utils/storage.ts:101-142 | Without a `shelters` array the import fails with an invalid-format error before any write. Otherwise it returns exactly the accepted records and saves them in one envelope, together with the update time. A failing store fails the import and changes nothing |
| Store.Parsed | utils/storage.ts:49-56 | A value is available exactly when the key holds JSON text, and it is the value that text encodes; absent, empty, unreadable and corrupt entries all end in the reader's default |
| Store.LoadShelterRecords | utils/storage.ts:47-86 | Every record returned has a string id and name and numeric coordinates. Nothing comes back for a missing, corrupt or expired envelope. A non-empty result comes from a fresh envelope and is an order-preserving sublist of its stored array. Every stored record that passes the check is returned |
| Store.SheltersRoundTrip | utils/storage.ts:26-86 | Loading what `saveShelters` wrote returns every saved shelter in order, unless a non-zero save time lies more than 30 days back; exactly 30 days is still fresh |
| Store.SheltersDecode | utils/storage.ts:69-81 | Each record read back decodes to the shelter saved at its position |
| Store.EncodedSheltersPass | utils/storage.ts:69-76 | Every saved shelter passes the record check of `getShelters` |
| Store.EnvelopeCount | utils/storage.ts:28-33 | The envelope's `count` is the number of records it holds, and its version is "1.0" |
| Store.IsStale | utils/storage.ts:60 | `data.timestamp && now - data.timestamp > maxAge`, a NaN difference never being greater; characterised by `Store.StaleTimestamp` and `Store.EmptyArrayTimestamp` |
| Store.StaleTimestamp | utils/storage.ts:60 | A numeric timestamp is stale iff it is non-zero and more than the maximum age lies behind it; a missing one never is |
| Store.EmptyArrayTimestamp | utils/storage.ts:60 | A timestamp `[]` is truthy and is the number 0, so it is stale once more than 30 days lie after time 0 |
| Store.LoadedRecordCount | utils/storage.ts:65-79 | From a fresh envelope every copy of a record that passes the check is read back, and no copy of any other |
| Store.LoadLastUpdate | utils/storage.ts:88-96 | `lastUpdate ? new Date(lastUpdate) : null`: null exactly when nothing or the empty text is stored; the instant written by `saveShelters` reads back as that instant |
| Store.LoadLastLocation | utils/storage.ts:248-272 | Nothing for a missing or corrupt record, and nothing for a stored `null` (reading its timestamp throws, and the catch gives null); a stored value that is not null and not older than an hour always gives a result, and a result holds that record's latitude and longitude unchecked |
| Store.LocationRoundTrip | utils/storage.ts:233-272 | A saved location reads back as saved unless a non-zero save time lies more than an hour back |
| Store.LoadSettings | utils/storage.ts:289-308 | The merge has every default key and every stored key; a stored value wins and a missing key takes its default |
| Store.SettingsWhenAbsent | utils/storage.ts:293-295 | With nothing stored, the settings are the defaults of lines 310-319 |
| Store.SettingsSaveLoad | utils/storage.ts:276-308 | Saved settings override every default and read back unchanged |
| Store.DefaultSettings | utils/storage.ts:310-319 | The defaults; `Store.SettingsWhenAbsent` and `Store.SettingsFillMissing` show where they apply |
| Store.SettingsFillMissing | utils/storage.ts:299-303 | Settings stored before `autoDownloadMaps` existed read back with that field's default, true, and every other field as stored |
| Store.LoadList | utils/storage.ts:338-348 | `json ? JSON.parse(json) : []`, where an unreadable or corrupt entry also gives `[]` |
| Store.ContactsSaveLoad | utils/storage.ts:323-348 | Saved emergency contacts read back as saved |
| Store.NewHistory | utils/storage.ts:357-360 | The new history is the query followed by the earlier searches other than the query, in their stored order, as many as fit: its length is one more than their number, capped at 20. The query occurs nowhere else, and nothing is dropped while fewer than 20 were stored |
| Store.HistoryHoldsQueryOnce | utils/storage.ts:357-360 | The query occurs exactly once in the new history |
| Store.HistoryWrite | utils/storage.ts:352-369 | The history is written exactly when the stored value is an array, and the written value is the new history |
| Store.FavoriteAddWrite | utils/storage.ts:391-405 | A write happens exactly when the favourites are an array without the id, and it appends the id |
| Store.FavoriteAddIdempotent | utils/storage.ts:391-441 | After an add the id is a favourite, and adding it again writes nothing |
| Store.FavoriteRemoveWrite | utils/storage.ts:407-419 | For an array, the written list has no occurrence of the id, is an order-preserving sublist of the old one, and keeps every other id |
| Store.FavoriteRemoveAll | utils/storage.ts:407-441 | After a removal the id is no favourite, and every other id occurs as often as before |
| Store.IsFavorite | utils/storage.ts:433-441 | `favorites.includes(id)`; `Store.FavoriteAddIdempotent` and `Store.FavoriteRemoveAll` show an add makes it true and a removal false |
| Store.Utf8Length | utils/storage.ts:464 | The byte size of a text lies between its length and four times its length |
| Store.Utf8LengthConcat | utils/storage.ts:464 | Byte sizes add up over concatenation |
| Store.AsciiUtf8Length | utils/storage.ts:464 | ASCII text takes one byte per character |
| Store.AppSizes | utils/storage.ts:460-466 | Sizes are counted for exactly the stored keys with the prefix `@BombShelterApp:`; an empty entry, which `if (data)` skips, counts 0 |
| Store.RestrictRemove | utils/storage.ts:460-467 | Visiting one more key moves its size from the remaining sum to the total |
| Store.AsyncStorage.Read | utils/storage.ts:49 | A read yields the stored entry exactly when the store works and the key is present |
| Store.AsyncStorage.SaveShelters | utils/storage.ts:26-45 | Writes the envelope and then the update time, changing no other key; a failing store rethrows and changes nothing |
| Store.AsyncStorage.GetShelters | utils/storage.ts:47-86 | Returns what `LoadShelterRecords` makes of the stored envelope at time `now` |
| Store.AsyncStorage.GetLastUpdate | utils/storage.ts:88-96 | Returns what `LoadLastUpdate` makes of the stored update time |
| Store.AsyncStorage.SaveLastLocation | utils/storage.ts:233-246 | Writes the location with its timestamp and changes no other key; a failing store changes nothing and the error is swallowed |
| Store.AsyncStorage.GetLastLocation | utils/storage.ts:248-272 | Returns what `LoadLastLocation` makes of the stored record at time `now` |
| Store.AsyncStorage.SaveSettings | utils/storage.ts:276-287 | Writes the settings and changes no other key; a failing store rethrows and changes nothing |
| Store.AsyncStorage.GetSettings | utils/storage.ts:289-308 | Returns the stored settings merged over the defaults |
| Store.AsyncStorage.SaveEmergencyContacts | utils/storage.ts:323-336 | Writes the contacts and changes no other key; a failing store rethrows and changes nothing |
| Store.AsyncStorage.GetEmergencyContacts | utils/storage.ts:338-348 | Returns the stored list, or `[]` |
| Store.AsyncStorage.AddSearchToHistory | utils/storage.ts:352-369 | Stores the new history when the old one is an array, and writes nothing otherwise; errors are swallowed |
| Store.AsyncStorage.GetSearchHistory | utils/storage.ts:371-379 | Returns the stored history, or `[]` |
| Store.AsyncStorage.ClearSearchHistory | utils/storage.ts:381-387 | Removes only the history key; errors are swallowed |
| Store.AsyncStorage.AddFavoriteShelter | utils/storage.ts:391-405 | Appends the id when it is absent from the stored array, and writes nothing otherwise; errors are swallowed |
| Store.AsyncStorage.RemoveFavoriteShelter | utils/storage.ts:407-419 | Writes the list without the id, even when the id was absent; errors are swallowed |
| Store.AsyncStorage.GetFavoriteShelters | utils/storage.ts:421-431 | Returns the stored favourites, or `[]` |
| Store.AsyncStorage.IsFavoriteShelter | utils/storage.ts:433-441 | Array membership; a substring test on a stored string; false for anything else |
| Store.AsyncStorage.ClearAllData | utils/storage.ts:445-453 | Removes exactly the eight application keys; a failing store rethrows and changes nothing |
| Store.AsyncStorage.GetStorageSize | utils/storage.ts:455-474 | Returns the sum of the UTF-8 sizes of all entries under the app prefix, visited in any order; a failing store gives 0 |
| Store.WriteOpt | utils/storage.ts:397-415 | An optional write: a value is stored under the key, or nothing changes |
| Seqs.Filter | utils/storage.ts:490 | `filter` keeps, in order, exactly the elements that pass the test |
| Seqs.FilterCount | utils/storage.ts:410 | `filter` keeps every occurrence of an element that passes, and drops every occurrence of one that does not |
| Seqs.TallyCounts | utils/storage.ts:580-586 | A tally has exactly the keys that occur, each counted as often as it occurs |
| Seqs.TallyTotal | utils/storage.ts:580-586 | The counts of a tally add up to the number of keys tallied |
| Queries.FilterShelters | utils/storage.ts:481-513 | An order-preserving sublist holding exactly the shelters that meet every applied criterion; a given type and city match exactly |
| Queries.FilterSheltersCount | utils/storage.ts:481-513 | Every copy of a matching shelter is kept, and no copy of any other |
| Queries.FalsyMaxDistanceIgnored | utils/storage.ts:491-497 | A missing or zero maximum distance leaves the result as if no distance filter were given |
| Queries.NoDistanceNeverTooFar | utils/storage.ts:492-494 | A shelter without a distance, or at distance 0, is never dropped by the distance test |
| Queries.NoFiltersKeepAll | utils/storage.ts:490-512 | Empty filters keep every shelter |
| Queries.SearchShelters | utils/storage.ts:518-532 | A blank query returns the input unchanged. Otherwise the result is an order-preserving sublist holding exactly the shelters whose lower-cased name, address, city or operator contains the normalised query |
| Queries.SearchSheltersCount | utils/storage.ts:518-532 | A search keeps every copy of a matching shelter, and no copy of any other |
| Queries.SearchIgnoresQueryCase | utils/storage.ts:519 | Searching for the lower-cased query gives the same result as searching for the query itself |
| Queries.SearchFindsOwnName | utils/storage.ts:525-531 | A query that normalises to a shelter's lower-cased name finds that shelter |
| Queries.InsertLastPermutes | utils/storage.ts:538-542 | Insertion adds exactly the inserted element to the multiset |
| Queries.InsertLastSorted | utils/storage.ts:538-542 | Insertion into a list sorted by distance keeps it sorted |
| Queries.InsertLastStable | utils/storage.ts:538-542 | Insertion appends the element to the run of its own distance and leaves every other run alone |
| Queries.SortByDistance | utils/storage.ts:537-543 | The reference stable sort by distance, one insertion per element, of the same length; `Queries.SortByDistanceSorted` and `Queries.SortByDistanceStable` characterise it |
| Queries.SortByDistanceSorted | utils/storage.ts:537-543 | The sort is non-decreasing by distance, with a missing distance read as 0, and it is a permutation of its input |
| Queries.SortByDistanceStable | utils/storage.ts:537-543 | Shelters at equal distance keep their relative order |
| Queries.InsertInto | utils/storage.ts:538 | One insertion step in place: the prefix through `i` becomes the stable insertion of `a[i]`, and the rest of the array is untouched |
| Queries.SortSheltersByDistance | utils/storage.ts:537-543 | Sorts the array in place into the stable ascending order by distance, and returns the same array |
| Queries.CityKeys | utils/storage.ts:552 | Each shelter's group key is its city, or "Неизвестен град" when the city is empty |
| Queries.InCitySnoc | utils/storage.ts:551-558 | One more shelter joins the group of its own city and leaves every other group as it was |
| Queries.InCityCount | utils/storage.ts:551-558 | A group is as large as the number of shelters with its city |
| Queries.GroupJoin | utils/storage.ts:552-557 | Creating the group when missing and pushing the shelter keeps the groups exact for the list with one more shelter |
| Queries.GroupEntryJoin | utils/storage.ts:552-557 | After the push, the group of the shelter's city has gained the shelter and every other group is unchanged |
| Queries.GroupSheltersByCity | utils/storage.ts:548-559 | One group for each city that occurs, holding that city's shelters in their order; the group sizes add up to the number of shelters |
| Queries.GroupSizesTotal | utils/storage.ts:548-559 | Groups that hold exactly their city's shelters partition the list |
| Queries.Project | utils/storage.ts:580-586 | The projection of each shelter to a key, position by position |
| Queries.CountWithCoordinates | utils/storage.ts:589-591 | The number of shelters with coordinates is at most the number of shelters |
| Queries.CountAllFields | utils/storage.ts:578-595 | The running figures of the `forEach` are the tallies of type, category and city, the number of shelters with coordinates and the confidence sum |
| Queries.StatisticsTotals | utils/storage.ts:580-586 | Each of the three tallies counts every shelter once |
| Queries.GetShelterStatistics | utils/storage.ts:564-606 | `total` is the length. The counts by type, category and city are the tallies of those fields, each adding up to `total`. `withCoordinates` counts the shelters that have coordinates and is at most `total`. `averageConfidence` is the mean, 0 for no shelters |
| Queries.AverageConfidenceBounds | utils/storage.ts:594-604 | The mean confidence lies within any bounds that every shelter's confidence lies within |
| Location.CoordinatesValidity | utils/location.ts:357-370 | A coordinates object passes `isValidCoordinates` exactly when latitude is in [-90, 90] and longitude in [-180, 180] |
| Location.IsValidCoordinates | utils/location.ts:357-370 | An object with numeric coordinates in range; `Location.CoordinatesValidity` and `Location.ValidCoordinatesRead` characterise it |
| Location.ValidCoordinatesRead | utils/location.ts:357-370 | Whatever passes validation is a plain object with numeric coordinates in range |
| Location.NormalizeCoordinates | utils/location.ts:375-380 | The result is in range, equals the input when that is in range, and is the nearest in-range point coordinate by coordinate |
| Location.NormalizeIdempotent | utils/location.ts:375-380 | Normalising twice is normalising once |
| Location.NormalizedIsValid | utils/location.ts:375-380 | Normalised coordinates always pass `isValidCoordinates` |
| Location.IsInBulgaria | utils/location.ts:157-165 | A point inside the inclusive Bulgaria box has coordinates in range |
| Location.InBulgariaIsValid | utils/location.ts:157-165 | Every point of the Bulgaria box passes `isValidCoordinates` |
| Location.FindNearestPoint | utils/location.ts:295-319 | Null iff there are no points. Otherwise: the index is valid; the point and distance are those at the index; no point is nearer; every earlier point is strictly farther, so the first nearest point is returned |
| Location.Round | utils/location.ts:206 | `Math.round` gives the integer within half a unit, with halves rounded up |
| Location.CalculateTravelTime | utils/location.ts:195-207 | The minutes at the mode's speed (5, 15 or 40 km/h), rounded to the nearest minute |
| Location.TravelTimeByMode | utils/location.ts:195-207 | Over the same non-negative distance, driving takes no longer than cycling, and cycling no longer than walking |
| Location.FormatTravelTime | utils/location.ts:212-220 | Under an hour, the minutes; from an hour on, hours and minutes, as `Location.FormatTravelTimeParts` states |
| Location.FormatTravelTimeParts | utils/location.ts:212-220 | From 60 minutes on, the text shows whole hours (at least 1) and the remaining minutes (under 60), and these add back up to the input |
| Location.CreateBoundingBox | utils/location.ts:324-343 | The centre is the midpoint of both extents, and the latitude span is `2r/111`. Southwest lies below northeast for `r >= 0`, and to its west when the cosine is positive |

## Left out

- Trigonometric and formatting helpers of utils/location.ts are not modelled: the haversine distance, the bearing, degree/radian conversion, `formatDistance` and `formatCoordinates`. They rely on floating-point trigonometry. `findNearestPoint` takes the distance as a parameter, and `createBoundingBox` takes the cosine of the centre latitude as a parameter.
- Device location calls (`getCurrentLocation`, `watchLocation`, `reverseGeocode` and the rest) are left out, because they are permission prompts and sensor I/O.
- React hooks, screens and map components are left out, because they are rendering and lifecycle only.
- Console logging is left out. So is the text of error messages: a thrown error is `Failure(InvalidFormat)` or `Fail(WriteFailed)`.
- `Date.now()` is the parameter `now`. `new Date(text)` on text other than the update time written by `saveShelters` is `FromOtherText`, not parsed further.
- Json.ToNumber: `Number` on text is modelled for decimal literals with optional sign and fraction. Exponents, the `0x`, `0b` and `0o` literals and `Infinity` are read as NaN; JavaScript reads them as numbers (`Number("0b1")` is 1). Arrays convert through their comma-joined text, as in JavaScript.
- Normalizer.CityFromText: the test `str.length < 50` (utils/storage.ts:217) counts UTF-16 code units, while the model counts code points. A comma-free text of 25 to 49 characters outside the Basic Multilingual Plane, such as emoji, is kept whole by the model, but the source sends it to the `split`/`replace` branch.
- Json.NumberText: `String` of a non-integer is written with up to 20 fraction digits, not JavaScript's shortest round-trip form. Integers are written in full digits, also from 1e21 on, where JavaScript switches to exponent form ("1e+21").
- Reals stand for JavaScript's double-precision numbers, so rounding in the division of the travel time and in the average confidence is not modelled.
- Text.LowerChar: lower-casing covers Latin A-Z and the Cyrillic capitals U+0400..U+042F; other letters are unchanged.
- Store.Utf8Length: a string is a sequence of code points, not of UTF-16 code units, so unpaired surrogates are not modelled.
- Store.AsyncStorage.SaveShelters: a store fails either on every call or on none. A failure of the second write alone (the update time, after the envelope was written) is not modelled.
- A property that is absent and a property holding `undefined` are the same `JUndefined` to `Get`. So `JSON.stringify` dropping `undefined` values is not distinguished.
- Store.LoadSettings: the spread is modelled for a stored object only. A stored array or string, whose indices JavaScript would spread as keys, contributes nothing.
- Queries.GroupSheltersByCity: JavaScript objects inherit prototype properties, such as a city named "constructor", that would make `groups[city]` truthy; keys are plain map keys here. The same holds for the tallies of `getShelterStatistics`.
- Location.FormatTravelTime: the minutes are an integer, as `calculateTravelTime` yields. A fractional minute count is not rendered.
- The final `return str` of `extractCity` (utils/storage.ts:228) cannot be reached, because `split` always yields at least one part. The model has no such branch.
