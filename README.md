# SettingManager: the configuration store of the aranea network-diagnosis device

This project models `SettingManager` from `mercury_net_diag/settingManager.cpp`
and `settingManager.h`. The manager keeps one `DeviceSettings` record: eight
text fields, the polling interval `checkInterval` in milliseconds, and up to
five endpoint URLs. It stores the record in `/config.json` on the flash file
system (SPIFFS) in a fixed-shape JSON-like text. The model covers:

- the codec: `escapeJson`, `toJson`, and the substring scanner `fromJson`,
  together with its `extractString`/`extractNumber` helpers and the endpoint
  array loop;
- the in-memory mutators: nine setters, and `addEndpoint`, `removeEndpoint`
  and `clearEndpoints`, which keep the endpoint list within
  `MAX_ENDPOINTS` = 5;
- the lifecycle: `setDefaults`, `begin`, `isFirstBoot`, `loadSettings`,
  `saveSettings` and `resetToDefaults`, over an abstract file store.

The pieces of the Arduino `String` class that the codec relies on are
modelled in `text.dfy`:

- `indexOf(String, from)` and `indexOf(char, from)`;
- `replace`, which works left to right without overlaps;
- `toInt`, which is `atol` narrowed to a 32-bit `long` by saturation, the way
  newlib's `strtol` does it;
- `String(unsigned long)`, the decimal text of a number.

Layout:

| file | module | content |
|---|---|---|
| `text.dfy` | `ArduinoText` | the `String` primitives |
| `settings.dfy` | `Settings` | the record, the defaults and the constants |
| `codec.dfy` | `Codec` | the format as functions |
| `escape_facts.dfy` | `EscapeFacts` | what escaping guarantees and how the replace passes undo it |
| `key_search.dfy` | `KeySearch` | why a key pattern cannot start inside another member |
| `readback.dfy` | `Readback` | what the scanner reads out of the encoded text, member by member and entry by entry |
| `round_trip.dfy` | `RoundTrip` | `fromJson(toJson(r))` |
| `decoder_facts.dfy` | `DecoderFacts` | the decoder on arbitrary text, and concrete cases where the round trip does not hold |
| `store.dfy` | `FileStore` | SPIFFS as a class over a map from paths to contents |
| `manager.dfy` | `Manager` | the class `SettingManager` |

In `codec.dfy`, the loops of `escapeJson` and of the `fromJson` scanners are
methods. Each method is proved equal to the function that specifies it.

The class `SettingManager` keeps the record in a field `settings`, and every
operation that changes the record names it in its `modifies` clause. The
getters and `toJson` have no `modifies` clause, so they change nothing.
`Valid()` states the bound on the endpoint list. Every operation that changes
the record keeps that bound. "No entry is empty" is not an invariant:
`addEndpoint` accepts an empty URL. The decoder never produces an empty
entry, and `DecoderFacts.DecodedOk` proves that.

Two behaviours of the code deserve a note:

- **First-boot save failure.** When the save of the defaults on first boot
  fails, `begin` returns `false` and does not go on to load; `initialized`
  stays unset (`mercury_net_diag/settingManager.cpp:44-47`).
  `Manager.SettingManager.Begin` states this.
- **Some texts with a backslash do not round-trip.** The five replace passes
  of `extractString` run in the order `\"`, `\\`, `\n`, `\r`, `\t`
  (`mercury_net_diag/settingManager.cpp:181-185`). A backslash followed by
  `n` in the original is written as `\\n`; the second pass turns that into
  `\n`, which the third pass turns into a newline:
  `DecoderFacts.BackslashLetterMember` proves that a saved member holding
  backslash-`n` decodes to a newline. The closing-quote test looks back only
  one character (`mercury_net_diag/settingManager.cpp:176`), so a value that
  ends in a backslash swallows its closing quote:
  `DecoderFacts.TrailingBackslashMember` proves that a saved member holding a
  single backslash decodes to a text that starts with a backslash and a quote.
  The endpoint scanner has the same one-character look-back, and it cuts the
  array at the first `]` (`mercury_net_diag/settingManager.cpp:221-236`):
  `DecoderFacts.EndpointsNotIdempotent` proves that the endpoint `\]` loads
  as `\`, which saves and loads again as `\"`, so even a second save and load
  changes the record. The round trip is therefore proved for texts without a
  backslash and for plain endpoints, conditions that suffice but are not
  needed by every text that reads back.

## Model

| member | source | states |
|---|---|---|
| `ArduinoText.IndexOf` | mercury_net_diag/settingManager.cpp:171 | the index found holds a match of the pattern, no earlier index at or after `from` does, and `None` (the library's -1) means there is no match at all |
| `ArduinoText.IndexOfChar` | mercury_net_diag/settingManager.cpp:226 | the index found holds the character, no earlier index at or after `from` does, and `None` means the character does not occur |
| `ArduinoText.ToLong` | mercury_net_diag/settingManager.cpp:199 | `toInt` is the value `atol` reads when that fits a 32-bit `long`, and `LONG_MAX`/`LONG_MIN` beyond either end |
| `ArduinoText.Decimal` | mercury_net_diag/settingManager.cpp:156 | `String(unsigned long)` is a non-empty run of digits that denotes the number |
| `ArduinoText.ToIntOfDecimal` | mercury_net_diag/settingManager.cpp:156 | `atol` reads back exactly the number `String(unsigned long)` wrote |
| `ArduinoText.ToLongOfDecimal` | mercury_net_diag/settingManager.cpp:199 | `toInt` of the decimal text of `n` is `n`, or `LONG_MAX` when `n` exceeds it |
| `ArduinoText.ToInt` | mercury_net_diag/settingManager.cpp:199 | `atol` skips white space, reads an optional sign and the digits after it; text that starts with a minus sign reads as at most 0, text that starts with a digit as at least 0 |
| `ArduinoText.ToIntOfDigits` | mercury_net_diag/settingManager.cpp:199 | a run of digits reads as the number it denotes |
| `ArduinoText.ToIntWithoutDigits` | mercury_net_diag/settingManager.cpp:199 | text that starts with no digit, sign or white space reads as 0 |
| `ArduinoText.ReplaceAll` | mercury_net_diag/settingManager.cpp:181-185 | `String::replace` with an empty pattern changes nothing |
| `ArduinoText.ReplaceNoLonger` | mercury_net_diag/settingManager.cpp:181-185 | replacing a pattern by something no longer never lengthens the text |
| `ArduinoText.ReplaceHit` | mercury_net_diag/settingManager.cpp:181-185 | an occurrence of the pattern at the front is replaced, and the replacement goes on after it |
| `ArduinoText.ReplaceSkip` | mercury_net_diag/settingManager.cpp:181-185 | a character that cannot start the pattern is copied, and the replacement goes on after it |
| `ArduinoText.ReplaceAbsent` | mercury_net_diag/settingManager.cpp:235-236 | text that does not hold the first character of the pattern is left alone |
| `Codec.EscapeChar` | mercury_net_diag/settingManager.cpp:134-141 | each of backslash, quote, newline, CR and tab becomes a backslash followed by its letter; every other character is copied |
| `Codec.EscapeJson` | mercury_net_diag/settingManager.cpp:129-144 | the loop returns the character-by-character escape of its input |
| `Codec.EscapedAppend` | mercury_net_diag/settingManager.cpp:132-142 | escaping a concatenation is the concatenation of the escapes |
| `Codec.FieldsTextAppend` | mercury_net_diag/settingManager.cpp:147-156 | the text of a list of members is the text of its parts, one after the other |
| `Codec.EndpointArraySnoc` | mercury_net_diag/settingManager.cpp:158-161 | appending an endpoint appends a comma (except for the first entry) and the quoted, escaped URL to the array text |
| `Codec.ScanQuote` | mercury_net_diag/settingManager.cpp:174-178 | the scan stops at the first quote not preceded by a backslash, or at the end of the text, and at no closing quote before that |
| `Codec.ScanQuoteAt` | mercury_net_diag/settingManager.cpp:174-178 | a closing quote with none before it is where the scan stops |
| `Codec.ScanNumber` | mercury_net_diag/settingManager.cpp:195-198 | the scan covers only digits and minus signs, and stops at the first other character or at the end |
| `Codec.EndpointsRegion` | mercury_net_diag/settingManager.cpp:218-223 | the region starts 13 characters after the first `"endpoints":[`, ends at the first `]` after that, and holds no `]` |
| `Codec.Location` | mercury_net_diag/settingManager.cpp:202-203 | the decoded location is never empty; it is the `locationName` text whenever that text is non-empty, and "unset" whenever it is empty |
| `Codec.Interval` | mercury_net_diag/settingManager.cpp:213-214 | the decoded interval is positive; it is the number read whenever that number is positive, and 600000 whenever it is 0 or less (a missing key reads as -1) |
| `Codec.FindClosingQuote` | mercury_net_diag/settingManager.cpp:174-178 | the `end` loop stops where `ScanQuote` says |
| `Codec.ExtractString` | mercury_net_diag/settingManager.cpp:169-187 | `extractString` returns "" when the pattern is missing, and otherwise the five-pass unescape of the text up to the closing quote |
| `Codec.ExtractNumber` | mercury_net_diag/settingManager.cpp:190-200 | `extractNumber` returns -1 when the pattern is missing, and otherwise `toInt` of the run of digits and minus signs after it |
| `Codec.ParseEndpoints` | mercury_net_diag/settingManager.cpp:216-244 | the endpoint parser returns exactly the list the functional decoder gives: the scan of the region between `"endpoints":[` and the next `]`, or nothing when that region is missing or empty |
| `Codec.ScanArray` | mercury_net_diag/settingManager.cpp:224-242 | the `pos`/`qEnd` loop returns what the character-level scanner keeps |
| `Codec.NoQuote` | mercury_net_diag/settingManager.cpp:226-227 | once no quote is left, the loop keeps nothing more |
| `Codec.ScanStep` | mercury_net_diag/settingManager.cpp:225-241 | one round of the loop is the scan to the next quote, the scan to its closing quote, and the keep-or-drop decision for the entry |
| `EscapeFacts.QuotesAreEscaped` | mercury_net_diag/settingManager.cpp:135-136 | every quote in escaped text directly follows a backslash |
| `EscapeFacts.EscapedLastChar` | mercury_net_diag/settingManager.cpp:176 | escaped text without a backslash in the original never ends in a backslash, so its closing quote is seen |
| `EscapeFacts.UnescapePass` | mercury_net_diag/settingManager.cpp:181-185 | one replace pass turns the escape of one character back into that character and leaves the others alone, for text without a backslash |
| `EscapeFacts.TextUnescapedOfEscaped` | mercury_net_diag/settingManager.cpp:181-185 | the five replace passes undo `escapeJson` on text without a backslash |
| `EscapeFacts.EndpointUnescapedOfEscaped` | mercury_net_diag/settingManager.cpp:235-236 | the two replace passes of the endpoint scanner undo `escapeJson` on text without a backslash, newline, CR or tab |
| `KeySearch.NoKeyInField` | mercury_net_diag/settingManager.cpp:148-156 | the pattern `"K":` does not start anywhere inside a member with another key, whatever that member's value |
| `Readback.NoKeyInFields` | mercury_net_diag/settingManager.cpp:171 | the pattern does not start inside any run of members with other keys |
| `Readback.FindKey` | mercury_net_diag/settingManager.cpp:192 | the search for `"K":` finds the member with key `K`, not an earlier one |
| `Readback.FindPattern` | mercury_net_diag/settingManager.cpp:171 | the search for `"K":"` finds that member too |
| `Readback.ScanQuoteOverEscaped` | mercury_net_diag/settingManager.cpp:174-178 | the scan for the closing quote stops right after an escaped value without a backslash |
| `Readback.TextValueAt` | mercury_net_diag/settingManager.cpp:169-187 | a text member found by the search decodes to its value |
| `Readback.NumberValueAt` | mercury_net_diag/settingManager.cpp:190-200 | the interval member found by the search decodes to its value, or to `LONG_MAX` above that |
| `Readback.TextMemberDecodes` | mercury_net_diag/settingManager.cpp:169-187 | in the text `toJson` writes, each text member decodes to its value when the keys before it differ from its own |
| `Readback.NumberMemberDecodes` | mercury_net_diag/settingManager.cpp:190-200 | in the text `toJson` writes, the interval member decodes to its value, capped at `LONG_MAX` |
| `Readback.Capped` | mercury_net_diag/settingManager.cpp:237 | the kept list is the list itself when it has at most five entries, and otherwise exactly its first five, in order |
| `Readback.EntryAt` | mercury_net_diag/settingManager.cpp:226-241 | a quoted plain entry is read back whole and kept unless five are held |
| `Readback.ScanMore` | mercury_net_diag/settingManager.cpp:224-242 | the scanner over `,"e1","e2",…` keeps the first entries, up to five in all |
| `Readback.ScanWholeArray` | mercury_net_diag/settingManager.cpp:224-242 | the scanner reads back the first five of the entries `toJson` writes |
| `Readback.NoBracketInArray` | mercury_net_diag/settingManager.cpp:158-161 | the written array of plain entries holds no `]`, so the region ends where the array does |
| `Readback.RegionAt` | mercury_net_diag/settingManager.cpp:218-222 | the region found is the array text, and is missing when the array is empty |
| `Readback.EndpointsDecode` | mercury_net_diag/settingManager.cpp:216-244 | the endpoints `toJson` writes decode to the first five of them |
| `RoundTrip.KeysDistinct` | mercury_net_diag/settingManager.cpp:148-157 | the ten keys are pairwise different |
| `RoundTrip.ScalarKeys` | mercury_net_diag/settingManager.cpp:148-157 | every member key is key-like and differs from the keys before it and from `endpoints` |
| `RoundTrip.MembersDecode` | mercury_net_diag/settingManager.cpp:202-214 | the nine members of the written text each decode to their value |
| `RoundTrip.DecodedOfJson` | mercury_net_diag/settingManager.cpp:146-247 | `fromJson(toJson(r))` gives back `r`, except that an empty location becomes "unset", an interval of 0 becomes 600000, one above `LONG_MAX` becomes `LONG_MAX`, and only the first five endpoints are kept |
| `RoundTrip.NormalizedPlain` | mercury_net_diag/settingManager.cpp:202-244 | a decoded record of plain texts is plain again |
| `RoundTrip.DecodeIdempotent` | mercury_net_diag/settingManager.cpp:146-247 | for plain records, a record that has been decoded once survives a second save and load unchanged |
| `RoundTrip.DefaultsRoundTrip` | mercury_net_diag/settingManager.cpp:41-51 | the file written on first boot decodes back to the defaults |
| `DecoderFacts.ScanBounded` | mercury_net_diag/settingManager.cpp:233-239 | on any text, the scanner keeps at most five entries and none of them is empty |
| `DecoderFacts.EndpointListBounded` | mercury_net_diag/settingManager.cpp:216-244 | on any text, the decoded list has at most five non-empty entries |
| `DecoderFacts.DecodedOk` | mercury_net_diag/settingManager.cpp:202-246 | on any text, the decoder gives a non-empty location, a positive interval and a bounded list of non-empty endpoints |
| `DecoderFacts.MissingInterval` | mercury_net_diag/settingManager.cpp:213-214 | without `"checkInterval":` the interval is 600000 |
| `DecoderFacts.NegativeNumber` | mercury_net_diag/settingManager.cpp:196-199 | a number that starts with a minus sign reads as at most 0 |
| `DecoderFacts.NegativeInterval` | mercury_net_diag/settingManager.cpp:196-214 | a negative `checkInterval` decodes to 600000 |
| `DecoderFacts.NonNumericInterval` | mercury_net_diag/settingManager.cpp:190-214 | a `checkInterval` value that does not start with a digit or a minus sign (a letter, a quoted number such as `"600"`, or the end of the text) decodes to 600000 |
| `DecoderFacts.ZeroInterval` | mercury_net_diag/settingManager.cpp:190-214 | a `checkInterval` written as `0` decodes to 600000 |
| `DecoderFacts.MissingLocation` | mercury_net_diag/settingManager.cpp:202-203 | without `"locationName":"` the location is "unset" |
| `DecoderFacts.EmptyLocation` | mercury_net_diag/settingManager.cpp:170-203 | a first `"locationName":"` followed at once by a quote gives "unset" |
| `DecoderFacts.EmptyDocument` | mercury_net_diag/settingManager.cpp:167-246 | the empty text decodes to "unset", seven empty texts, 600000 and no endpoints, which is not the default record |
| `DecoderFacts.BackslashLetterBecomesNewline` | mercury_net_diag/settingManager.cpp:181-183 | the text backslash-`n` is written as `\\n` and read back as a newline |
| `DecoderFacts.BackslashLetterMember` | mercury_net_diag/settingManager.cpp:169-187 | a saved text member whose value is backslash-`n` decodes to a newline, wherever in the text the member is found |
| `DecoderFacts.TrailingBackslashMember` | mercury_net_diag/settingManager.cpp:169-187 | a saved text member whose value is a single backslash decodes to a text that starts with a backslash and a quote, so the value does not come back |
| `DecoderFacts.UnescapeAfterBackslash` | mercury_net_diag/settingManager.cpp:181-185 | the five passes turn an escaped backslash followed by a quote into a backslash and a quote, and go on with the rest |
| `DecoderFacts.EndpointsNotIdempotent` | mercury_net_diag/settingManager.cpp:216-244 | for every record whose endpoints are `[\]]`, the first load gives `[\]`, the second gives `[\"]`, so a second save and load changes the record |
| `DecoderFacts.ScanCutEntry` | mercury_net_diag/settingManager.cpp:224-242 | the array text cut at the `]`, an opening quote and an escaped backslash, yields the single entry `\` |
| `DecoderFacts.ScanHiddenQuote` | mercury_net_diag/settingManager.cpp:224-242 | in `"\\"` the last quote follows a backslash and is not closing, so the entry runs to the end and yields `\"` |
| `DecoderFacts.TrailingBackslashHidesQuote` | mercury_net_diag/settingManager.cpp:174-178 | after a value that ends in a backslash, the closing quote is not taken as closing |
| `FileStore.Store.Mount` | mercury_net_diag/settingManager.cpp:34 | mounting succeeds when the flash mounts or can be formatted, and formatting empties it |
| `FileStore.Store.Exists` | mercury_net_diag/settingManager.cpp:61 | reports whether the path holds a file |
| `FileStore.Store.Read` | mercury_net_diag/settingManager.cpp:65-72 | reading gives the whole file, and fails when opening fails or the file is missing |
| `FileStore.Store.Write` | mercury_net_diag/settingManager.cpp:79-87 | writing replaces the file with the text, and changes nothing when opening fails |
| `Manager.SettingManager.constructor` | mercury_net_diag/settingManager.cpp:14-16 | a new manager is uninitialised and holds the defaults |
| `Manager.SettingManager.GetSettings` | mercury_net_diag/settingManager.h:48 | returns the stored record and changes nothing |
| `Manager.SettingManager.GetLocationName` | mercury_net_diag/settingManager.h:49 | returns the stored location and changes nothing |
| `Manager.SettingManager.GetNetworkName` | mercury_net_diag/settingManager.h:50 | returns the stored network name and changes nothing |
| `Manager.SettingManager.GetMainSSID` | mercury_net_diag/settingManager.h:51 | returns the stored main SSID and changes nothing |
| `Manager.SettingManager.GetMainPass` | mercury_net_diag/settingManager.h:52 | returns the stored main password and changes nothing |
| `Manager.SettingManager.GetAltSSID` | mercury_net_diag/settingManager.h:53 | returns the stored alternative SSID and changes nothing |
| `Manager.SettingManager.GetAltPass` | mercury_net_diag/settingManager.h:54 | returns the stored alternative password and changes nothing |
| `Manager.SettingManager.GetDevSSID` | mercury_net_diag/settingManager.h:55 | returns the stored developer SSID and changes nothing |
| `Manager.SettingManager.GetDevPass` | mercury_net_diag/settingManager.h:56 | returns the stored developer password and changes nothing |
| `Manager.SettingManager.GetCheckInterval` | mercury_net_diag/settingManager.h:57 | returns the stored interval and changes nothing |
| `Manager.SettingManager.GetEndpoints` | mercury_net_diag/settingManager.h:58 | returns the stored endpoint list and changes nothing |
| `Manager.SettingManager.SetDefaults` | mercury_net_diag/settingManager.cpp:18-30 | the record becomes the factory defaults, with no endpoints |
| `Manager.SettingManager.IsFirstBoot` | mercury_net_diag/settingManager.cpp:60-62 | first boot holds exactly when no `/config.json` exists |
| `Manager.SettingManager.Begin` | mercury_net_diag/settingManager.cpp:32-58 | the outcome of each branch: a mount failure changes nothing and returns false; a failed first-boot save returns false with the defaults installed and `initialized` unchanged; otherwise it returns true and sets `initialized`, and the record is the decoded file, or the defaults when the file cannot be read or was just written |
| `Manager.SettingManager.SaveDefaults` | mercury_net_diag/settingManager.cpp:41-48 | the first-boot step installs the defaults and writes `toJson` of them, and what it writes decodes back to the defaults |
| `Manager.SettingManager.LoadOrDefaults` | mercury_net_diag/settingManager.cpp:51-54 | the record becomes the decoded file, or the defaults when the file cannot be read |
| `Manager.SettingManager.LoadSettings` | mercury_net_diag/settingManager.cpp:64-76 | loading fails exactly when the file cannot be opened, and then changes nothing; otherwise the record is the decoded file |
| `Manager.SettingManager.SaveSettings` | mercury_net_diag/settingManager.cpp:78-91 | saving fails exactly when opening for writing fails, and otherwise `/config.json` holds `toJson()`; no other file changes |
| `Manager.SettingManager.ResetToDefaults` | mercury_net_diag/settingManager.cpp:93-96 | the defaults are installed and written when the file can be opened; the failure of the save is not reported |
| `Manager.SettingManager.SetLocationName` | mercury_net_diag/settingManager.cpp:99 | only `locationName` changes |
| `Manager.SettingManager.SetNetworkName` | mercury_net_diag/settingManager.cpp:100 | only `networkName` changes |
| `Manager.SettingManager.SetMainSSID` | mercury_net_diag/settingManager.cpp:101 | only `mainSSID` changes |
| `Manager.SettingManager.SetMainPass` | mercury_net_diag/settingManager.cpp:102 | only `mainPass` changes |
| `Manager.SettingManager.SetAltSSID` | mercury_net_diag/settingManager.cpp:103 | only `altSSID` changes |
| `Manager.SettingManager.SetAltPass` | mercury_net_diag/settingManager.cpp:104 | only `altPass` changes |
| `Manager.SettingManager.SetDevSSID` | mercury_net_diag/settingManager.cpp:105 | only `devSSID` changes |
| `Manager.SettingManager.SetDevPass` | mercury_net_diag/settingManager.cpp:106 | only `devPass` changes |
| `Manager.SettingManager.SetCheckInterval` | mercury_net_diag/settingManager.cpp:107 | only `checkInterval` changes, and 0 is accepted |
| `Manager.SettingManager.AddEndpoint` | mercury_net_diag/settingManager.cpp:109-115 | succeeds exactly when fewer than five are held, then appends the URL (even an empty one) at the end; otherwise nothing changes; the bound is kept |
| `Manager.SettingManager.RemoveEndpoint` | mercury_net_diag/settingManager.cpp:117-123 | succeeds exactly for an index in range, then deletes that entry and keeps the others in order; otherwise nothing changes |
| `Manager.SettingManager.ClearEndpoints` | mercury_net_diag/settingManager.cpp:125-127 | the list becomes empty and nothing else changes |
| `Manager.SettingManager.ToJson` | mercury_net_diag/settingManager.cpp:146-164 | the text built is the format of the record: `{`, the nine members in order, `"endpoints":[`, the quoted entries, `]}` |
| `Manager.SettingManager.FromJson` | mercury_net_diag/settingManager.cpp:167-247 | `fromJson` always succeeds, replaces every field with what the text decodes to, and keeps the bound |
| `Manager.WriteMembers` | mercury_net_diag/settingManager.cpp:147-156 | the nine `json +=` lines write `{` and the nine members in the fixed order |
| `Manager.WriteEndpoints` | mercury_net_diag/settingManager.cpp:157-161 | the loop writes the entries, quoted and escaped, separated by commas, in list order |
| `Manager.AppendText` | mercury_net_diag/settingManager.cpp:148-155 | one line appends the member `"key":"escaped value",` |
| `Manager.AppendNumber` | mercury_net_diag/settingManager.cpp:156 | the interval line appends `"checkInterval":digits,` |
| `Manager.MembersText` | mercury_net_diag/settingManager.cpp:147-156 | the members appended one after the other make up the text of the member list |

## Left out

- `Serial.println` logging: output only; it has no effect on the state.
- The global instance `settingMgr` (`mercury_net_diag/settingManager.cpp:12`):
  the model constructs a manager over a given store.
- SPIFFS internals. `FileStore.Store` is a map from paths to contents. Four
  fixed flags decide whether mounting, formatting, opening for reading and
  opening for writing succeed. Writes are whole-file and never short;
  truncated or partial writes are not modelled.
- Concurrency: the device is single-threaded and the model is sequential.
- The HTTP layer in `lib/ArduinoMCP` is not part of this model.
- NUL characters: Arduino `String` texts are C strings, and the model's texts
  may hold any character.
- `getSettings` and `getEndpoints` return `const` references; the model returns
  copies, which is the same as long as the caller does not keep the reference
  across a later change.
- `initialized` is set as the code sets it, but nothing in the core reads it.
- "Only the setters, the endpoint operations, `fromJson` and `setDefaults`
  write the record" is stated by the `modifies` clauses, not by a lemma.
- `RoundTrip.DecodedOfJson`: holds only for texts without a backslash and for
  endpoints that are non-empty and hold no backslash, newline, CR, tab or `]`.
  Those are the restrictions under which the round trip is proved. They are
  sufficient, not necessary: some texts and endpoints with a backslash read
  back unchanged too. `DecoderFacts` proves cases that fail.
- `ArduinoText.ToLong`: the narrowing of `atol` to `long` is modelled as
  newlib's saturation. The C standard leaves `atol` undefined above
  `LONG_MAX`, so another C library may give another value.
- `RoundTrip.DecodeIdempotent`: holds only for records of plain texts and
  plain endpoints, the same restriction as `RoundTrip.DecodedOfJson`, from
  which it is proved. Without it the code is not idempotent:
  `DecoderFacts.EndpointsNotIdempotent` shows an endpoint that changes on the
  second save and load. Whether text fields alone could break idempotence is
  not proved either way; the proof needs the texts plain because it goes
  through the round trip.
