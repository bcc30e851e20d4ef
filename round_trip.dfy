/**
 * The round trip of the configuration file: what `fromJson` makes of the
 * text `toJson` writes.
 */
module RoundTrip {
  import opened ArduinoText
  import opened Settings
  import opened Codec
  import opened KeySearch
  import opened Readback

  /** The record as the decoder gives it back: an empty location becomes
      `"unset"`, an interval of 0 becomes ten minutes, one above `LONG_MAX`
      comes back as `LONG_MAX`, and only the first five endpoints are kept. */
  function Normalized(r: DeviceSettings): DeviceSettings {
    r.(locationName := if r.locationName == "" then UNSET_LOCATION else r.locationName,
       checkInterval := if r.checkInterval == 0 then DEFAULT_CHECK_INTERVAL
                        else if r.checkInterval > LONG_MAX then LONG_MAX
                        else r.checkInterval,
       endpoints := Capped(r.endpoints))
  }

  /** Text values without a backslash, which the decoder reads back
      unchanged.  Some texts with a backslash read back unchanged too; the
      round trip is proved only for these, since the decoder undoes the
      escapes one kind at a time. */
  predicate PlainTexts(r: DeviceSettings) {
    '\\' !in r.locationName && '\\' !in r.networkName && '\\' !in r.mainSSID
    && '\\' !in r.mainPass && '\\' !in r.altSSID && '\\' !in r.altPass
    && '\\' !in r.devSSID && '\\' !in r.devPass
  }

  /** The keys of the members, then the key of the array. */
  const KEYS: seq<string> := ["locationName", "networkName", "mainSSID", "mainPass", "altSSID",
                              "altPass", "devSSID", "devPass", "checkInterval", "endpoints"]

  lemma KeysOfScalars(r: DeviceSettings)
    ensures |Scalars(r)| == 9 && forall i :: 0 <= i < 9 ==> Scalars(r)[i].key == KEYS[i]
  {
  }

  /** Length, first letter and fourth letter from the end tell the keys apart. */
  function Signature(k: string): (nat, char, char)
    requires |k| >= 4
  {
    (|k|, k[0], k[|k| - 4])
  }

  lemma KeysDistinct()
    ensures forall i, j :: 0 <= j < i < |KEYS| ==> KEYS[j] != KEYS[i]
  {
    assert forall i :: 0 <= i < |KEYS| ==> |KEYS[i]| >= 4;
    var sigs := seq(|KEYS|, i requires 0 <= i < |KEYS| => Signature(KEYS[i]));
    assert sigs == [(12, 'l', 'N'), (11, 'n', 'N'), (8, 'm', 'S'), (8, 'm', 'P'), (7, 'a', 'S'),
                    (7, 'a', 'P'), (7, 'd', 'S'), (7, 'd', 'P'), (13, 'c', 'r'), (9, 'e', 'i')];
    forall i, j | 0 <= j < i < |KEYS| ensures KEYS[j] != KEYS[i] {
      assert sigs[j] != sigs[i];
    }
  }

  /** Every key is made of letters only. */
  lemma KeysLike()
    ensures forall i :: 0 <= i < |KEYS| ==> KeyLike(KEYS[i])
  {
    forall i | 0 <= i < |KEYS| ensures KeyLike(KEYS[i]) {
      LettersKeyLike(KEYS[i]);
    }
  }

  predicate IsLetter(c: char) {
    'a' <= c <= 'z' || 'A' <= c <= 'Z'
  }

  lemma LettersKeyLike(k: string)
    requires k in KEYS
    ensures KeyLike(k)
  {
    assert |k| > 0 && forall j :: 0 <= j < |k| ==> IsLetter(k[j]);
  }

  /** The keys of the members are distinct key-like names, none of them
      `endpoints`. */
  lemma ScalarKeys(r: DeviceSettings)
    ensures |Scalars(r)| == 9
    ensures forall i :: 0 <= i < 9 ==> KeyLike(Scalars(r)[i].key) && OtherKeys(Scalars(r)[..i], Scalars(r)[i].key)
    ensures OtherKeys(Scalars(r), "endpoints")
  {
    KeysOfScalars(r);
    KeysDistinct();
    KeysLike();
    assert KEYS[9] == "endpoints";
  }

  /** What the decoder reads from each member of the document. */
  lemma MembersDecode(r: DeviceSettings)
    requires PlainTexts(r)
    ensures StringField(Json(r), "locationName") == r.locationName
    ensures StringField(Json(r), "networkName") == r.networkName
    ensures StringField(Json(r), "mainSSID") == r.mainSSID
    ensures StringField(Json(r), "mainPass") == r.mainPass
    ensures StringField(Json(r), "altSSID") == r.altSSID
    ensures StringField(Json(r), "altPass") == r.altPass
    ensures StringField(Json(r), "devSSID") == r.devSSID
    ensures StringField(Json(r), "devPass") == r.devPass
    ensures NumberField(Json(r), "checkInterval") == if r.checkInterval > LONG_MAX then LONG_MAX else r.checkInterval
  {
    NetworkMembersDecode(r);
    DeviceMembersDecode(r);
    NumberDecodes(r);
  }

  /** The location, network and main-network members decode to their values. */
  lemma NetworkMembersDecode(r: DeviceSettings)
    requires PlainTexts(r)
    ensures StringField(Json(r), "locationName") == r.locationName
    ensures StringField(Json(r), "networkName") == r.networkName
    ensures StringField(Json(r), "mainSSID") == r.mainSSID
    ensures StringField(Json(r), "mainPass") == r.mainPass
  {
    TextDecodes(r, 0, "locationName", r.locationName);
    TextDecodes(r, 1, "networkName", r.networkName);
    TextDecodes(r, 2, "mainSSID", r.mainSSID);
    TextDecodes(r, 3, "mainPass", r.mainPass);
  }

  /** The alternative and developer network members decode to their values. */
  lemma DeviceMembersDecode(r: DeviceSettings)
    requires PlainTexts(r)
    ensures StringField(Json(r), "altSSID") == r.altSSID
    ensures StringField(Json(r), "altPass") == r.altPass
    ensures StringField(Json(r), "devSSID") == r.devSSID
    ensures StringField(Json(r), "devPass") == r.devPass
  {
    TextDecodes(r, 4, "altSSID", r.altSSID);
    TextDecodes(r, 5, "altPass", r.altPass);
    TextDecodes(r, 6, "devSSID", r.devSSID);
    TextDecodes(r, 7, "devPass", r.devPass);
  }

  /** The document with the members written first. */
  lemma JsonParts(r: DeviceSettings)
    ensures Json(r) == "{" + FieldsText(Scalars(r)) + (ENDPOINTS_KEY + EndpointArray(r.endpoints) + "]}")
  {
  }

  /** The text member at index `i` decodes to its value. */
  lemma TextDecodes(r: DeviceSettings, i: nat, key: string, value: string)
    requires i < 8 && Scalars(r)[i] == Text(key, value) && '\\' !in value
    ensures StringField(Json(r), key) == value
  {
    ScalarKeys(r);
    JsonParts(r);
    TextMemberDecodes(Scalars(r), i, ENDPOINTS_KEY + EndpointArray(r.endpoints) + "]}");
  }

  /** The interval member decodes to its value. */
  lemma NumberDecodes(r: DeviceSettings)
    ensures NumberField(Json(r), "checkInterval") == if r.checkInterval > LONG_MAX then LONG_MAX else r.checkInterval
  {
    ScalarKeys(r);
    JsonParts(r);
    NumberMemberDecodes(Scalars(r), 8, ENDPOINTS_KEY + EndpointArray(r.endpoints) + "]}");
  }

  /** `fromJson(toJson())` gives back the settings, up to what the decoder
      normalises, whenever the texts hold no backslash and the endpoints are
      plain. */
  lemma DecodedOfJson(r: DeviceSettings)
    requires PlainTexts(r) && PlainEndpoints(r.endpoints)
    ensures Decoded(Json(r)) == Normalized(r)
  {
    MembersDecode(r);
    ScalarKeys(r);
    EndpointsDecode(Scalars(r), r.endpoints);
  }

  /** A decoded record written out and read again comes back unchanged:
      the normalisation is done once and for all. */
  lemma DecodeIdempotent(r: DeviceSettings)
    requires PlainTexts(r) && PlainEndpoints(r.endpoints)
    ensures Decoded(Json(Decoded(Json(r)))) == Decoded(Json(r))
  {
    DecodedOfJson(r);
    NormalizedPlain(r);
    DecodedOfJson(Normalized(r));
    NormalizedTwice(r);
  }

  /** Normalising keeps the texts and the endpoints plain. */
  lemma NormalizedPlain(r: DeviceSettings)
    requires PlainTexts(r) && PlainEndpoints(r.endpoints)
    ensures PlainTexts(Normalized(r)) && PlainEndpoints(Normalized(r).endpoints)
  {
    var n := Normalized(r);
    assert '\\' !in n.locationName by {
      assert '\\' !in UNSET_LOCATION;
    }
    forall i | 0 <= i < |n.endpoints| ensures PlainEndpoint(n.endpoints[i]) {
      assert n.endpoints[i] == r.endpoints[i];
    }
  }

  /** Normalising a normalised record changes nothing. */
  lemma NormalizedTwice(r: DeviceSettings)
    ensures Normalized(Normalized(r)) == Normalized(r)
  {
  }

  /** The configuration written on first boot reads back as the defaults. */
  lemma DefaultsRoundTrip(d: DeviceSettings)
    requires d == Defaults()
    ensures Decoded(Json(d)) == d
  {
    DecodedOfJson(d);
  }
}
