/**
 * `SettingManager`: the device's settings record, the setters and endpoint
 * list operations that change it in memory, `toJson`/`fromJson`, and the
 * lifecycle that keeps it in `/config.json` on the flash file system.
 */
module Manager {
  import opened ArduinoText
  import opened Settings
  import opened Codec
  import opened FileStore
  import RoundTrip
  import DecoderFacts

  /** The one file the settings are kept in. */
  const CONFIG_FILE: string := "/config.json"

  class SettingManager {
    var settings: DeviceSettings
    var initialized: bool
    /** The file system, a global object on the device. */
    const store: Store

    /** The bound `addEndpoint` enforces holds of the list at all times. */
    ghost predicate Valid()
      reads this
    {
      |settings.endpoints| <= MAX_ENDPOINTS
    }

    /** Starts uninitialised, holding the defaults. */
    constructor (store: Store)
      ensures Valid() && this.store == store
      ensures settings == Defaults() && !initialized
    {
      this.store := store;
      initialized := false;
      settings := Defaults();
    }

    /** `getSettings` and the getters below: they read the record and change nothing. */
    method GetSettings() returns (r: DeviceSettings)
      ensures r == settings
    {
      r := settings;
    }

    method GetLocationName() returns (v: string)
      ensures v == settings.locationName
    {
      v := settings.locationName;
    }

    method GetNetworkName() returns (v: string)
      ensures v == settings.networkName
    {
      v := settings.networkName;
    }

    method GetMainSSID() returns (v: string)
      ensures v == settings.mainSSID
    {
      v := settings.mainSSID;
    }

    method GetMainPass() returns (v: string)
      ensures v == settings.mainPass
    {
      v := settings.mainPass;
    }

    method GetAltSSID() returns (v: string)
      ensures v == settings.altSSID
    {
      v := settings.altSSID;
    }

    method GetAltPass() returns (v: string)
      ensures v == settings.altPass
    {
      v := settings.altPass;
    }

    method GetDevSSID() returns (v: string)
      ensures v == settings.devSSID
    {
      v := settings.devSSID;
    }

    method GetDevPass() returns (v: string)
      ensures v == settings.devPass
    {
      v := settings.devPass;
    }

    method GetCheckInterval() returns (v: ULong)
      ensures v == settings.checkInterval
    {
      v := settings.checkInterval;
    }

    method GetEndpoints() returns (v: seq<string>)
      ensures v == settings.endpoints
    {
      v := settings.endpoints;
    }

    /** `setDefaults`: the factory record, with no endpoints. */
    method SetDefaults()
      modifies this`settings
      ensures Valid() && settings == Defaults()
    {
      settings := Defaults();
    }

    /** `isFirstBoot`: no configuration file exists yet. */
    method IsFirstBoot() returns (b: bool)
      ensures b <==> CONFIG_FILE !in store.files
    {
      var found := store.Exists(CONFIG_FILE);
      b := !found;
    }

    /** `begin`: mount the file system; on first boot write the defaults out;
        then load the file, falling back to the defaults when it cannot be
        read.  Fails when mounting fails and when the first save fails. */
    method Begin() returns (ok: bool)
      requires Valid()
      modifies this`settings, this`initialized, store
      ensures Valid()
      ensures !(store.mountable || store.formattable) ==>
                !ok && settings == old(settings) && initialized == old(initialized)
                && store.files == old(store.files)
      ensures (store.mountable || store.formattable) && CONFIG_FILE !in store.AfterMount(old(store.files))
              && !store.writeOk ==>
                !ok && settings == Defaults() && initialized == old(initialized)
                && store.files == store.AfterMount(old(store.files))
      ensures ok <==> (store.mountable || store.formattable)
                      && (CONFIG_FILE in store.AfterMount(old(store.files)) || store.writeOk)
      ensures ok ==> initialized && CONFIG_FILE in store.files
      ensures ok && CONFIG_FILE in store.AfterMount(old(store.files)) ==>
                store.files == store.AfterMount(old(store.files))
                && settings == if store.readOk then Decoded(store.files[CONFIG_FILE]) else Defaults()
      ensures ok && CONFIG_FILE !in store.AfterMount(old(store.files)) ==>
                settings == Defaults()
                && store.files == store.AfterMount(old(store.files))[CONFIG_FILE := Json(settings)]
    {
      var mounted := store.Mount();
      if !mounted {
        return false;
      }
      var first := IsFirstBoot();
      if first {
        var saved := SaveDefaults();
        if !saved {
          return false;
        }
      }
      LoadOrDefaults();
      initialized := true;
      ok := true;
    }

    /** The last step of `begin`: load the file, or fall back to the defaults. */
    method LoadOrDefaults()
      requires Valid()
      modifies this`settings
      ensures Valid()
      ensures settings == if store.readOk && CONFIG_FILE in store.files
                          then Decoded(store.files[CONFIG_FILE]) else Defaults()
    {
      var loaded := LoadSettings();
      if !loaded {
        SetDefaults();
      }
    }

    /** The first-boot step of `begin`: install the defaults and write them
        out; what is written decodes back to them. */
    method SaveDefaults() returns (ok: bool)
      modifies this`settings, store
      ensures Valid() && settings == Defaults()
      ensures ok == store.writeOk
      ensures store.files == if ok then old(store.files)[CONFIG_FILE := Json(settings)] else old(store.files)
      ensures ok ==> Decoded(store.files[CONFIG_FILE]) == Defaults()
    {
      SetDefaults();
      ok := SaveSettings();
      RoundTrip.DefaultsRoundTrip(settings);
    }

    /** `loadSettings`: read the configuration file and decode it; fails, and
        changes nothing, when the file cannot be opened. */
    method LoadSettings() returns (ok: bool)
      requires Valid()
      modifies this`settings
      ensures Valid()
      ensures ok <==> store.readOk && CONFIG_FILE in store.files
      ensures settings == if ok then Decoded(store.files[CONFIG_FILE]) else old(settings)
    {
      var text := store.Read(CONFIG_FILE);
      if text.None? {
        return false;
      }
      ok := FromJson(text.value);
    }

    /** `saveSettings`: write `toJson()` to the configuration file; fails, and
        changes nothing, when the file cannot be opened for writing. */
    method SaveSettings() returns (ok: bool)
      modifies store
      ensures ok == store.writeOk
      ensures store.files == if ok then old(store.files)[CONFIG_FILE := Json(settings)] else old(store.files)
    {
      var json := ToJson();
      ok := store.Write(CONFIG_FILE, json);
    }

    /** `resetToDefaults`: the defaults, saved when the file can be written;
        the outcome of the save is not reported. */
    method ResetToDefaults()
      modifies this`settings, store
      ensures Valid() && settings == Defaults()
      ensures store.files == if store.writeOk then old(store.files)[CONFIG_FILE := Json(Defaults())] else old(store.files)
    {
      SetDefaults();
      var _ := SaveSettings();
    }

    method SetLocationName(value: string)
      modifies this`settings
      ensures settings == old(settings).(locationName := value)
    {
      settings := settings.(locationName := value);
    }

    method SetNetworkName(value: string)
      modifies this`settings
      ensures settings == old(settings).(networkName := value)
    {
      settings := settings.(networkName := value);
    }

    method SetMainSSID(value: string)
      modifies this`settings
      ensures settings == old(settings).(mainSSID := value)
    {
      settings := settings.(mainSSID := value);
    }

    method SetMainPass(value: string)
      modifies this`settings
      ensures settings == old(settings).(mainPass := value)
    {
      settings := settings.(mainPass := value);
    }

    method SetAltSSID(value: string)
      modifies this`settings
      ensures settings == old(settings).(altSSID := value)
    {
      settings := settings.(altSSID := value);
    }

    method SetAltPass(value: string)
      modifies this`settings
      ensures settings == old(settings).(altPass := value)
    {
      settings := settings.(altPass := value);
    }

    method SetDevSSID(value: string)
      modifies this`settings
      ensures settings == old(settings).(devSSID := value)
    {
      settings := settings.(devSSID := value);
    }

    method SetDevPass(value: string)
      modifies this`settings
      ensures settings == old(settings).(devPass := value)
    {
      settings := settings.(devPass := value);
    }

    /** Any `unsigned long`, 0 included: only the decoder replaces 0. */
    method SetCheckInterval(value: ULong)
      modifies this`settings
      ensures settings == old(settings).(checkInterval := value)
    {
      settings := settings.(checkInterval := value);
    }

    /** `addEndpoint`: append `url` unless five are already held; the URL is
        not checked, so an empty one is kept too. */
    method AddEndpoint(url: string) returns (ok: bool)
      requires Valid()
      modifies this`settings
      ensures Valid()
      ensures ok <==> |old(settings.endpoints)| < MAX_ENDPOINTS
      ensures settings == if ok then old(settings).(endpoints := old(settings.endpoints) + [url]) else old(settings)
    {
      if |settings.endpoints| >= MAX_ENDPOINTS {
        return false;
      }
      settings := settings.(endpoints := settings.endpoints + [url]);
      ok := true;
    }

    /** `removeEndpoint`: erase the entry at `index`, keeping the order of the
        others; fails, and changes nothing, for an index out of range. */
    method RemoveEndpoint(index: int) returns (ok: bool)
      requires Valid()
      modifies this`settings
      ensures Valid()
      ensures ok <==> 0 <= index < |old(settings.endpoints)|
      ensures ok ==> settings == old(settings).(endpoints := old(settings.endpoints)[..index] + old(settings.endpoints)[index + 1..])
      ensures !ok ==> settings == old(settings)
    {
      if index < 0 || index >= |settings.endpoints| {
        return false;
      }
      settings := settings.(endpoints := settings.endpoints[..index] + settings.endpoints[index + 1..]);
      ok := true;
    }

    method ClearEndpoints()
      modifies this`settings
      ensures Valid() && settings == old(settings).(endpoints := [])
    {
      settings := settings.(endpoints := []);
    }

    /** `toJson`: the nine members in order, then the endpoint array. */
    method ToJson() returns (json: string)
      ensures json == Json(settings)
    {
      json := WriteMembers(settings);
      json := json + ENDPOINTS_KEY;
      json := WriteEndpoints(json, settings.endpoints);
      json := json + "]}";
    }

    /** `fromJson`: every field is replaced by what the text decodes to; the
        parse always succeeds. */
    method FromJson(json: string) returns (ok: bool)
      modifies this`settings
      ensures Valid()
      ensures ok && settings == Decoded(json)
    {
      var location := ExtractString(json, "locationName");
      if location == "" {
        location := UNSET_LOCATION;
      }
      var network := ExtractString(json, "networkName");
      var mainSSID := ExtractString(json, "mainSSID");
      var mainPass := ExtractString(json, "mainPass");
      var altSSID := ExtractString(json, "altSSID");
      var altPass := ExtractString(json, "altPass");
      var devSSID := ExtractString(json, "devSSID");
      var devPass := ExtractString(json, "devPass");
      var interval := ExtractNumber(json, "checkInterval");
      var eps := ParseEndpoints(json);
      settings := DeviceSettings(location, network, mainSSID, mainPass, altSSID, altPass,
                                 devSSID, devPass,
                                 if interval > 0 then interval as ULong else DEFAULT_CHECK_INTERVAL,
                                 eps);
      DecoderFacts.DecodedOk(json);
      ok := true;
    }
  }

  /** The first part of `toJson`: `{` and the nine members, in order. */
  method WriteMembers(r: DeviceSettings) returns (json: string)
    ensures json == "{" + FieldsText(Scalars(r))
  {
    json := AppendText("{", "locationName", r.locationName);
    json := AppendText(json, "networkName", r.networkName);
    json := AppendText(json, "mainSSID", r.mainSSID);
    json := AppendText(json, "mainPass", r.mainPass);
    json := AppendText(json, "altSSID", r.altSSID);
    json := AppendText(json, "altPass", r.altPass);
    json := AppendText(json, "devSSID", r.devSSID);
    json := AppendText(json, "devPass", r.devPass);
    json := AppendNumber(json, "checkInterval", r.checkInterval);
    MembersText(Scalars(r));
  }

  /** The loop of `toJson` over the endpoints: each one quoted and escaped,
      separated by commas. */
  method WriteEndpoints(json: string, eps: seq<string>) returns (out: string)
    ensures out == json + EndpointArray(eps)
  {
    out := json;
    for i := 0 to |eps|
      invariant out == json + EndpointArray(eps[..i])
    {
      assert eps[..i + 1] == eps[..i] + [eps[i]];
      EndpointArraySnoc(eps[..i], eps[i]);
      ghost var sep := if i > 0 then "," else "";
      if i > 0 {
        out := out + ",";
      }
      assert out == json + EndpointArray(eps[..i]) + sep;
      var q := EscapeJson(eps[i]);
      var quoted := "\"" + q + "\"";
      assert quoted == Quoted(eps[i]);
      Assoc(json, EndpointArray(eps[..i]), sep);
      Assoc(json, EndpointArray(eps[..i]) + sep, quoted);
      out := out + quoted;
    }
    assert eps[..|eps|] == eps;
  }

  /** One `json += "\"key\":\"" + escapeJson(value) + "\","` line of `toJson`. */
  method AppendText(json: string, key: string, value: string) returns (out: string)
    ensures out == json + FieldText(Text(key, value))
  {
    var e := EscapeJson(value);
    var member := "\"" + key + "\":\"" + e + "\",";
    out := json + member;
  }

  /** The `json += "\"checkInterval\":" + String(value) + ","` line of `toJson`. */
  method AppendNumber(json: string, key: string, value: nat) returns (out: string)
    ensures out == json + FieldText(Number(key, value))
  {
    out := json + "\"" + key + "\":" + Decimal(value) + ",";
  }

  /** The text of nine members, written one after the other. */
  lemma MembersText(fs: seq<Scalar>)
    requires |fs| == 9
    ensures "{" + FieldsText(fs) == "{" + FieldText(fs[0]) + FieldText(fs[1]) + FieldText(fs[2])
              + FieldText(fs[3]) + FieldText(fs[4]) + FieldText(fs[5]) + FieldText(fs[6])
              + FieldText(fs[7]) + FieldText(fs[8])
  {
    FirstSteps(fs);
    PrefixSteps(fs, 3);
    LastSteps(fs);
  }

  /** The text of the first three members. */
  lemma FirstSteps(fs: seq<Scalar>)
    requires 3 <= |fs|
    ensures "{" + FieldsText(fs[..3]) == "{" + FieldText(fs[0]) + FieldText(fs[1]) + FieldText(fs[2])
  {
    assert fs[..1] == [fs[0]];
    assert [fs[0]][1..] == [];
    assert FieldsText(fs[..1]) == FieldText(fs[0]);
    PrefixStep(fs, 1);
    PrefixStep(fs, 2);
  }

  /** The text of all nine members extends that of the first six. */
  lemma LastSteps(fs: seq<Scalar>)
    requires |fs| == 9
    ensures "{" + FieldsText(fs)
            == "{" + FieldsText(fs[..6]) + FieldText(fs[6]) + FieldText(fs[7]) + FieldText(fs[8])
  {
    PrefixStep(fs, 6);
    PrefixStep(fs, 7);
    LastStep(fs);
  }

  /** The text of all the members extends that of all but the last. */
  lemma LastStep(fs: seq<Scalar>)
    requires |fs| > 0
    ensures "{" + FieldsText(fs) == "{" + FieldsText(fs[..|fs| - 1]) + FieldText(fs[|fs| - 1])
  {
    PrefixStep(fs, |fs| - 1);
    assert fs[..|fs|] == fs;
  }

  /** Three more members: the text of the first `k + 3` extends that of the first `k`. */
  lemma PrefixSteps(fs: seq<Scalar>, k: nat)
    requires k + 3 <= |fs|
    ensures "{" + FieldsText(fs[..k + 3])
            == "{" + FieldsText(fs[..k]) + FieldText(fs[k]) + FieldText(fs[k + 1]) + FieldText(fs[k + 2])
  {
    PrefixStep(fs, k);
    PrefixStep(fs, k + 1);
    PrefixStep(fs, k + 2);
  }

  /** The text of the first `k + 1` members extends that of the first `k`. */
  lemma PrefixStep(fs: seq<Scalar>, k: nat)
    requires k < |fs|
    ensures "{" + FieldsText(fs[..k + 1]) == "{" + FieldsText(fs[..k]) + FieldText(fs[k])
  {
    assert fs[..k + 1] == fs[..k] + [fs[k]];
    FieldsTextAppend(fs[..k], [fs[k]]);
    assert [fs[k]][1..] == [];
    Assoc("{", FieldsText(fs[..k]), FieldText(fs[k]));
  }
}
