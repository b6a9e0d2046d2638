/**
 * `LBConfig`: the library's settings, each read from the application's
 * manifest metadata with a default for a missing key, and the one shared
 * instance built on first use.
 */
module Configuration {
  import opened Common

  /** A metadata value as a `Bundle` holds it. */
  datatype MetaValue = IntValue(i: int) | BoolValue(b: bool) | StringValue(s: string)

  type Bundle = map<string, MetaValue>

  const DebugKey := "net.p_lucky.logbk.android.LBConfig.EnableDebugLogging"
  const BulkUploadLimitKey := "net.p_lucky.logbk.android.LBConfig.BulkUploadLimit"
  const FlushIntervalKey := "net.p_lucky.logbk.android.LBConfig.FlushInterval"
  const DataExpirationKey := "net.p_lucky.logbk.android.LBConfig.DataExpiration"
  const EventsEndpointKey := "net.p_lucky.logbk.android.LBConfig.EventsEndpoint"

  /** 40 records. */
  const DefaultBulkUploadLimit := 40
  /** One minute. */
  const DefaultFlushInterval := 60 * 1000
  /** Five days. */
  const DefaultDataExpiration := 1000 * 60 * 60 * 24 * 5
  const DefaultEventsEndpoint := "https://tracker.logbk.net/v1/track"

  /** `Bundle.getInt`: the value under `key` when it is an int, otherwise the default. */
  function GetInt(b: Bundle, key: string, default: int): (r: int)
    ensures key in b && b[key].IntValue? ==> r == b[key].i
    ensures !(key in b && b[key].IntValue?) ==> r == default
  {
    if key in b && b[key].IntValue? then b[key].i else default
  }

  /** `Bundle.getBoolean`: the value under `key` when it is a boolean, otherwise the default. */
  function GetBoolean(b: Bundle, key: string, default: bool): (r: bool)
    ensures key in b && b[key].BoolValue? ==> r == b[key].b
    ensures !(key in b && b[key].BoolValue?) ==> r == default
  {
    if key in b && b[key].BoolValue? then b[key].b else default
  }

  /** `Bundle.getString`: the value under `key` when it is a string, otherwise null. */
  function GetString(b: Bundle, key: string): (r: Option<string>)
    ensures key in b && b[key].StringValue? <==> r.Some?
    ensures r.Some? ==> r.value == b[key].s
  {
    if key in b && b[key].StringValue? then Some(b[key].s) else None
  }

  /**
   * An `LBConfig` object; its fields are final, so a value. `debug` is the
   * value the constructor gives the global `DEBUG` flag.
   */
  datatype Config = Config(bulkUploadLimit: int, flushInterval: int, dataExpiration: int, eventsEndpoint: string, debug: bool)

  /** The `LBConfig(Bundle)` constructor: each setting from its key, or its default. */
  function FromMetaData(metaData: Bundle): (c: Config)
    ensures c.bulkUploadLimit == GetInt(metaData, BulkUploadLimitKey, DefaultBulkUploadLimit)
    ensures c.flushInterval == GetInt(metaData, FlushIntervalKey, DefaultFlushInterval)
    ensures c.dataExpiration == GetInt(metaData, DataExpirationKey, DefaultDataExpiration)
    ensures c.eventsEndpoint == GetString(metaData, EventsEndpointKey).GetOr(DefaultEventsEndpoint)
    ensures c.debug == GetBoolean(metaData, DebugKey, false)
  {
    var endpoint := GetString(metaData, EventsEndpointKey);
    Config(
      GetInt(metaData, BulkUploadLimitKey, DefaultBulkUploadLimit),
      GetInt(metaData, FlushIntervalKey, DefaultFlushInterval),
      GetInt(metaData, DataExpirationKey, DefaultDataExpiration),
      if endpoint.None? then DefaultEventsEndpoint else endpoint.value,
      GetBoolean(metaData, DebugKey, false))
  }

  const Defaults := Config(DefaultBulkUploadLimit, DefaultFlushInterval, DefaultDataExpiration, DefaultEventsEndpoint, false)

  /** What the package manager answers for the application: no such package, or its metadata (possibly null). */
  datatype PackageInfo = NameNotFound | Found(metaData: Option<Bundle>)

  /** `readConfig`: a null bundle reads as an empty one; an unknown package is an error (`None`: the method throws). */
  function ReadConfig(info: PackageInfo): (r: Option<Config>)
    ensures r.None? <==> info.NameNotFound?
  {
    match info
    case NameNotFound => None
    case Found(metaData) => Some(FromMetaData(metaData.GetOr(map[])))
  }

  /** With no key set, every setting is its default: 40 records, one minute, five days, and the tracker url. */
  lemma MissingKeysGiveDefaults(metaData: Bundle)
    requires BulkUploadLimitKey !in metaData && FlushIntervalKey !in metaData && DataExpirationKey !in metaData
    requires EventsEndpointKey !in metaData && DebugKey !in metaData
    ensures FromMetaData(metaData) == Defaults
    ensures Defaults.flushInterval == 60000 && Defaults.dataExpiration == 432000000
  {
  }

  /** A null metadata bundle gives the defaults. */
  lemma NullBundleGivesDefaults()
    ensures ReadConfig(Found(None)) == Some(Defaults)
  {
    MissingKeysGiveDefaults(map[]);
  }

  /**
   * Each setting is the value its key holds in the metadata when that value
   * has the setting's type (an int for the limits, a string for the
   * endpoint, a boolean for the debug flag); an absent key, or a value of
   * another type, gives the setting's default.
   */
  lemma PresentKeysKept(b: Bundle)
    ensures var c := FromMetaData(b);
      && (BulkUploadLimitKey in b && b[BulkUploadLimitKey].IntValue? ==> c.bulkUploadLimit == b[BulkUploadLimitKey].i)
      && (!(BulkUploadLimitKey in b && b[BulkUploadLimitKey].IntValue?) ==> c.bulkUploadLimit == DefaultBulkUploadLimit)
      && (FlushIntervalKey in b && b[FlushIntervalKey].IntValue? ==> c.flushInterval == b[FlushIntervalKey].i)
      && (!(FlushIntervalKey in b && b[FlushIntervalKey].IntValue?) ==> c.flushInterval == DefaultFlushInterval)
      && (DataExpirationKey in b && b[DataExpirationKey].IntValue? ==> c.dataExpiration == b[DataExpirationKey].i)
      && (!(DataExpirationKey in b && b[DataExpirationKey].IntValue?) ==> c.dataExpiration == DefaultDataExpiration)
      && (EventsEndpointKey in b && b[EventsEndpointKey].StringValue? ==> c.eventsEndpoint == b[EventsEndpointKey].s)
      && (!(EventsEndpointKey in b && b[EventsEndpointKey].StringValue?) ==> c.eventsEndpoint == DefaultEventsEndpoint)
      && (DebugKey in b && b[DebugKey].BoolValue? ==> c.debug == b[DebugKey].b)
      && (!(DebugKey in b && b[DebugKey].BoolValue?) ==> !c.debug)
  {
  }

  /** The metadata that sets every setting of `c` under its key. */
  function MetaDataOf(c: Config): Bundle {
    map[BulkUploadLimitKey := IntValue(c.bulkUploadLimit), FlushIntervalKey := IntValue(c.flushInterval),
        DataExpirationKey := IntValue(c.dataExpiration), EventsEndpointKey := StringValue(c.eventsEndpoint),
        DebugKey := BoolValue(c.debug)]
  }

  /** Every configuration can be set from the manifest: reading its metadata gives it back. */
  lemma {:induction false} MetaDataRoundTrip(c: Config)
    ensures FromMetaData(MetaDataOf(c)) == c
  {
    var b := MetaDataOf(c);
    PresentKeysKept(b);
  }

  /** The shared configuration of `LBConfig.getInstance`, built once. */
  class ConfigHolder {
    var instance: Option<Config>

    constructor ()
      ensures instance.None?
    {
      instance := None;
    }

    /**
     * `getInstance`: builds the configuration from what the package manager
     * says about the caller's application on the first successful call, and
     * returns that same configuration on every later call, whatever the
     * caller. `None` where the method throws, which leaves nothing cached.
     */
    method GetInstance(info: PackageInfo) returns (r: Option<Config>)
      modifies this
      ensures old(instance).Some? ==> r == old(instance) && instance == old(instance)
      ensures old(instance).None? ==> r == ReadConfig(info) && instance == r
    {
      if instance.None? {
        instance := ReadConfig(info);
      }
      r := instance;
    }
  }
}
