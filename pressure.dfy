/**
 * The pressure-center configuration and its normalisation: fields that are
 * missing (zero after decoding) or invalid snap to compiled-in defaults.
 */
module Pressure {
  import opened Wrappers

  /** PressureConfig. Times are milliseconds, the capacity a key count. */
  datatype PressureConfig = PressureConfig(
    MaxSleeptime: int,    // upper clamp; negative means unclamped, 0 means "use the default"
    UpdateInterval: int,  // refresh period, must be positive
    MaxKeyCapacity: int,  // most keys kept by a refresh, must be positive
    EvictThreshold: int   // idle time after which a key is dropped, must be positive
  )

  const DefaultPressureMaxSleeptime := 1000
  const DefaultPressureUpdateInterval := 5000
  const DefaultPressureMaxKeyCapacity := 1000
  const DefaultPressureEvictThreshold := 1 * 60 * 1000

  const DefaultPressureConfig := PressureConfig(
    DefaultPressureMaxSleeptime, DefaultPressureUpdateInterval,
    DefaultPressureMaxKeyCapacity, DefaultPressureEvictThreshold)

  /** What every configuration handed out by NewPressureConfigByJsonStr satisfies. */
  predicate Normalized(c: PressureConfig) {
    c.MaxSleeptime != 0 && c.UpdateInterval > 0 && c.MaxKeyCapacity > 0 && c.EvictThreshold > 0
  }

  /** The field-by-field patching of a decoded configuration. */
  function Normalize(c: PressureConfig): (r: PressureConfig)
    ensures Normalized(r)
    // MaxSleeptime: only 0 is replaced; a negative value is kept and means "unclamped"
    ensures c.MaxSleeptime != 0 ==> r.MaxSleeptime == c.MaxSleeptime
    ensures c.MaxSleeptime == 0 ==> r.MaxSleeptime == DefaultPressureMaxSleeptime
    // the other three: every non-positive value becomes its default, positive values pass
    ensures c.UpdateInterval > 0 ==> r.UpdateInterval == c.UpdateInterval
    ensures c.UpdateInterval <= 0 ==> r.UpdateInterval == DefaultPressureUpdateInterval
    ensures c.MaxKeyCapacity > 0 ==> r.MaxKeyCapacity == c.MaxKeyCapacity
    ensures c.MaxKeyCapacity <= 0 ==> r.MaxKeyCapacity == DefaultPressureMaxKeyCapacity
    ensures c.EvictThreshold > 0 ==> r.EvictThreshold == c.EvictThreshold
    ensures c.EvictThreshold <= 0 ==> r.EvictThreshold == DefaultPressureEvictThreshold
  {
    var c1 := if c.MaxSleeptime == 0 then c.(MaxSleeptime := DefaultPressureMaxSleeptime) else c;
    var c2 := if c1.UpdateInterval <= 0 then c1.(UpdateInterval := DefaultPressureUpdateInterval) else c1;
    var c3 := if c2.MaxKeyCapacity <= 0 then c2.(MaxKeyCapacity := DefaultPressureMaxKeyCapacity) else c2;
    if c3.EvictThreshold <= 0 then c3.(EvictThreshold := DefaultPressureEvictThreshold) else c3
  }

  /**
   * NewPressureConfigByJsonStr. `decoded` is what json.Unmarshal produced from
   * `data` (absent fields are 0), or None when decoding failed.
   */
  function NewPressureConfigByJsonStr(data: string, decoded: Option<PressureConfig>): (r: PressureConfig)
    ensures Normalized(r)
    ensures data == "" ==> r == DefaultPressureConfig
    ensures data != "" && decoded.None? ==> r == DefaultPressureConfig
    ensures data != "" && decoded.Some? ==> r == Normalize(decoded.value)
    ensures data != "" && decoded.Some? && Normalized(decoded.value) ==> r == decoded.value
  {
    if data == "" then DefaultPressureConfig
    else
      var conf := match decoded case Some(c) => c case None => DefaultPressureConfig;
      Normalize(conf)
  }

  /** Normalisation changes nothing in a configuration that is already valid, so applying it twice is applying it once. */
  lemma NormalizeIdempotent(c: PressureConfig)
    ensures Normalized(c) ==> Normalize(c) == c
    ensures Normalize(Normalize(c)) == Normalize(c)
  {
  }

  /** Only the illegal fields are replaced: a valid MaxSleeptime survives next to defaulted fields. */
  lemma PartlyValidConfig()
    ensures NewPressureConfigByJsonStr("{}", Some(PressureConfig(300, 0, 0, -5))) == PressureConfig(300, 5000, 1000, 60000)
    ensures NewPressureConfigByJsonStr("{}", Some(PressureConfig(-1, 200, 3, 0))) == PressureConfig(-1, 200, 3, 60000)
  {
  }
}
