/**
 * The vision sensor's signal-to-number rules: the simulated vehicle count of
 * video mode, which follows a 20-second clock window, and the three-band map
 * from a vehicle count to the congestion factor handed to the map engine.
 */
module VisionSensor {

  /** The traffic status reported next to the congestion factor. */
  datatype Status = FreeFlow | Moderate | HeavyJam

  /** Counts from here up are no longer free flow. */
  const ModerateFrom: int := 10
  /** Counts from here up are a heavy jam. */
  const HeavyFrom: int := 30

  /** The multiplier on the monitored road's travel time, with its status. */
  function CongestionFactor(vehicleCount: int): (r: (real, Status))
    ensures vehicleCount < ModerateFrom ==> r == (1.0, FreeFlow)
    ensures ModerateFrom <= vehicleCount < HeavyFrom ==> r == (1.5, Moderate)
    ensures HeavyFrom <= vehicleCount ==> r == (3.0, HeavyJam)
  {
    if vehicleCount < ModerateFrom then (1.0, FreeFlow)
    else if vehicleCount < HeavyFrom then (1.5, Moderate)
    else (3.0, HeavyJam)
  }

  /** The vehicle count video mode reports when the clock reads `seconds` (whole seconds). */
  function SimulatedCount(seconds: nat): (count: int)
    ensures count == 45 || count == 5
  {
    if seconds % 20 > 10 then 45 else 5
  }

  /** The factor is one of the three band values, so it never lowers a travel time. */
  lemma FactorIsBandValue(vehicleCount: int)
    ensures var f := CongestionFactor(vehicleCount).0; (f == 1.0 || f == 1.5 || f == 3.0) && f >= 1.0
  {
  }

  /** More vehicles never give a smaller factor. */
  lemma FactorMonotone(fewer: int, more: int)
    requires fewer <= more
    ensures CongestionFactor(fewer).0 <= CongestionFactor(more).0
  {
  }

  /** The status and the factor determine each other. */
  lemma StatusMatchesFactor(a: int, b: int)
    ensures CongestionFactor(a).1 == CongestionFactor(b).1 <==> CongestionFactor(a).0 == CongestionFactor(b).0
  {
  }

  /**
   * In video mode the last nine seconds of every 20-second window read as a
   * heavy jam (factor 3.0); the first eleven read as free flow (factor 1.0).
   */
  lemma SimulatedWindowFactor(seconds: nat)
    ensures seconds % 20 > 10 ==> CongestionFactor(SimulatedCount(seconds)) == (3.0, HeavyJam)
    ensures seconds % 20 <= 10 ==> CongestionFactor(SimulatedCount(seconds)) == (1.0, FreeFlow)
  {
  }

  /** The simulated count repeats every 20 seconds. */
  lemma SimulatedCountPeriodic(seconds: nat)
    ensures SimulatedCount(seconds + 20) == SimulatedCount(seconds)
  {
  }
}
