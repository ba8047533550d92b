/**
 * The environment status shown on the dashboard's card (src/App.js): a
 * reading in °F and %RH is sorted into one of three tiers by fixed
 * thresholds, and each tier has a subtitle.
 *
 * Arithmetic is over the reals: the thresholds below are exact, whereas
 * the original computes in doubles, where an input on a boundary may land
 * just below it.
 */
module Environment {

  datatype Tier = Emergency | Warning | Safe

  /** Fahrenheit to Celsius, (f - 32) * (5 / 9); it is inverted by c * 9/5 + 32. */
  function ToC(f: real): (c: real)
    ensures c * 9.0 / 5.0 + 32.0 == f
  {
    (f - 32.0) * (5.0 / 9.0)
  }

  /**
   * Emergency at 30 °C or 70 % and above, otherwise Warning at 27 °C or
   * 60 % and above, otherwise Safe. The contract restates the thresholds in
   * the unit the reading arrives in: 30 °C is 86 °F and 27 °C is 80.6 °F.
   */
  function ComputeEnvState(tempF: real, humPct: real): (t: Tier)
    ensures t == Emergency <==> tempF >= 86.0 || humPct >= 70.0
    ensures t == Warning <==> tempF < 86.0 && humPct < 70.0 && (tempF >= 80.6 || humPct >= 60.0)
    ensures t == Safe <==> tempF < 80.6 && humPct < 60.0
  {
    var tempC := ToC(tempF);
    if tempC >= 30.0 || humPct >= 70.0 then Emergency
    else if tempC >= 27.0 || humPct >= 60.0 then Warning
    else Safe
  }

  /** The subtitle under the status badge; each text belongs to exactly one tier. */
  function StateSubtitle(t: Tier): (s: string)
    ensures (t == Emergency) == (s == "Immediate Action Required")
    ensures (t == Warning) == (s == "Monitor Area")
    ensures (t == Safe) == (s == "Conditions Normal")
  {
    match t
    case Emergency => "Immediate Action Required"
    case Warning => "Monitor Area"
    case Safe => "Conditions Normal"
  }

  /** How alarming a tier is: Safe < Warning < Emergency. */
  function Rank(t: Tier): nat {
    match t
    case Safe => 0
    case Warning => 1
    case Emergency => 2
  }

  /**
   * The two conditions are independent and or-ed: a hotter or more humid
   * reading never gets a calmer tier.
   */
  lemma ClassifierMonotone(t1: real, h1: real, t2: real, h2: real)
    requires t1 <= t2 && h1 <= h2
    ensures Rank(ComputeEnvState(t1, h1)) <= Rank(ComputeEnvState(t2, h2))
  {
  }
}
