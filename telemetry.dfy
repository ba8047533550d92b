/**
 * The simulated sensor feed (src/useFakeEnvData.js): a reading of
 * temperature (°F) and relative humidity (%) that every tick takes a small
 * random step and is clamped back into a fixed band.
 *
 * The timer and Math.random are not modelled: each tick is a call of Step
 * with the two draws Math.random returned, both in [0, 1).
 */
module Telemetry {

  datatype Reading = Reading(temp: real, hum: real)

  /** The two Math.random results one tick consumes: first for temperature, then for humidity. */
  datatype Draw = Draw(rTemp: real, rHum: real)

  const MinTemp: real := 60.0
  const MaxTemp: real := 100.0
  const MinHum: real := 15.0
  const MaxHum: real := 90.0

  /** The reading the hook starts from. */
  const Initial: Reading := Reading(78.0, 42.0)

  /** Math.random() returns a value in [0, 1). */
  predicate IsRandom(r: real) {
    0.0 <= r < 1.0
  }

  predicate ValidDraw(d: Draw) {
    IsRandom(d.rTemp) && IsRandom(d.rHum)
  }

  predicate InRange(x: Reading) {
    MinTemp <= x.temp <= MaxTemp && MinHum <= x.hum <= MaxHum
  }

  function Abs(x: real): real {
    if x < 0.0 then -x else x
  }

  function Max(a: real, b: real): real {
    if a >= b then a else b
  }

  function Min(a: real, b: real): real {
    if a <= b then a else b
  }

  /** Math.max(lo, Math.min(hi, x)). */
  function Clamp(lo: real, hi: real, x: real): (y: real)
    requires lo <= hi
    ensures lo <= y <= hi
    ensures lo <= x <= hi ==> y == x
    ensures x < lo ==> y == lo
    ensures x > hi ==> y == hi
  {
    Max(lo, Min(hi, x))
  }

  /** The raw temperature step (r - 0.5) * 1.6. */
  function TempDelta(r: real): (d: real)
    requires IsRandom(r)
    ensures -0.8 <= d < 0.8
  {
    (r - 0.5) * 1.6
  }

  /** The raw humidity step (r - 0.5) * 2.2. */
  function HumDelta(r: real): (d: real)
    requires IsRandom(r)
    ensures -1.1 <= d < 1.1
  {
    (r - 0.5) * 2.2
  }

  /** The `setData` updater: one tick of the clamped random walk. */
  function Step(prev: Reading, d: Draw): (next: Reading)
    requires ValidDraw(d)
    ensures InRange(next)
  {
    Reading(Clamp(MinTemp, MaxTemp, prev.temp + TempDelta(d.rTemp)),
            Clamp(MinHum, MaxHum, prev.hum + HumDelta(d.rHum)))
  }

  lemma InitialInRange()
    ensures InRange(Initial)
    ensures Initial.temp == 78.0 && Initial.hum == 42.0
  {
  }

  /**
   * From a reading inside the band, clamping never pushes the value away
   * from where it was: each coordinate moves by at most its raw step.
   */
  lemma StepIsSmall(prev: Reading, d: Draw)
    requires InRange(prev) && ValidDraw(d)
    ensures Abs(Step(prev, d).temp - prev.temp) <= Abs(TempDelta(d.rTemp)) <= 0.8
    ensures Abs(Step(prev, d).hum - prev.hum) <= Abs(HumDelta(d.rHum)) <= 1.1
  {
  }

  /** When the raw step stays inside the band, the clamp leaves it alone. */
  lemma StepUnclamped(prev: Reading, d: Draw)
    requires ValidDraw(d)
    ensures MinTemp <= prev.temp + TempDelta(d.rTemp) <= MaxTemp ==>
              Step(prev, d).temp == prev.temp + TempDelta(d.rTemp)
    ensures MinHum <= prev.hum + HumDelta(d.rHum) <= MaxHum ==>
              Step(prev, d).hum == prev.hum + HumDelta(d.rHum)
  {
  }

  predicate AllValid(draws: seq<Draw>) {
    forall i :: 0 <= i < |draws| ==> ValidDraw(draws[i])
  }

  /** The reading after one tick per draw, oldest draw first. */
  function Walk(start: Reading, draws: seq<Draw>): (last: Reading)
    requires AllValid(draws)
    ensures draws == [] ==> last == start
    ensures draws != [] ==> InRange(last)
    decreases |draws|
  {
    if draws == [] then start else Walk(Step(start, draws[0]), draws[1..])
  }

  /**
   * A walk that starts inside the band stays inside it, and after n ticks
   * has drifted at most 0.8 n °F and 1.1 n % from where it started.
   */
  lemma {:induction false} WalkDrift(start: Reading, draws: seq<Draw>)
    requires InRange(start) && AllValid(draws)
    ensures InRange(Walk(start, draws))
    ensures Abs(Walk(start, draws).temp - start.temp) <= 0.8 * |draws| as real
    ensures Abs(Walk(start, draws).hum - start.hum) <= 1.1 * |draws| as real
    decreases |draws|
  {
    if draws != [] {
      var next := Step(start, draws[0]);
      StepIsSmall(start, draws[0]);
      assert AllValid(draws[1..]) by {
        forall i | 0 <= i < |draws[1..]| ensures ValidDraw(draws[1..][i]) {
          assert draws[1..][i] == draws[i + 1];
        }
      }
      WalkDrift(next, draws[1..]);
    }
  }

  /** Every reading the hook ever reports, from the initial one on, lies in the band. */
  lemma WalkFromInitialInRange(draws: seq<Draw>)
    requires AllValid(draws)
    ensures InRange(Walk(Initial, draws))
  {
    WalkDrift(Initial, draws);
  }
}
