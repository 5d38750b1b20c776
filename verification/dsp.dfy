/** The control side of the built-in 10-band equalizer (src/audio/dsp.rs): the
    mapping between slider values and decibels, the shared gain settings with
    their clamps, and the stereo balance law. Gains are `real` here; the
    program stores them as `f32`. */
module Dsp {

  const BAND_COUNT: nat := 10
  const MIN_DB: real := -12.0
  const MAX_DB: real := 12.0
  const MIN_BALANCE: real := -1.0
  const MAX_BALANCE: real := 1.0

  /** Centre frequencies of the ten bands, in Hz. */
  const EQ_FREQUENCIES: seq<real> :=
    [32.0, 64.0, 125.0, 250.0, 500.0, 1000.0, 2000.0, 4000.0, 8000.0, 16000.0]

  /** `f32::clamp`. */
  function Clamp(x: real, lo: real, hi: real): (r: real)
    requires lo <= hi
    ensures lo <= r <= hi
    ensures lo <= x <= hi ==> r == x
    ensures x < lo ==> r == lo
    ensures x > hi ==> r == hi
  {
    if x < lo then lo else if x > hi then hi else x
  }

  /** Slider value (0.0 .. 1.0) to gain in dB (-12 .. +12). */
  function ValueToDb(value: real): (db: real)
    ensures value == 0.0 ==> db == MIN_DB
    ensures value == 0.5 ==> db == 0.0
    ensures value == 1.0 ==> db == MAX_DB
    ensures 0.0 <= value <= 1.0 <==> MIN_DB <= db <= MAX_DB
  {
    (value - 0.5) * 24.0
  }

  /** Gain in dB to slider value. */
  function DbToValue(db: real): (value: real)
    ensures db == 0.0 ==> value == 0.5
    ensures MIN_DB <= db <= MAX_DB <==> 0.0 <= value <= 1.0
  {
    db / 24.0 + 0.5
  }

  lemma DbToValueInvertsValueToDb(value: real)
    ensures DbToValue(ValueToDb(value)) == value
  {
  }

  lemma ValueToDbInvertsDbToValue(db: real)
    ensures ValueToDb(DbToValue(db)) == db
  {
  }

  /** A higher slider position always means more gain. */
  lemma ValueToDbStrictlyMonotone(a: real, b: real)
    ensures a < b <==> ValueToDb(a) < ValueToDb(b)
  {
  }

  /** The settings the UI shares with the audio thread (`EqGains`). */
  datatype EqGains = EqGains(gains: seq<real>, enabled: bool, preampDb: real, balance: real)
  {
    ghost predicate Valid() {
      |gains| == BAND_COUNT
    }

    /** Every band, the preamp and the balance lie within their clamps. */
    ghost predicate InRange() {
      && Valid()
      && (forall i :: 0 <= i < |gains| ==> MIN_DB <= gains[i] <= MAX_DB)
      && MIN_DB <= preampDb <= MAX_DB
      && MIN_BALANCE <= balance <= MAX_BALANCE
    }
  }

  /** `EqGains::new`: flat bands, enabled, no preamp, centred. */
  function NewGains(): (g: EqGains)
    ensures g.Valid() && g.InRange()
    ensures forall i :: 0 <= i < BAND_COUNT ==> g.gains[i] == 0.0
    ensures g.enabled && g.preampDb == 0.0 && g.balance == 0.0
  {
    EqGains(seq(BAND_COUNT, _ => 0.0), true, 0.0, 0.0)
  }

  /** `set_gain`: a band index of 10 or more is ignored; otherwise that one
      band takes the clamped gain and nothing else changes. */
  function SetGain(g: EqGains, band: nat, db: real): (r: EqGains)
    requires g.Valid()
    ensures r.Valid()
    ensures band >= BAND_COUNT ==> r == g
    ensures band < BAND_COUNT ==> r.gains[band] == Clamp(db, MIN_DB, MAX_DB)
    ensures forall i :: 0 <= i < BAND_COUNT && i != band ==> r.gains[i] == g.gains[i]
    ensures r.enabled == g.enabled && r.preampDb == g.preampDb && r.balance == g.balance
  {
    if band < BAND_COUNT then g.(gains := g.gains[band := Clamp(db, MIN_DB, MAX_DB)]) else g
  }

  /** `set_gain_from_value`. */
  function SetGainFromValue(g: EqGains, band: nat, value: real): (r: EqGains)
    requires g.Valid()
    ensures r.Valid()
    ensures band < BAND_COUNT && 0.0 <= value <= 1.0 ==> r.gains[band] == ValueToDb(value)
    ensures band < BAND_COUNT && value > 1.0 ==> r.gains[band] == MAX_DB
    ensures band < BAND_COUNT && value < 0.0 ==> r.gains[band] == MIN_DB
    ensures forall i :: 0 <= i < BAND_COUNT && i != band ==> r.gains[i] == g.gains[i]
  {
    SetGain(g, band, ValueToDb(value))
  }

  /** `set_all_from_values`: every band from its slider value. This path does
      not clamp, so the gains stay within range only if the values do. */
  function SetAllFromValues(g: EqGains, values: seq<real>): (r: EqGains)
    requires |values| == BAND_COUNT
    ensures r.Valid()
    ensures forall i :: 0 <= i < BAND_COUNT ==> DbToValue(r.gains[i]) == values[i]
    ensures r.enabled == g.enabled && r.preampDb == g.preampDb && r.balance == g.balance
  {
    g.(gains := seq(BAND_COUNT, i requires 0 <= i < BAND_COUNT => ValueToDb(values[i])))
  }

  function SetEnabled(g: EqGains, enabled: bool): (r: EqGains)
    ensures r.enabled == enabled
    ensures r.gains == g.gains && r.preampDb == g.preampDb && r.balance == g.balance
  {
    g.(enabled := enabled)
  }

  /** `reset`: all ten bands back to 0 dB; preamp, balance and the enabled
      flag are untouched. */
  function Reset(g: EqGains): (r: EqGains)
    ensures r.Valid()
    ensures forall i :: 0 <= i < BAND_COUNT ==> r.gains[i] == 0.0
    ensures r.enabled == g.enabled && r.preampDb == g.preampDb && r.balance == g.balance
  {
    g.(gains := seq(BAND_COUNT, _ => 0.0))
  }

  /** `set_preamp_db`: stored clamped to [-12, 12]. */
  function SetPreampDb(g: EqGains, db: real): (r: EqGains)
    ensures MIN_DB <= r.preampDb <= MAX_DB
    ensures MIN_DB <= db <= MAX_DB ==> r.preampDb == db
    ensures r.gains == g.gains && r.enabled == g.enabled && r.balance == g.balance
  {
    g.(preampDb := Clamp(db, MIN_DB, MAX_DB))
  }

  /** `set_balance`: stored clamped to [-1, 1]. */
  function SetBalance(g: EqGains, balance: real): (r: EqGains)
    ensures MIN_BALANCE <= r.balance <= MAX_BALANCE
    ensures MIN_BALANCE <= balance <= MAX_BALANCE ==> r.balance == balance
    ensures r.gains == g.gains && r.enabled == g.enabled && r.preampDb == g.preampDb
  {
    g.(balance := Clamp(balance, MIN_BALANCE, MAX_BALANCE))
  }

  /** Every setter keeps the shared gains within their clamps. */
  lemma SettersPreserveRange(g: EqGains, band: nat, x: real, values: seq<real>)
    requires g.InRange()
    ensures SetGain(g, band, x).InRange()
    ensures SetPreampDb(g, x).InRange()
    ensures SetBalance(g, x).InRange()
    ensures Reset(g).InRange()
    ensures SetEnabled(g, x > 0.0).InRange()
    ensures |values| == BAND_COUNT && (forall i :: 0 <= i < BAND_COUNT ==> 0.0 <= values[i] <= 1.0)
      ==> SetAllFromValues(g, values).InRange()
  {
  }

  /** The balance law applied after the equalizer: `(left gain, right gain)`.
      Panning right attenuates the left channel linearly and vice versa. */
  function BalanceGains(balance: real): (r: (real, real))
    ensures balance == 0.0 ==> r == (1.0, 1.0)
    ensures balance >= 0.0 ==> r.1 == 1.0
    ensures balance <= 0.0 ==> r.0 == 1.0
    ensures balance == MAX_BALANCE ==> r.0 == 0.0
    ensures balance == MIN_BALANCE ==> r.1 == 0.0
    ensures MIN_BALANCE <= balance <= MAX_BALANCE ==> 0.0 <= r.0 <= 1.0 && 0.0 <= r.1 <= 1.0
  {
    var left := if balance > 0.0 then 1.0 - balance else 1.0;
    var right := if balance < 0.0 then 1.0 + balance else 1.0;
    (left, right)
  }

  /** Moving the balance further right never raises the left gain, and
      the two sides mirror each other. */
  lemma BalanceLawMonotoneAndSymmetric(a: real, b: real)
    requires a <= b
    ensures BalanceGains(b).0 <= BalanceGains(a).0
    ensures BalanceGains(a).1 <= BalanceGains(b).1
    ensures BalanceGains(-a).0 == BalanceGains(a).1
  {
  }
}
