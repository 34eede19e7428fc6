/** What a USB-PD contract leaves of the frequency and the core voltage (main/device.c). */
module Derating {
  datatype Model = BC01 | BC01Pro | Other

  /** The frequency and core voltage the miner is set to. */
  datatype Setting = Setting(frequency: nat, voltage: nat)

  function Min(x: nat, y: nat): nat { if x < y then x else y }

  /** No more than this, by model. */
  function Limit(model: Model, x: nat, pro: nat, plain: nat): nat {
    match model
    case BC01Pro => Min(x, pro)
    case BC01 => Min(x, plain)
    case Other => x
  }

  /** Whether a contract is strong enough, by its voltage and current in mA. */
  predicate Enough(volt: nat, current: nat) {
    if volt == 15 then current >= 2000
    else if volt == 12 then current >= 3000
    else if volt == 9 then current >= 2220
    else current >= 3000
  }

  /** That is 30 W at 15 V, 36 W at 12 V, 19.98 W at 9 V and 15 W at 5 V. */
  lemma EnoughIff(volt: nat, current: nat, power: nat)
    requires volt in {5, 9, 12, 15} && power == volt * current
    ensures Enough(volt, current) <==>
      (volt == 15 && power >= 30000) || (volt == 12 && power >= 36000)
      || (volt == 9 && power >= 19980) || (volt == 5 && power >= 15000)
  {}

  /** The setting a contract leaves; a voltage limit applies even if it is too weak. */
  function Derated(model: Model, volt: nat, current: nat, s: Setting): (r: Setting)
    ensures r.frequency <= s.frequency && r.voltage <= s.voltage
  {
    if volt == 15 || volt == 12 then s
    else if volt == 9 then
      Setting(
        if current >= 3000 then Limit(model, s.frequency, 350, 650)
        else if current >= 2770 then Limit(model, s.frequency, 330, 600)
        else if current >= 2220 then Limit(model, s.frequency, 300, 480)
        else s.frequency,
        Limit(model, s.voltage, 95, 115))
    else
      Setting(if current >= 3000 then Limit(model, s.frequency, 300, 400) else s.frequency,
              Limit(model, s.voltage, 93, 115))
  }

  /** What the two boards that derate may draw, by the power of the contract: at 9 V up to 27 W,
      24.93 W and 19.98 W, and at 5 V, at 15 W.  No sufficient contract leaves more, and what is
      within the limit is left alone. */
  lemma DeratingLimits(model: Model, volt: nat, current: nat, s: Setting, frequency: nat, voltage: nat)
    requires model != Other && volt in {5, 9} && Enough(volt, current)
    requires var (power, pro) := (volt * current, model == BC01Pro);
      if volt == 5 then (frequency, voltage) == (if pro then (300, 93) else (400, 115))
      else
        && voltage == (if pro then 95 else 115)
        && frequency == (if power >= 27000 then (if pro then 350 else 650)
                         else if power >= 24930 then (if pro then 330 else 600)
                         else (if pro then 300 else 480))
    ensures var r := Derated(model, volt, current, s);
      && r.frequency <= frequency && (s.frequency <= frequency ==> r.frequency == s.frequency)
      && r.voltage <= voltage && (s.voltage <= voltage ==> r.voltage == s.voltage)
  {}

  /** Neither a contract at 12 V or more nor any other board is derated. */
  lemma NotDerated(model: Model, volt: nat, current: nat, s: Setting)
    requires model == Other || volt in {12, 15}
    ensures Derated(model, volt, current, s) == s
  {}

  /** The weaker of two sufficient contracts, by voltage and then current, never leaves more. */
  lemma DeratingOrdered(model: Model, volt: nat, current: nat, other: nat, less: nat, s: Setting)
    requires volt in {5, 9, 12, 15} && other in {5, 9, 12, 15}
    requires other < volt || (other == volt && less <= current)
    requires Enough(volt, current) && Enough(other, less)
    ensures Derated(model, other, less, s).frequency <= Derated(model, volt, current, s).frequency
    ensures Derated(model, other, less, s).voltage <= Derated(model, volt, current, s).voltage
  {}
}
