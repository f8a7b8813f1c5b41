/**
 The control-pilot duty cycle: the charger's map from a current to a PWM duty
 cycle, and the current an EV reads back from a duty cycle by the rules of
 Annex A of IEC 61851-1. Arithmetic is over the reals, without rounding.
 */
module DutyCycle {
  import opened Common

  const PWM_5_PERCENT := 0.05

  /** Duty cycle (0..1) for a maximum current; 1.0 stands for "invalid current". */
  function AmpereToDutyCycle(ampere: real): (dc: real) {
    if ampere < 5.9 then
      1.0
    else if ampere <= 6.1 then
      0.1
    else if ampere < 52.5 then
      // 51 A .. 52.5 A has no defined duty cycle
      (if ampere > 51.0 then 51.0 else ampere) / 0.6 / 100.0
    else if ampere <= 80.0 then
      (ampere / 2.5 + 64.0) / 100.0
    else if ampere <= 80.1 then
      0.97
    else
      1.0
  }

  /** What the board counts as a running PWM (IECStateMachine::set_pwm). */
  predicate IsRunningDuty(dc: real) {
    0.0 < dc < 1.0
  }

  /** Maximum current an EV may draw at a duty cycle, None where no analog charging is allowed. */
  function EvDecodedAmpere(dc: real): (ampere: Option<real>) {
    var percent := dc * 100.0;
    if percent < 8.0 then None
    else if percent < 10.0 then Some(6.0)
    else if percent <= 85.0 then Some(percent * 0.6)
    else if percent <= 96.0 then Some((percent - 64.0) * 2.5)
    else if percent <= 97.0 then Some(80.0)
    else None
  }

  /** The map is monotone on the valid range, and no current maps to the 5 % or F duty cycles. */
  lemma DutyCycleMonotone(a: real, b: real)
    ensures 5.9 <= a <= b <= 80.1 ==> AmpereToDutyCycle(a) <= AmpereToDutyCycle(b)
    ensures AmpereToDutyCycle(a) != 0.0 && AmpereToDutyCycle(a) != PWM_5_PERCENT
  {
  }

  /** The PWM counts as running exactly for the currents in 5.9 A .. 80.1 A. */
  lemma DutyCycleRunning(a: real)
    ensures IsRunningDuty(AmpereToDutyCycle(a)) <==> 5.9 <= a <= 80.1
    ensures AmpereToDutyCycle(a) == 1.0 <==> !(5.9 <= a <= 80.1)
  {
  }

  /**
   Reading back. Every valid current is understood by the EV. The EV takes no more
   than the requested current exactly from 6 A on, and loses at most 1.5 A, the
   worst case being the gap of the standard at 52.5 A.
   */
  lemma DutyCycleRoundTrip(a: real)
    requires 5.9 <= a <= 80.1
    ensures EvDecodedAmpere(AmpereToDutyCycle(a)).Some?
    ensures
      var ev := EvDecodedAmpere(AmpereToDutyCycle(a)).value;
      && (ev <= a <==> 6.0 <= a)
      && a - 1.5 <= ev
      && (6.1 < a <= 51.0 || 52.5 < a <= 80.0 ==> ev == a)
  {
  }
}
