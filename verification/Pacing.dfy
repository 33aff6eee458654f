/** The 0.05 second steps in which waiting loops spend their remaining time. */
module Pacing {

  /** How many 0.05 second steps fit into a remaining time. */
  function Steps(remaining: real): nat {
    if remaining <= 0.0 then 0 else (remaining * 20.0).Floor + 1
  }

  lemma SleepingUsesAStep(before: real, after: real, slept: real)
    requires before > 0.0 && after <= before - slept && slept == if before < 0.05 then before else 0.05
    ensures Steps(after) < Steps(before)
  {
    if before >= 0.05 {
      assert after * 20.0 <= before * 20.0 - 1.0;
    }
  }

  function Min(a: real, b: real): real {
    if a <= b then a else b
  }

  lemma StepsMonotone(a: real, b: real)
    requires a <= b
    ensures Steps(a) <= Steps(b)
  {
    if a > 0.0 {
      assert a * 20.0 <= b * 20.0;
    }
  }
}
