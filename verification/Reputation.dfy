/**
 Reputations: 32-bit numbers that decay toward zero by a two-hundredth a second.
 */
module Reputation {
  type i32 = x: int | -0x8000_0000 <= x < 0x8000_0000

  const I32_MIN: i32 := -0x8000_0000
  const I32_MAX: i32 := 0x7FFF_FFFF
  const INVERSE_DECREMENT: int := 200
  const BANNED_THRESHOLD: i32 := 71 * -21474836

  function Clamp(x: int): i32 {
    if x < I32_MIN then I32_MIN else if x > I32_MAX then I32_MAX else x
  }

  /** Division that truncates toward zero, by a positive divisor. */
  function TruncDiv(a: int, b: int): int
    requires b > 0
  {
    if a >= 0 then a / b else -((-a) / b)
  }

  // ----- decay

  function DecayStep(r: i32): i32 {
    var quotient := TruncDiv(r, INVERSE_DECREMENT);
    var diff := if quotient == 0 && r < 0 then -1 else if quotient == 0 && r > 0 then 1 else quotient;
    Clamp(r - diff)
  }

  function Decay(r: i32, seconds: nat): i32
    decreases seconds
  {
    if seconds == 0 then r else Decay(DecayStep(r), seconds - 1)
  }

  lemma DecayUnfolds(r: i32, n: nat)
    requires n > 0
    ensures Decay(r, n) == Decay(DecayStep(r), n - 1)
  {
  }

  /** The loop of the source, which stops early once the reputation is zero. */
  method DecayReputation(reputation: i32, secondsPassed: nat) returns (r: i32)
    ensures r == Decay(reputation, secondsPassed)
  {
    r := reputation;
    for i := 0 to secondsPassed
      invariant Decay(r, secondsPassed - i) == Decay(reputation, secondsPassed)
    {
      var diff := TruncDiv(r, INVERSE_DECREMENT);
      if diff == 0 && r < 0 {
        diff := -1;
      } else if diff == 0 && r > 0 {
        diff := 1;
      }
      r := Clamp(r - diff);
      if r == 0 {
        ZeroStays(secondsPassed - i - 1);
        break;
      }
    }
  }

  lemma {:induction false} ZeroStays(n: nat)
    ensures Decay(0, n) == 0
  {
    if n > 0 {
      ZeroStays(n - 1);
    }
  }

  /** Decaying for `a` and then for `b` seconds is decaying for `a + b` seconds. */
  lemma {:induction false} DecayComposes(r: i32, a: nat, b: nat)
    ensures Decay(Decay(r, a), b) == Decay(r, a + b)
    decreases a
  {
    if a > 0 {
      DecayComposes(DecayStep(r), a - 1, b);
    }
  }

  function Magnitude(r: int): nat {
    if r < 0 then -r else r
  }

  lemma StepShrinks(r: i32)
    ensures r > 0 ==> 0 <= DecayStep(r) < r
    ensures r < 0 ==> r < DecayStep(r) <= 0
    ensures r == 0 ==> DecayStep(r) == 0
    ensures r != I32_MIN ==> DecayStep(r) != I32_MIN && DecayStep(-r) == -DecayStep(r)
  {
  }

  /** Decay never crosses zero, and each second strictly shrinks the magnitude until zero is reached. */
  lemma {:induction false} DecayShrinks(r: i32, n: nat)
    ensures r >= 0 ==> 0 <= Decay(r, n) <= r
    ensures r <= 0 ==> r <= Decay(r, n) <= 0
    ensures Decay(r, n) != 0 ==> Magnitude(Decay(r, n)) + n <= Magnitude(r)
    decreases n
  {
    StepShrinks(r);
    if n > 0 {
      DecayShrinks(DecayStep(r), n - 1);
    }
  }

  lemma StepIsMonotone(r: i32, s: i32)
    requires r <= s
    ensures DecayStep(r) <= DecayStep(s)
  {
    StepShrinks(r);
    StepShrinks(s);
  }

  /** Decay keeps the ranking of any two peers. */
  lemma {:induction false} DecayIsMonotone(r: i32, s: i32, n: nat)
    requires r <= s
    ensures Decay(r, n) <= Decay(s, n)
    decreases n
  {
    if n > 0 {
      StepIsMonotone(r, s);
      DecayIsMonotone(DecayStep(r), DecayStep(s), n - 1);
    }
  }

  lemma {:induction false} DecayIsOdd(r: i32, n: nat)
    requires r != I32_MIN
    ensures Decay(r, n) != I32_MIN && Decay(-r, n) == -Decay(r, n)
    decreases n
  {
    if n > 0 {
      StepShrinks(r);
      DecayIsOdd(DecayStep(r), n - 1);
    }
  }
}
