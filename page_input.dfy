/**
 * The page-count stepper both feed modals use: `clamp(n) = Math.max(1,
 * Math.min(999, n))` over JavaScript numbers, the `±1` buttons, and
 * `x || fallback` on a number. `NaN` passes through `Math.min`/`Math.max`.
 */
module PageInput {
  import opened Json

  const MinPages: real := 1.0
  const MaxPages: real := 999.0

  /** A finite number in `[1, 999]`. */
  predicate InRange(x: Num) {
    x.Finite? && MinPages <= x.r <= MaxPages
  }

  /** `Math.min(hi, x)`. */
  function MinNum(hi: real, x: Num): Num {
    match x
    case NaN => NaN
    case PosInf => Finite(hi)
    case NegInf => NegInf
    case Finite(r) => Finite(if r < hi then r else hi)
  }

  /** `Math.max(lo, x)`. */
  function MaxNum(lo: real, x: Num): Num {
    match x
    case NaN => NaN
    case PosInf => PosInf
    case NegInf => Finite(lo)
    case Finite(r) => Finite(if r > lo then r else lo)
  }

  /** `clamp(n)`: every number but `NaN` lands in `[1, 999]`, numbers already there are kept, and `NaN` stays `NaN`. */
  function Clamp(x: Num): (c: Num)
    ensures x != NaN ==> InRange(c)
    ensures x == NaN ==> c == NaN
    ensures InRange(x) ==> c == x
  {
    MaxNum(MinPages, MinNum(MaxPages, x))
  }

  /** Clamping twice is clamping once. */
  lemma ClampIdempotent(x: Num)
    ensures Clamp(Clamp(x)) == Clamp(x)
  {
  }

  /** `Number(p) + d` for a number `p`. */
  function Shift(x: Num, d: real): Num {
    if x.Finite? then Finite(x.r + d) else x
  }

  /** `x || fallback` on a number: `0` and `NaN` are falsy. */
  function OrElse(x: Num, fallback: Num): Num {
    if x == NaN || x == Finite(0.0) then fallback else x
  }

  /** A value the stepper can hold: in range, or `NaN` from a typed value `Number` cannot read. */
  predicate Holdable(x: Num) {
    InRange(x) || x == NaN
  }

  /** The `-`/`+` buttons keep an in-range value in range and move it by one inside the bounds. */
  lemma StepStaysInRange(x: Num, d: real)
    requires InRange(x) && (d == 1.0 || d == -1.0)
    ensures InRange(Clamp(Shift(x, d)))
    ensures MinPages <= x.r + d <= MaxPages ==> Clamp(Shift(x, d)) == Finite(x.r + d)
  {
  }

  /** `clamp(Number(text))`, what typing stores: a value the stepper can hold, in range unless `Number` reads `NaN`. */
  function Typed(text: string): (x: Num)
    ensures Holdable(x)
    ensures StringToNumber(text) != NaN ==> InRange(x)
    ensures StringToNumber(text) == NaN ==> x == NaN
  {
    Clamp(StringToNumber(text))
  }
}
