/** Scores as real numbers. */
module Scores {
  function Round2(x: real): real {
    (x * 100.0 + 0.5).Floor as real / 100.0
  }

  function Min(x: real, y: real): real { if x <= y then x else y }

  function Max(x: real, y: real): real { if x <= y then y else x }

  function Sum(xs: seq<real>): real {
    if xs == [] then 0.0 else Sum(xs[..|xs| - 1]) + xs[|xs| - 1]
  }

  /** `sum / Math.max(1, length)` */
  function Average(xs: seq<real>): real {
    if xs == [] then 0.0 else Sum(xs) / (|xs| as real)
  }
}
