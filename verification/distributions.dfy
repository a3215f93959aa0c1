/**
  Parameter distributions: the legal domain of one hyperparameter.
  Both kinds are closed real intervals; the search-space layer that defines
  them is consumed only through `Contains`.
*/
module Distributions {

  datatype Distribution =
    | Uniform(low: real, high: real)
    | LogUniform(low: real, high: real)
  {
    /** Does the parameter value `v` lie inside this distribution's domain? */
    predicate Contains(v: real) {
      low <= v <= high
    }
  }

  /** The two membership facts the trial tests depend on: 10 lies in
      Uniform(5, 12) and -0.5 lies outside Uniform(0, 1). */
  lemma ContainsPinned()
    ensures Uniform(5.0, 12.0).Contains(10.0)
    ensures !Uniform(0.0, 1.0).Contains(-0.5)
  {
  }
}
