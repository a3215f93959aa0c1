/**
  Equality and ordering of trial snapshots. Equality is structural: two
  snapshots are equal when every field is. Ordering looks at `number` only,
  so the two contracts are deliberately independent.
*/
module Comparison {
  import opened Wrappers
  import opened Trials

  /** `a < b`: compares the trial numbers and nothing else. */
  predicate Less(a: FrozenTrial, b: FrozenTrial) {
    a.number < b.number
  }

  /** `a <= b`: compares the trial numbers and nothing else. */
  predicate LessEq(a: FrozenTrial, b: FrozenTrial) {
    a.number <= b.number
  }

  /** `Less` is a strict weak order and `LessEq` its total preorder companion:
      `a <= b` exactly when `b < a` fails. */
  lemma OrderLaws(a: FrozenTrial, b: FrozenTrial, c: FrozenTrial)
    ensures !Less(a, a)
    ensures Less(a, b) ==> !Less(b, a)
    ensures Less(a, b) && Less(b, c) ==> Less(a, c)
    ensures LessEq(a, a)
    ensures LessEq(a, b) || LessEq(b, a)
    ensures LessEq(a, b) && LessEq(b, c) ==> LessEq(a, c)
    ensures LessEq(a, b) <==> !Less(b, a)
  {
  }

  /** Snapshots that share a number are mutually incomparable under `<` and
      mutually related under `<=`, whatever their other fields. */
  lemma SameNumberIncomparable(a: FrozenTrial, b: FrozenTrial)
    requires a.number == b.number
    ensures !Less(a, b) && !Less(b, a)
    ensures LessEq(a, b) && LessEq(b, a)
  {
  }

  /** A copy renumbered to `number + 1` sorts strictly after the original. */
  lemma SuccessorOrdering(t: FrozenTrial)
    ensures var u := t.(number := t.number + 1);
      Less(t, u) && !Less(u, t) && LessEq(t, u) && !LessEq(u, t)
  {
  }

  /** Changing any single field of a snapshot breaks equality. */
  lemma FieldChangeBreaksEquality(t: FrozenTrial, u: FrozenTrial)
    requires t.value != u.value
          || t.number != u.number
          || t.trialId != u.trialId
          || t.state != u.state
          || t.datetimeStart != u.datetimeStart
          || t.datetimeComplete != u.datetimeComplete
          || t.params != u.params
          || t.distributions != u.distributions
          || t.userAttrs != u.userAttrs
          || t.systemAttrs != u.systemAttrs
          || t.intermediateValues != u.intermediateValues
    ensures t != u
  {
  }

  /** The test's equality scenario: the copy of the fixture with value 0.3 is
      unequal to it, yet the two stay incomparable by order. That an unchanged
      copy equals the original is reflexivity, since snapshots are values. */
  lemma FixtureEqualityAndOrderIndependent(start: Timestamp, complete: Timestamp)
    ensures var t := Fixture(start, complete);
      var u := t.(value := Some(0.3));
      && t != u
      && !Less(t, u) && !Less(u, t)
  {
  }
}
