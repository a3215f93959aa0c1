/**
  On-demand validation of a trial snapshot. A snapshot may be built in an
  inconsistent state; `Validate` checks the rules in a fixed order and reports
  the first one that is broken.
*/
module Validation {
  import opened Wrappers
  import opened Distributions
  import opened Trials

  /** Why a snapshot was rejected, one reason per rule, in checking order. */
  datatype Reason =
    | StartNotSet
    | CompleteSetWhileRunning
    | CompleteNotSetWhenFinished
    | ValueNotSetWhenComplete
      /** Keys present in `params` only, and keys present in `distributions` only. */
    | KeysMismatch(extraParams: set<string>, extraDistributions: set<string>)
      /** The parameters whose value lies outside their distribution. */
    | ParamNotContained(keys: set<string>)

  /** The declarative invariant set of a well-formed snapshot, stated without
      any checking order. */
  ghost predicate WellFormed(t: FrozenTrial) {
    && t.datetimeStart.Some?
    && (t.state.Running? <==> t.datetimeComplete.None?)
    && (t.state.Complete? ==> t.value.Some?)
    && t.params.Keys == t.distributions.Keys
    && forall k :: k in t.params ==> k in t.distributions && t.distributions[k].Contains(t.params[k])
  }

  /** Check the snapshot's rules in order, failing on the first broken one. */
  function Validate(t: FrozenTrial): (r: Result<(), Reason>)
    // Success exactly when every invariant holds.
    ensures r.Success? <==> WellFormed(t)
    // Each reason names a broken rule, and every rule checked before it holds.
    ensures r == Failure(StartNotSet) <==> t.datetimeStart.None?
    ensures r == Failure(CompleteSetWhileRunning) <==>
      t.datetimeStart.Some? && t.state.Running? && t.datetimeComplete.Some?
    ensures r == Failure(CompleteNotSetWhenFinished) <==>
      t.datetimeStart.Some? && !t.state.Running? && t.datetimeComplete.None?
    ensures r == Failure(ValueNotSetWhenComplete) <==>
      t.datetimeStart.Some? && t.datetimeComplete.Some? && t.state.Complete? && t.value.None?
    ensures r.Failure? && r.error.KeysMismatch? ==>
      && t.params.Keys != t.distributions.Keys
      && r.error.extraParams == t.params.Keys - t.distributions.Keys
      && r.error.extraDistributions == t.distributions.Keys - t.params.Keys
    ensures r.Failure? && r.error.ParamNotContained? ==>
      && t.params.Keys == t.distributions.Keys
      && r.error.keys != {}
      && forall k :: k in r.error.keys <==> k in t.params && !t.distributions[k].Contains(t.params[k])
  {
    if t.datetimeStart.None? then
      Failure(StartNotSet)
    else if t.state.Running? && t.datetimeComplete.Some? then
      Failure(CompleteSetWhileRunning)
    else if t.state.IsFinished() && t.datetimeComplete.None? then
      Failure(CompleteNotSetWhenFinished)
    else if t.state.Complete? && t.value.None? then
      Failure(ValueNotSetWhenComplete)
    else if t.params.Keys != t.distributions.Keys then
      Failure(KeysMismatch(t.params.Keys - t.distributions.Keys, t.distributions.Keys - t.params.Keys))
    else
      var bad := set k | k in t.params && !t.distributions[k].Contains(t.params[k]);
      assert forall k :: k in t.params ==> (k in bad <==> !t.distributions[k].Contains(t.params[k]));
      if bad != {} then Failure(ParamNotContained(bad)) else Success(())
  }

  /** The test fixture is a valid snapshot, whatever its clock readings. */
  lemma FixtureValid(start: Timestamp, complete: Timestamp)
    ensures Validate(Fixture(start, complete)) == Success(())
  {
  }

  /** Clearing the start time makes any snapshot, in any state, invalid. */
  lemma StartUnsetFails(t: FrozenTrial)
    ensures Validate(t.(datetimeStart := None)) == Failure(StartNotSet)
  {
  }

  /** A running snapshot must not carry a completion time. */
  lemma RunningWithCompleteFails(t: FrozenTrial)
    requires t.datetimeStart.Some? && t.datetimeComplete.Some?
    ensures Validate(t.(state := Running)) == Failure(CompleteSetWhileRunning)
  {
  }

  /** Every finished state (Complete, Pruned, Fail) needs a completion time. */
  lemma FinishedWithoutCompleteFails(t: FrozenTrial, s: TrialState)
    requires t.datetimeStart.Some? && s.IsFinished()
    ensures Validate(t.(state := s, datetimeComplete := None)) == Failure(CompleteNotSetWhenFinished)
  {
  }

  /** A completed snapshot without an objective value is rejected. */
  lemma CompleteWithoutValueFails(t: FrozenTrial)
    requires t.datetimeStart.Some? && t.datetimeComplete.Some? && t.state.Complete?
    ensures Validate(t.(value := None)) == Failure(ValueNotSetWhenComplete)
  {
  }

  /** Turning a valid snapshot back into a running one, with its completion
      time cleared, keeps it valid: a running trial needs no value. */
  lemma RunningWithoutCompleteValid(t: FrozenTrial)
    requires Validate(t).Success?
    ensures Validate(t.(state := Running, datetimeComplete := None)).Success?
  {
  }

  /** The value is constrained only for completed trials: for a pruned or failed
      snapshot, setting or clearing it never changes the verdict. */
  lemma ValueFreeUnlessComplete(t: FrozenTrial, v: Option<real>)
    requires t.state.Pruned? || t.state.Fail?
    ensures Validate(t.(value := v)) == Validate(t)
  {
  }

  /** Validation looks only at state, timing, value, params and distributions:
      identity and free-form metadata never change the verdict. */
  lemma ValidateIgnoresMetadata(t: FrozenTrial, number: nat, trialId: int,
                                userAttrs: map<string, AttrValue>, systemAttrs: map<string, AttrValue>,
                                intermediate: map<int, real>)
    ensures Validate(t.(number := number, trialId := trialId, userAttrs := userAttrs,
                        systemAttrs := systemAttrs, intermediateValues := intermediate)) == Validate(t)
  {
  }

  /** Adding a parameter that has no distribution breaks an otherwise valid
      snapshot, and the reason names exactly that key. */
  lemma ExtraParamFails(t: FrozenTrial, k: string, v: real)
    requires Validate(t).Success? && k !in t.params
    ensures Validate(t.(params := t.params[k := v])) == Failure(KeysMismatch({k}, {}))
  {
    var u := t.(params := t.params[k := v]);
    assert k in u.params.Keys - u.distributions.Keys;
    assert u.params.Keys - u.distributions.Keys == {k};
    assert u.distributions.Keys - u.params.Keys == {};
  }

  /** Adding a distribution that has no parameter breaks an otherwise valid
      snapshot, and the reason names exactly that key. */
  lemma ExtraDistributionFails(t: FrozenTrial, k: string, d: Distribution)
    requires Validate(t).Success? && k !in t.distributions
    ensures Validate(t.(distributions := t.distributions[k := d])) == Failure(KeysMismatch({}, {k}))
  {
    var u := t.(distributions := t.distributions[k := d]);
    assert k in u.distributions.Keys - u.params.Keys;
    assert u.distributions.Keys - u.params.Keys == {k};
    assert u.params.Keys - u.distributions.Keys == {};
  }

  /** Moving one parameter of a valid snapshot outside its distribution is
      rejected, and the reason names exactly that key. */
  lemma OutOfDomainParamFails(t: FrozenTrial, k: string, v: real)
    requires Validate(t).Success? && k in t.params && !t.distributions[k].Contains(v)
    ensures Validate(t.(params := t.params[k := v])) == Failure(ParamNotContained({k}))
  {
    var u := t.(params := t.params[k := v]);
    assert u.params.Keys == t.params.Keys;
    assert !u.distributions[k].Contains(u.params[k]);
    var r := Validate(u);
    assert r.Failure? && r.error.ParamNotContained?;
    assert forall k' :: k' in r.error.keys ==> k' == k;
    assert k in r.error.keys;
    assert r.error.keys == {k};
    assert r == Failure(ParamNotContained({k}));
  }

  /** The three inconsistent params/distributions pairs of the tests, each
      placed on the fixture, are rejected for the expected reason. */
  lemma InconsistentPairsFail(start: Timestamp, complete: Timestamp)
    ensures
      var t := Fixture(start, complete);
      && Validate(t.(params := map["x" := 0.1, "y" := 0.5],
                     distributions := map["x" := Uniform(0.0, 1.0)]))
         == Failure(KeysMismatch({"y"}, {}))
      && Validate(t.(params := map["x" := 0.1],
                     distributions := map["x" := Uniform(0.0, 1.0), "y" := LogUniform(0.0, 1.0)]))
         == Failure(KeysMismatch({}, {"y"}))
      && Validate(t.(params := map["x" := -0.5],
                     distributions := map["x" := Uniform(0.0, 1.0)]))
         == Failure(ParamNotContained({"x"}))
  {
    var t := Fixture(start, complete);
    var base := t.(params := map["x" := 0.1], distributions := map["x" := Uniform(0.0, 1.0)]);
    assert base.params.Keys == {"x"} == base.distributions.Keys;
    assert base.distributions["x"].Contains(base.params["x"]);
    ExtraParamFails(base, "y", 0.5);
    assert base.(params := base.params["y" := 0.5]).params == map["x" := 0.1, "y" := 0.5];
    ExtraDistributionFails(base, "y", LogUniform(0.0, 1.0));
    assert base.(distributions := base.distributions["y" := LogUniform(0.0, 1.0)]).distributions
        == map["x" := Uniform(0.0, 1.0), "y" := LogUniform(0.0, 1.0)];
    OutOfDomainParamFails(base, "x", -0.5);
    assert base.(params := base.params["x" := -0.5]).params == map["x" := -0.5];
  }

  /** End to end: the fixture switched to Running, its completion time still
      set, fails with the running-trial reason. */
  lemma FixtureRunningFails(start: Timestamp, complete: Timestamp)
    ensures Validate(Fixture(start, complete).(state := Running)) == Failure(CompleteSetWhileRunning)
  {
  }
}
