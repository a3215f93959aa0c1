# FrozenTrial: validation, equality and ordering of optuna trial snapshots

This project models the trial snapshot `FrozenTrial` of the optuna
hyperparameter-search library. A snapshot records one trial: its number
within the study, its id, its lifecycle state (`RUNNING`, `COMPLETE`,
`PRUNED`, `FAIL`), its start and completion times, its objective value, its
parameters with the distributions they were drawn from, and free-form
metadata. The model covers three contracts:

- **Validation.** `_validate` decides whether a snapshot is internally
  consistent. `Validation.Validate` is a pure function. It returns
  `Success(())` or `Failure(reason)`, with one reason per rule, checked in
  this order:
  1. the start time is set;
  2. a running trial has no completion time;
  3. a finished trial has a completion time;
  4. a completed trial has a value;
  5. `params` and `distributions` have the same keys;
  6. every parameter lies in its distribution.
- **Equality.** Two snapshots are equal when every field is equal. A Dafny
  `datatype` gives exactly this.
- **Ordering.** `<` and `<=` compare `number` only, so equality and ordering
  are independent. Sorting a list orders it stably by `number`.

Files, one module each:

- `wrappers.dfy`: `Option` and `Result`.
- `distributions.dfy`: `Uniform` and `LogUniform` over exact reals, with one
  `Contains` predicate (the closed interval `low <= v <= high`).
- `trials.dfy`: `TrialState`, `FrozenTrial` and the test fixture `Fixture`.
- `validation.dfy`: `Validate`, its declarative partner `WellFormed`, and one
  lemma per validation scenario.
- `comparison.dfy`: `Less` and `LessEq`, and lemmas about them and about
  equality.
- `sorting.dfy`: a stable insertion sort, `Sort`. Its partner is a
  characterisation: `Sort(s)` is the only list that is sorted by number and
  keeps the input order among snapshots with the same number.

The implementation module `optuna/structs.py` is not part of this model.
The behaviour modelled is the one `tests/test_structs.py` pins down for
`FrozenTrial`, `TrialState` and the `_create_frozen_trial` fixture.
`optuna/distributions.py` is not part of this model either. Of the
distributions, the tests rely only on two facts: 10 lies in `Uniform(5, 12)`
and -0.5 lies outside `Uniform(0, 1)`. A closed interval satisfies both.

Design decisions:

- A value is required only for a COMPLETE snapshot, which is the case
  tests/test_structs.py:50-54 exercises; a PRUNED or FAIL snapshot may
  carry a value or not (`ValueFreeUnlessComplete`).
- The key-mismatch reason carries both one-sided key sets.
- The out-of-domain reason carries every offending key, so the reason does
  not depend on the order in which a dictionary is iterated.

## Model

| member | source | states |
|---|---|---|
| `Distributions.ContainsPinned` | tests/test_structs.py:62-63 | 10 lies in Uniform(5, 12), as the fixture at tests/test_structs.py:124-125 needs; -0.5 lies outside Uniform(0, 1) |
| `Validation.Validate` | tests/test_structs.py:23-71 | succeeds exactly when the snapshot satisfies every invariant of `WellFormed`; each failure reason holds exactly when its rule is broken and every earlier rule holds; a key mismatch reports the two one-sided key sets; an out-of-domain failure reports exactly the offending keys |
| `Validation.FixtureValid` | tests/test_structs.py:26-28 | the fixture (trial 0, COMPLETE, value 0.2, x = 10 in Uniform(5, 12)) validates, whatever its clock readings |
| `Validation.StartUnsetFails` | tests/test_structs.py:30-34 | clearing the start time makes any snapshot, in any state, fail with the start-time reason |
| `Validation.RunningWithCompleteFails` | tests/test_structs.py:36-40 | a snapshot with both times set, switched to RUNNING, fails with the running-trial reason |
| `Validation.FinishedWithoutCompleteFails` | tests/test_structs.py:42-48 | for each of COMPLETE, PRUNED and FAIL, clearing the completion time fails with the finished-trial reason |
| `Validation.CompleteWithoutValueFails` | tests/test_structs.py:50-54 | a COMPLETE snapshot with both times set and its value cleared fails with the missing-value reason |
| `Validation.RunningWithoutCompleteValid` | tests/test_structs.py:36-48 | a valid snapshot switched to RUNNING with its completion time cleared stays valid |
| `Validation.ValueFreeUnlessComplete` | tests/test_structs.py:50-54 | for PRUNED and FAIL snapshots, setting or clearing the value never changes the verdict |
| `Validation.ValidateIgnoresMetadata` | tests/test_structs.py:117-129 | number, trial id, user and system attributes and intermediate values never change the verdict |
| `Validation.ExtraParamFails` | tests/test_structs.py:58-59 | adding a parameter without a distribution to a valid snapshot fails, naming exactly that key as an extra parameter |
| `Validation.ExtraDistributionFails` | tests/test_structs.py:60-61 | adding a distribution without a parameter to a valid snapshot fails, naming exactly that key as an extra distribution |
| `Validation.OutOfDomainParamFails` | tests/test_structs.py:62-63 | moving one parameter of a valid snapshot outside its distribution fails, naming exactly that key |
| `Validation.InconsistentPairsFail` | tests/test_structs.py:56-71 | each of the three inconsistent params/distributions pairs, placed on the fixture, fails for the expected reason |
| `Validation.FixtureRunningFails` | tests/test_structs.py:36-40 | the fixture switched to RUNNING, with its completion time still set, fails with the running-trial reason |
| `Comparison.OrderLaws` | tests/test_structs.py:86-111 | `<` is irreflexive, asymmetric and transitive; `<=` is reflexive, total and transitive; `a <= b` holds exactly when `b < a` does not |
| `Comparison.SameNumberIncomparable` | tests/test_structs.py:89-92 | snapshots that share a number are not `<` each other in either direction, and are `<=` each other in both |
| `Comparison.SuccessorOrdering` | tests/test_structs.py:94-102 | a copy renumbered to number + 1 is strictly after the original under both `<` and `<=`, and the reverse holds for neither operator |
| `Comparison.FieldChangeBreaksEquality` | tests/test_structs.py:74-83 | snapshots that differ in any one field are unequal |
| `Comparison.FixtureEqualityAndOrderIndependent` | tests/test_structs.py:77-83 | the copy of the fixture with value 0.3 is unequal to it, yet neither is `<` the other; an unchanged copy equals the original by reflexivity, since snapshots are values |
| `Sorting.Insert` | tests/test_structs.py:107-109 | inserting into a list sorted by number keeps it sorted, and adds exactly the new snapshot to the list's multiset |
| `Sorting.Sort` | tests/test_structs.py:107-111 | the result is sorted by number and is a permutation of the input |
| `Sorting.SortStable` | tests/test_structs.py:107-111 | for every number, the result lists the snapshots with that number in their input order |
| `Sorting.SortedUnique` | tests/test_structs.py:107-111 | two sorted lists with the same per-number order of snapshots are equal |
| `Sorting.SortCharacterised` | tests/test_structs.py:107-111 | a list is `Sort(s)` exactly when it is sorted by number and keeps the per-number order of `s` |
| `Sorting.SortPair` | tests/test_structs.py:107-111 | `[other, trial]` with `trial < other` sorts to `[trial, other]`; two snapshots with the same number keep their order |

## Left out

- Comparing a snapshot with a value that is not a snapshot raises a type error in the source (tests/test_structs.py:98-99, 104-105). Dafny's static types rule such a comparison out.
- The `repr`/`eval` round trip (tests/test_structs.py:132-149). It depends on Python's expression evaluator and on the printed forms of floats and `datetime`, and that code is not part of this model.
- `StudySummary` and its deprecation warning (tests/test_structs.py:152-165). This is a side effect on the host's warning machinery, with no logic to verify.
- Clock readings (`datetime.now()`). Timestamps are opaque optional integers, and the fixture takes them as parameters.
- Floating point. Values, parameters and distribution bounds are exact reals.
- Distribution internals: conversion to an internal representation, domain rules specific to `LogUniform`, and other distribution kinds. `Contains` is the closed interval for both kinds.
- User attributes, system attributes and intermediate values. They are modelled only as fields that take part in equality; attribute values are a small JSON-like datatype.
- Identity (`is`) in the sorting test. Snapshots are values, so "the same object" becomes "an equal snapshot".
