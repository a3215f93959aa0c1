/**
  The trial snapshot (`FrozenTrial`) of a hyperparameter-search study: an
  immutable record of one trial's identity, lifecycle state, timing,
  objective value, parameters and metadata.
*/
module Trials {
  import opened Wrappers
  import opened Distributions

  /** Lifecycle outcome of a trial; `Running` is the only non-terminal state. */
  datatype TrialState = Running | Complete | Pruned | Fail {
    predicate IsFinished() {
      !Running?
    }
  }

  /** A free-form, serialisable attribute value (user and system attributes). */
  datatype AttrValue =
    | AttrNull
    | AttrBool(b: bool)
    | AttrNumber(n: real)
    | AttrString(s: string)
    | AttrList(items: seq<AttrValue>)

  /** Timestamps are opaque clock readings; only their presence matters here. */
  type Timestamp = int

  datatype FrozenTrial = FrozenTrial(
    number: nat,
    trialId: int,
    state: TrialState,
    value: Option<real>,
    datetimeStart: Option<Timestamp>,
    datetimeComplete: Option<Timestamp>,
    params: map<string, real>,
    distributions: map<string, Distribution>,
    userAttrs: map<string, AttrValue>,
    systemAttrs: map<string, AttrValue>,
    intermediateValues: map<int, real>
  )

  /** The snapshot every trial test starts from: trial 0, completed with value
      0.2, `x = 10` drawn from Uniform(5, 12). The two clock readings are
      parameters because the tests take them from the wall clock. */
  function Fixture(start: Timestamp, complete: Timestamp): FrozenTrial {
    FrozenTrial(
      number := 0,
      trialId := 0,
      state := Complete,
      value := Some(0.2),
      datetimeStart := Some(start),
      datetimeComplete := Some(complete),
      params := map["x" := 10.0],
      distributions := map["x" := Uniform(5.0, 12.0)],
      userAttrs := map[],
      systemAttrs := map[],
      intermediateValues := map[]
    )
  }
}
