/** Runs of a state machine: sequences of states, each after the first reached by a step. */
module Runs {

  ghost predicate StepAt<S(!new)>(next: (S, S) -> bool, run: seq<S>, k: nat)
    requires 0 < k < |run|
  {
    next(run[k - 1], run[k])
  }

  ghost predicate IsRun<S(!new)>(init: S -> bool, next: (S, S) -> bool, run: seq<S>) {
    && |run| > 0
    && init(run[0])
    && forall k :: 0 < k < |run| ==> StepAt(next, run, k)
  }

  lemma PrefixIsRun<S(!new)>(init: S -> bool, next: (S, S) -> bool, run: seq<S>, n: nat)
    requires IsRun(init, next, run) && 0 < n <= |run|
    ensures IsRun(init, next, run[..n])
  {
    forall k: nat | 0 < k < n ensures StepAt(next, run[..n], k) {
      assert StepAt(next, run, k);
    }
  }

  lemma OneMoreStep<S(!new)>(init: S -> bool, next: (S, S) -> bool, run: seq<S>, s': S)
    requires IsRun(init, next, run) && next(run[|run| - 1], s')
    ensures IsRun(init, next, run + [s'])
  {
    forall k: nat | 0 < k <= |run| ensures StepAt(next, run + [s'], k) {
      assert k < |run| ==> StepAt(next, run, k);
    }
  }

  /** `longer` goes on where `run` ends, by good steps only. */
  ghost predicate GoesOn<S(!new)>(good: (S, S) -> bool, run: seq<S>, longer: seq<S>) {
    run <= longer && forall k :: 0 < |run| <= k < |longer| ==> StepAt(good, longer, k)
  }

  lemma GoesOnOneMore<S(!new)>(good: (S, S) -> bool, run: seq<S>, longer: seq<S>, s': S)
    requires |run| > 0 && GoesOn(good, run, longer) && good(longer[|longer| - 1], s')
    ensures GoesOn(good, run, longer + [s'])
  {
    forall k: nat | 0 < |run| <= k <= |longer| ensures StepAt(good, longer + [s'], k) {
      assert k < |longer| ==> StepAt(good, longer, k);
    }
  }
}
