/** The environment as the rollout loop sees it: reset() and step(action).
    The simulator itself is replaced by a script of step outcomes. */
module Env {
  import opened Hooks

  /** What env.step returns: the observation, the reward, the native done flag
      and the lives count reported in info['ale.lives']. */
  datatype Outcome = Outcome(obs: Obs, reward: real, done: bool, lives: int)

  /** The outcome of the k-th env.step call since reset: the scripted outcome
      while the script lasts, a terminal outcome at the reset observation after. */
  function Response(resetObs: Obs, script: seq<Outcome>, k: nat): (o: Outcome)
    ensures k < |script| ==> o == script[k]
    ensures |script| <= k ==> o.done && o.obs == resetObs
  {
    if k < |script| then script[k] else Outcome(resetObs, 0.0, true, 0)
  }

  /** A scripted episode: every observation has the dimension of
      observation_space; calls counts the env.step calls since reset and the
      ghost log records the actions they sent. */
  class ScriptedEnv {
    const obsDim: nat
    const resetObs: Obs
    const script: seq<Outcome>
    var calls: nat
    ghost var log: seq<Action>

    ghost predicate Valid()
      reads this
    {
      |log| == calls &&
      |resetObs| == obsDim &&
      forall k :: 0 <= k < |script| ==> |script[k].obs| == obsDim
    }

    constructor (resetObs: Obs, script: seq<Outcome>)
      requires forall k :: 0 <= k < |script| ==> |script[k].obs| == |resetObs|
      ensures Valid()
      ensures this.resetObs == resetObs && this.script == script && obsDim == |resetObs|
      ensures calls == 0 && log == []
    {
      this.obsDim := |resetObs|;
      this.resetObs := resetObs;
      this.script := script;
      this.calls := 0;
      this.log := [];
    }

    /** env.reset(): starts the episode over and returns its first observation. */
    method Reset() returns (obs: Obs)
      requires Valid()
      modifies this
      ensures Valid()
      ensures calls == 0 && log == []
      ensures obs == resetObs && |obs| == obsDim
    {
      calls := 0;
      log := [];
      obs := resetObs;
    }

    /** env.step(a): answers with the next scripted outcome and records a. */
    method Step(a: Action) returns (o: Outcome)
      requires Valid()
      modifies this
      ensures Valid()
      ensures o == Response(resetObs, script, old(calls)) && |o.obs| == obsDim
      ensures calls == old(calls) + 1 && log == old(log) + [a]
    {
      o := Response(resetObs, script, calls);
      calls := calls + 1;
      log := log + [a];
    }
  }
}
