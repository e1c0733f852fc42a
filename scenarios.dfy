/** Small concrete episodes, worked through the rollout's functional account. */
module Scenarios {
  import opened Hooks
  import opened Env
  import opened RolloutSpec
  import opened Tasks

  /** A solver that always scores the first of two actions highest. */
  function FirstAction(h: seq<Obs>): seq<real> {
    [1.0, 0.0]
  }

  /** A CarRacing solver that always asks for the middle of each range. */
  function Centre(h: seq<Obs>): seq<real> {
    [0.0, 0.0, 0.0]
  }

  /** A scripted step with a one-feature observation. */
  function At(reward: real, done: bool, lives: int): Outcome {
    Outcome([0.0], reward, done, lives)
  }

  /** Coinrun with a cap of two steps and an environment that never ends the
      episode: the third iteration (step_cnt == 2) sends the hard stop and ends
      the rollout. */
  lemma CoinrunCapScenario()
    ensures var p := Params(Config(Coinrun, 2, 0), [], false, FirstAction,
                            [At(1.0, false, 0), At(1.0, false, 0), At(1.0, false, 0), At(1.0, false, 0)], [0.0]);
      WellFormed(p) && Episode(p).stepCnt == 3 && Episode(p).epReward == 3.0 &&
      Episode(p).log == [Discrete(0), Discrete(0), Discrete(0), HardStop]
  {
    var p := Params(Config(Coinrun, 2, 0), [], false, FirstAction,
                    [At(1.0, false, 0), At(1.0, false, 0), At(1.0, false, 0), At(1.0, false, 0)], [0.0]);
    assert WellFormed(p);
    var s0 := Start(p);
    var s1 := LoopStep(p, s0);
    assert !s1.done && s1.log == [Discrete(0)];
    var s2 := LoopStep(p, s1);
    assert !s2.done && s2.log == [Discrete(0), Discrete(0)];
    var s3 := LoopStep(p, s2);
    assert s3.done && s3.log == [Discrete(0), Discrete(0), Discrete(0), HardStop];
    assert Run(p, s2) == s3;
    assert Run(p, s1) == s3;
    assert Episode(p) == s3;
  }

  /** The same episode in evaluation mode keeps going to the end of the script. */
  lemma CoinrunEvalScenario()
    ensures var p := Params(Config(Coinrun, 2, 0), [], true, FirstAction,
                            [At(1.0, false, 0), At(1.0, false, 0), At(1.0, false, 0), At(2.0, true, 0)], [0.0]);
      WellFormed(p) && Episode(p).stepCnt == 4 && Episode(p).epReward == 5.0 &&
      HardStop !in Episode(p).log
  {
    var p := Params(Config(Coinrun, 2, 0), [], true, FirstAction,
                    [At(1.0, false, 0), At(1.0, false, 0), At(1.0, false, 0), At(2.0, true, 0)], [0.0]);
    assert WellFormed(p);
    var s0 := Start(p);
    var s1 := LoopStep(p, s0);
    assert !s1.done;
    var s2 := LoopStep(p, s1);
    assert !s2.done;
    var s3 := LoopStep(p, s2);
    assert !s3.done;
    var s4 := LoopStep(p, s3);
    assert s4.done && s4.log == [Discrete(0), Discrete(0), Discrete(0), Discrete(0)];
    assert Run(p, s3) == s4;
    assert Run(p, s2) == s4;
    assert Run(p, s1) == s4;
    assert Episode(p) == s4;
  }

  /** CarRacing with out_of_track_cap 2: the third negative reward in a row
      ends the episode, although the environment does not. */
  lemma CarRacingStreakScenario()
    ensures var p := Params(Config(CarRacing, 1000, 2), [], false, Centre,
                            [At(-1.0, false, 0), At(-1.0, false, 0), At(-1.0, false, 0), At(-1.0, true, 0)], [0.0]);
      WellFormed(p) && Episode(p).stepCnt == 3 && Episode(p).negCnt == 3 && Episode(p).epReward == -3.0
  {
    var p := Params(Config(CarRacing, 1000, 2), [], false, Centre,
                    [At(-1.0, false, 0), At(-1.0, false, 0), At(-1.0, false, 0), At(-1.0, true, 0)], [0.0]);
    assert WellFormed(p);
    var s0 := Start(p);
    var s1 := LoopStep(p, s0);
    assert !s1.done && s1.negCnt == 1;
    var s2 := LoopStep(p, s1);
    assert !s2.done && s2.negCnt == 2;
    var s3 := LoopStep(p, s2);
    assert s3.done && s3.negCnt == 3;
    assert Run(p, s2) == s3;
    assert Run(p, s1) == s3;
    assert Episode(p) == s3;
  }

  /** Breakout with lives reported as 5, 5, 4, 4 over its loop steps: the
      priming press, then exactly one double press after the drop, and the
      episode ends only when the environment says so. */
  lemma BreakoutLivesScenario()
    ensures var p := Params(Config(Breakout, 0, 0), [], false, FirstAction,
                            [At(0.0, false, 5), At(0.0, false, 5), At(1.0, false, 5), At(0.0, false, 4),
                             At(0.0, false, 4), At(0.0, false, 4), At(1.0, true, 4)], [0.0]);
      WellFormed(p) && Episode(p).stepCnt == 4 && Episode(p).epReward == 2.0 && Episode(p).lives == 4 &&
      Episode(p).log == [Fire, Discrete(0), Discrete(0), Discrete(0), Fire, Fire, Discrete(0)]
  {
    var p := Params(Config(Breakout, 0, 0), [], false, FirstAction,
                    [At(0.0, false, 5), At(0.0, false, 5), At(1.0, false, 5), At(0.0, false, 4),
                     At(0.0, false, 4), At(0.0, false, 4), At(1.0, true, 4)], [0.0]);
    assert WellFormed(p);
    var s0 := Start(p);
    assert s0.calls == 1 && s0.lives == 5;
    var s1 := LoopStep(p, s0);
    assert !s1.done && s1.calls == 2 && s1.lives == 5 && s1.log == [Fire, Discrete(0)];
    var s2 := LoopStep(p, s1);
    assert !s2.done && s2.calls == 3 && s2.lives == 5;
    var s3 := LoopStep(p, s2);
    assert !s3.done && s3.calls == 6 && s3.lives == 4;
    assert s3.log == [Fire, Discrete(0), Discrete(0), Discrete(0), Fire, Fire];
    var s4 := LoopStep(p, s3);
    assert s4.done && s4.calls == 7 && s4.lives == 4;
    assert Run(p, s3) == s4;
    assert Run(p, s2) == s4;
    assert Run(p, s1) == s4;
    assert Episode(p) == s4;
  }

  /** The Coinrun cap episode run through the imperative task: a CoinrunTask
      built with max_steps 2 returns reward 3 after 3 iterations and 4
      env.step calls, the last of them the hard stop. */
  method CoinrunCapRollout() returns (reward: real, steps: int, calls: nat)
    ensures reward == 3.0 && steps == 3 && calls == 4
  {
    var env := new ScriptedEnv([0.0],
      [At(1.0, false, 0), At(1.0, false, 0), At(1.0, false, 0), At(1.0, false, 0)]);
    var task := new Task.CoinrunTask(env, 2);
    reward := task.Rollout(FirstAction, false, n => 0);
    CoinrunCapScenario();
    steps, calls := task.stepCnt, env.calls;
  }

  /** The Breakout lives episode run through the imperative task. */
  method BreakoutLivesRollout() returns (reward: real, steps: int, calls: nat)
    ensures reward == 2.0 && steps == 4 && calls == 7
  {
    var env := new ScriptedEnv([0.0],
      [At(0.0, false, 5), At(0.0, false, 5), At(1.0, false, 5), At(0.0, false, 4),
       At(0.0, false, 4), At(0.0, false, 4), At(1.0, true, 4)]);
    var task := new Task.BreakoutTask(env);
    reward := task.Rollout(FirstAction, false, n => 0);
    BreakoutLivesScenario();
    steps, calls := task.stepCnt, env.calls;
  }
}
