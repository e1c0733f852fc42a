/** What the rollout loop promises, proved about its functional account. */
module RolloutLemmas {
  import opened Hooks
  import opened RolloutSpec

  /** The loop stops at the first state whose modified done flag is true, and
      not before: a run from s ends in a done state, makes no iteration when s
      is done, and every state it passes before its last is not done. */
  lemma {:induction false} RunStops(p: Params, s: LoopState)
    requires WellFormed(p)
    ensures Run(p, s).done
    ensures Steps(p, s) == [] <==> s.done
    ensures Steps(p, s) != [] ==> Steps(p, s)[|Steps(p, s)| - 1] == Run(p, s)
    ensures forall i :: 0 <= i < |Steps(p, s)| - 1 ==> !Steps(p, s)[i].done
    decreases Remaining(p, s)
  {
    if !s.done {
      var u := LoopStep(p, s);
      RunStops(p, u);
      assert Steps(p, s) == [u] + Steps(p, u);
    }
  }

  /** step_cnt grows by one per iteration. */
  lemma {:induction false} RunCounts(p: Params, s: LoopState)
    requires WellFormed(p)
    ensures Run(p, s).stepCnt == s.stepCnt + |Steps(p, s)|
    decreases Remaining(p, s)
  {
    if !s.done {
      var u := LoopStep(p, s);
      RunCounts(p, u);
      assert |Steps(p, s)| == 1 + |Steps(p, u)|;
    }
  }

  /** ep_reward grows by the sum of the modified rewards of the iterations. */
  lemma {:induction false} RunSums(p: Params, s: LoopState)
    requires WellFormed(p)
    ensures Run(p, s).epReward == s.epReward + Sum(Rewards(Steps(p, s)))
    decreases Remaining(p, s)
  {
    if !s.done {
      var u := LoopStep(p, s);
      RunSums(p, u);
      var t := Steps(p, u);
      assert Steps(p, s) == [u] + t;
      assert Rewards([u] + t) == [u.reward] + Rewards(t);
      assert ([u.reward] + Rewards(t))[1..] == Rewards(t);
    }
  }

  /** rollout's contract: it returns the sum of the modified rewards of its
      iterations, step_cnt ends equal to the number of iterations, and the
      loop ends at the first iteration whose modified done flag is true. */
  lemma EpisodeAccounting(p: Params)
    requires WellFormed(p)
    ensures |Trace(p)| > 0
    ensures Episode(p) == Trace(p)[|Trace(p)| - 1] && Episode(p).done
    ensures forall i :: 0 <= i < |Trace(p)| - 1 ==> !Trace(p)[i].done
    ensures Episode(p).stepCnt == |Trace(p)|
    ensures Episode(p).epReward == Sum(Rewards(Trace(p)))
  {
    RunStops(p, Start(p));
    RunCounts(p, Start(p));
    RunSums(p, Start(p));
  }

  /** With an environment that is done at its first step, the rollout of any
      variant that does not prime the game takes exactly one iteration and
      returns that step's reward. */
  lemma FirstStepDone(p: Params)
    requires WellFormed(p)
    requires p.cfg.variant != Breakout
    requires |p.script| > 0 && p.script[0].done
    ensures |Trace(p)| == 1
    ensures Episode(p).stepCnt == 1
    ensures Episode(p).epReward == p.script[0].reward
  {
    var s0 := Start(p);
    var u := LoopStep(p, s0);
    assert Next(p, s0) == p.script[0];
    assert u.done && u.epReward == p.script[0].reward;
    assert Steps(p, u) == [];
    assert Trace(p) == [u];
    assert Episode(p) == Run(p, u) == u;
  }

  /** In evaluation mode, for every variant, each iteration's done flag is the
      environment's own, the negative-reward counter stays put and no hard stop
      is sent. */
  lemma EvalModeIsNative(p: Params, s: LoopState)
    requires WellFormed(p) && p.evalMode
    ensures LoopStep(p, s).done == Next(p, s).done
    ensures LoopStep(p, s).negCnt == s.negCnt
    ensures p.cfg.variant != Breakout ==> LoopStep(p, s).log == s.log + [ActionAt(p, s)]
  {
  }

  /** A bound on the iterations from s under an early-stopping step cap: once
      step_cnt has reached the cap, the next iteration is the last. */
  lemma {:induction false} StepsBounded(p: Params, s: LoopState)
    requires WellFormed(p) && !p.evalMode
    requires p.cfg.variant == CarRacing || p.cfg.variant == Coinrun
    requires 0 < p.cfg.maxSteps
    ensures |Steps(p, s)| <= if p.cfg.maxSteps <= s.stepCnt then 1 else p.cfg.maxSteps - s.stepCnt + 1
    decreases Remaining(p, s)
  {
    if !s.done {
      var u := LoopStep(p, s);
      assert Steps(p, s) == [u] + Steps(p, u);
      if p.cfg.maxSteps <= s.stepCnt {
        assert u.done;
      } else {
        StepsBounded(p, u);
      }
    }
  }

  /** Because modify_done sees step_cnt before it is incremented, a
      non-evaluation CarRacing or Coinrun rollout makes at most max_steps + 1
      iterations. */
  lemma EpisodeStepCap(p: Params)
    requires WellFormed(p) && !p.evalMode
    requires p.cfg.variant == CarRacing || p.cfg.variant == Coinrun
    requires 0 < p.cfg.maxSteps
    ensures |Trace(p)| <= p.cfg.maxSteps + 1
    ensures Episode(p).stepCnt <= p.cfg.maxSteps + 1
  {
    StepsBounded(p, Start(p));
    RunCounts(p, Start(p));
  }

  /** Coinrun's hard stops from s: exactly one more is sent, and only if the
      run reaches the iteration where step_cnt equals the cap. */
  lemma {:induction false} HardStopCount(p: Params, s: LoopState)
    requires WellFormed(p) && !p.evalMode && p.cfg.variant == Coinrun
    requires p.cfg.maxSteps <= 0 || s.stepCnt <= p.cfg.maxSteps
    ensures multiset(Run(p, s).log)[HardStop] ==
      multiset(s.log)[HardStop] +
      (if !s.done && 0 < p.cfg.maxSteps && Run(p, s).stepCnt == p.cfg.maxSteps + 1 then 1 else 0)
    decreases Remaining(p, s)
  {
    if !s.done {
      var u := LoopStep(p, s);
      var a := ActionAt(p, s);
      assert a != HardStop;
      var stopped := 0 < p.cfg.maxSteps <= s.stepCnt;
      assert u.log == s.log + [a] + (if stopped then [HardStop] else []);
      assert multiset(u.log)[HardStop] == multiset(s.log)[HardStop] + (if stopped then 1 else 0);
      if stopped {
        assert u.done && Run(p, u) == u;
      } else if u.done {
        assert Run(p, u) == u;
      } else {
        HardStopCount(p, u);
      }
    }
  }

  /** A non-evaluation Coinrun rollout sends env.step(-1) at most once: exactly
      once when it runs into the step cap, and never otherwise. */
  lemma EpisodeHardStop(p: Params)
    requires WellFormed(p) && !p.evalMode && p.cfg.variant == Coinrun
    ensures multiset(Episode(p).log)[HardStop] ==
      if 0 < p.cfg.maxSteps && Episode(p).stepCnt == p.cfg.maxSteps + 1 then 1 else 0
  {
    HardStopCount(p, Start(p));
  }

  /** Breakout's iteration: a drop in the reported lives sends two extra
      presses after the step and lowers the tracked count to the reported one;
      the episode still ends only on the environment's done flag. */
  lemma BreakoutLifeLoss(p: Params, s: LoopState)
    requires WellFormed(p) && p.cfg.variant == Breakout
    ensures LoopStep(p, s).done == Next(p, s).done
    ensures LoopStep(p, s).log ==
      s.log + [ActionAt(p, s)] + (if s.lives > Next(p, s).lives then [Fire, Fire] else [])
    ensures LoopStep(p, s).lives == if s.lives > Next(p, s).lives then Next(p, s).lives else s.lives
  {
  }

  /** The tracked lives count never increases along a run. */
  lemma {:induction false} LivesNeverIncrease(p: Params, s: LoopState)
    requires WellFormed(p)
    ensures forall i :: 0 <= i < |Steps(p, s)| ==> Steps(p, s)[i].lives <= s.lives
    ensures forall i, j :: 0 <= i <= j < |Steps(p, s)| ==> Steps(p, s)[j].lives <= Steps(p, s)[i].lives
    decreases Remaining(p, s)
  {
    if !s.done {
      var u := LoopStep(p, s);
      LivesNeverIncrease(p, u);
      assert Steps(p, s) == [u] + Steps(p, u);
    }
  }

  /** A run's action log extends the log it started from. */
  lemma {:induction false} LogExtends(p: Params, s: LoopState)
    requires WellFormed(p)
    ensures |s.log| <= |Run(p, s).log| && Run(p, s).log[..|s.log|] == s.log
    decreases Remaining(p, s)
  {
    if !s.done {
      var u := LoopStep(p, s);
      LogExtends(p, u);
      assert u.log[..|s.log|] == s.log;
    }
  }

  /** Breakout sends exactly one press before its loop: the first action of
      the episode is that press, and the loop starts with five lives tracked. */
  lemma BreakoutPriming(p: Params)
    requires WellFormed(p) && p.cfg.variant == Breakout
    ensures Start(p).log == [Fire] && Start(p).lives == 5
    ensures |Episode(p).log| > 0 && Episode(p).log[0] == Fire
    ensures forall i :: 0 <= i < |Trace(p)| ==> Trace(p)[i].lives <= 5
  {
    LogExtends(p, Start(p));
    LivesNeverIncrease(p, Start(p));
  }

  /** One CarRacing iteration outside evaluation mode extends the streak
      count by its reward, and a count above a positive cap ends the episode. */
  lemma StreakStep(p: Params, s: LoopState, prior: seq<real>)
    requires WellFormed(p) && !p.evalMode && p.cfg.variant == CarRacing
    requires s.negCnt == TrailingNegatives(prior)
    ensures LoopStep(p, s).negCnt == TrailingNegatives(prior + [LoopStep(p, s).reward])
    ensures 0 < p.cfg.negRewardCap < LoopStep(p, s).negCnt ==> LoopStep(p, s).done
  {
    var prior' := prior + [LoopStep(p, s).reward];
    assert prior'[..|prior'| - 1] == prior;
  }

  /** The streak counts of a run, written for the step from u's predecessor. */
  lemma StreakShift(u: LoopState, t: seq<LoopState>, prior: seq<real>, i: nat)
    requires 0 < i < |t| + 1
    ensures ([u] + t)[..i + 1] == [u] + t[..i]
    ensures prior + Rewards(([u] + t)[..i + 1]) == (prior + [u.reward]) + Rewards(t[..i])
  {
    assert ([u] + t)[..i + 1] == [u] + t[..i];
    assert Rewards([u] + t[..i]) == [u.reward] + Rewards(t[..i]);
  }

  /** CarRacing outside evaluation mode: after every iteration the counter
      equals the number of consecutive negative rewards the run ends with
      (counting those before s), and a counter above a positive cap ends the
      episode. */
  lemma {:induction false} NegativeStreak(p: Params, s: LoopState, prior: seq<real>)
    requires WellFormed(p) && !p.evalMode && p.cfg.variant == CarRacing
    requires s.negCnt == TrailingNegatives(prior)
    ensures forall i :: 0 <= i < |Steps(p, s)| ==>
      Steps(p, s)[i].negCnt == TrailingNegatives(prior + Rewards(Steps(p, s)[..i + 1]))
    ensures forall i :: 0 <= i < |Steps(p, s)| && 0 < p.cfg.negRewardCap < Steps(p, s)[i].negCnt ==>
      Steps(p, s)[i].done
    decreases Remaining(p, s)
  {
    if !s.done {
      var u := LoopStep(p, s);
      var prior' := prior + [u.reward];
      StreakStep(p, s, prior);
      NegativeStreak(p, u, prior');
      var t := Steps(p, u);
      var ts := Steps(p, s);
      assert ts == [u] + t;
      forall i | 0 <= i < |ts|
        ensures ts[i].negCnt == TrailingNegatives(prior + Rewards(ts[..i + 1]))
      {
        if i == 0 {
          assert ts[..1] == [u];
          assert prior + Rewards([u]) == prior';
        } else {
          StreakShift(u, t, prior, i);
          assert ts[i] == t[i - 1];
        }
      }
    }
  }

  /** For a whole CarRacing rollout outside evaluation mode: the counter tracks
      the negative-reward streak, a non-negative reward clears it, and the
      episode ends at the iteration where the streak first exceeds a positive
      cap (if it has not ended before). */
  lemma EpisodeNegativeStreak(p: Params)
    requires WellFormed(p) && !p.evalMode && p.cfg.variant == CarRacing
    ensures forall i :: 0 <= i < |Trace(p)| ==>
      Trace(p)[i].negCnt == TrailingNegatives(Rewards(Trace(p)[..i + 1]))
    ensures forall i :: 0 <= i < |Trace(p)| && 0 < p.cfg.negRewardCap < TrailingNegatives(Rewards(Trace(p)[..i + 1])) ==>
      Trace(p)[i].done
  {
    NegativeStreak(p, Start(p), []);
    forall i | 0 <= i < |Trace(p)|
      ensures Trace(p)[i].negCnt == TrailingNegatives(Rewards(Trace(p)[..i + 1]))
    {
      assert [] + Rewards(Trace(p)[..i + 1]) == Rewards(Trace(p)[..i + 1]);
    }
  }
}
