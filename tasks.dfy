/** The task objects: RLTask's per-rollout state and its five variants, with
    reset_for_rollout, the stateful modify_done and the rollout loop itself. */
module Tasks {
  import opened Hooks
  import opened Env
  import opened RolloutSpec

  /** np.random.shuffle on an index array: Fisher-Yates from the last position
      down, swapping position i with a draw j in 0 .. i. rand(k) is the k-th
      draw of the generator. */
  method Shuffle(a: array<int>, rand: nat -> nat)
    modifies a
    ensures multiset(a[..]) == multiset(old(a[..]))
    ensures IsPermutation(old(a[..]), a.Length) ==> IsPermutation(a[..], a.Length)
  {
    var i := a.Length - 1;
    while i > 0
      invariant -1 <= i < a.Length
      invariant multiset(a[..]) == multiset(old(a[..]))
      invariant IsPermutation(old(a[..]), a.Length) ==> IsPermutation(a[..], a.Length)
    {
      var j := rand(a.Length - 1 - i) % (i + 1);
      ghost var before := a[..];
      a[i], a[j] := a[j], a[i];
      assert a[..] == Swapped(before, i, j);
      SwapPreserves(before, i, j);
      i := i - 1;
    }
  }

  /** s with the elements at i and j exchanged. */
  function Swapped(s: seq<int>, i: nat, j: nat): (r: seq<int>)
    requires i < |s| && j < |s|
  {
    s[i := s[j]][j := s[i]]
  }

  /** Exchanging two elements keeps the multiset, and so keeps a permutation one. */
  lemma SwapPreserves(s: seq<int>, i: nat, j: nat)
    requires i < |s| && j < |s|
    ensures multiset(Swapped(s, i, j)) == multiset(s)
    ensures IsPermutation(s, |s|) ==> IsPermutation(Swapped(s, i, j), |s|)
  {
    var r := Swapped(s, i, j);
    assert forall k :: 0 <= k < |s| ==> r[k] == (if k == j then s[i] else if k == i then s[j] else s[k]);
  }

  /** A task: the variant, its tunables, the environment it owns, and the
      fields that rollout and its hooks update. */
  class Task {
    const variant: Variant
    const env: ScriptedEnv
    /** SwingUp: whether reset_for_rollout shuffles perm_ix. */
    const shuffleOnReset: bool
    /** CarRacing and Coinrun: the step cap (_max_steps). */
    const maxSteps: int
    /** CarRacing: _neg_reward_cap (out_of_track_cap). */
    const negRewardCap: int

    var stepCnt: int
    var evalMode: bool
    /** CarRacing's _neg_reward_cnt; zero for the other variants. */
    var negRewardCnt: int
    /** SwingUp's perm_ix. */
    var permIx: seq<int>

    ghost predicate Valid()
      reads this, env
    {
      env.Valid() &&
      (variant == SwingUp ==> IsPermutation(permIx, env.obsDim)) &&
      (variant != CarRacing ==> negRewardCnt == 0)
    }

    /** The tunables modify_done reads. */
    function Settings(): (c: Config)
      ensures c.variant == variant && c.maxSteps == maxSteps && c.negRewardCap == negRewardCap
    {
      Config(variant, maxSteps, negRewardCap)
    }

    /** CartPoleSwingUpTask: perm_ix starts as np.arange(observation dimension). */
    constructor CartPoleSwingUpTask(env: ScriptedEnv, shuffleOnReset: bool := false)
      requires env.Valid()
      ensures Valid()
      ensures variant == SwingUp && this.env == env && this.shuffleOnReset == shuffleOnReset
      ensures maxSteps == 0 && negRewardCap == 0
      ensures permIx == Range(env.obsDim) && negRewardCnt == 0 && stepCnt == 0 && !evalMode
    {
      variant := SwingUp;
      this.env := env;
      this.shuffleOnReset := shuffleOnReset;
      maxSteps, negRewardCap := 0, 0;
      stepCnt, evalMode, negRewardCnt := 0, false, 0;
      permIx := Range(env.obsDim);
    }

    /** CarRacingTask: a fixed step cap of 1000 and a cap on consecutive
        negative rewards, 20 by default. */
    constructor CarRacingTask(env: ScriptedEnv, outOfTrackCap: int := 20)
      requires env.Valid()
      ensures Valid()
      ensures variant == CarRacing && this.env == env
      ensures maxSteps == 1000 && negRewardCap == outOfTrackCap && !shuffleOnReset
      ensures permIx == [] && negRewardCnt == 0 && stepCnt == 0 && !evalMode
    {
      variant := CarRacing;
      this.env := env;
      shuffleOnReset := false;
      maxSteps, negRewardCap := 1000, outOfTrackCap;
      stepCnt, evalMode, negRewardCnt := 0, false, 0;
      permIx := [];
    }

    /** CoinrunTask: a configurable step cap, 5000 by default. */
    constructor CoinrunTask(env: ScriptedEnv, maxSteps: int := 5000)
      requires env.Valid()
      ensures Valid()
      ensures variant == Coinrun && this.env == env && this.maxSteps == maxSteps
      ensures negRewardCap == 0 && !shuffleOnReset
      ensures permIx == [] && negRewardCnt == 0 && stepCnt == 0 && !evalMode
    {
      variant := Coinrun;
      this.env := env;
      shuffleOnReset := false;
      this.maxSteps, negRewardCap := maxSteps, 0;
      stepCnt, evalMode, negRewardCnt := 0, false, 0;
      permIx := [];
    }

    /** BreakoutTask. */
    constructor BreakoutTask(env: ScriptedEnv)
      requires env.Valid()
      ensures Valid()
      ensures variant == Breakout && this.env == env
      ensures maxSteps == 0 && negRewardCap == 0 && !shuffleOnReset
      ensures permIx == [] && negRewardCnt == 0 && stepCnt == 0 && !evalMode
    {
      variant := Breakout;
      this.env := env;
      shuffleOnReset := false;
      maxSteps, negRewardCap := 0, 0;
      stepCnt, evalMode, negRewardCnt := 0, false, 0;
      permIx := [];
    }

    /** VisualCartpoleTask. */
    constructor VisualCartpoleTask(env: ScriptedEnv)
      requires env.Valid()
      ensures Valid()
      ensures variant == VisualCartpole && this.env == env
      ensures maxSteps == 0 && negRewardCap == 0 && !shuffleOnReset
      ensures permIx == [] && negRewardCnt == 0 && stepCnt == 0 && !evalMode
    {
      variant := VisualCartpole;
      this.env := env;
      shuffleOnReset := false;
      maxSteps, negRewardCap := 0, 0;
      stepCnt, evalMode, negRewardCnt := 0, false, 0;
      permIx := [];
    }

    /** reset_for_rollout: every variant zeroes step_cnt; CarRacing also zeroes
        its negative-reward counter; SwingUp rebuilds perm_ix as
        np.arange(n) and shuffles it when shuffle_on_reset is set. */
    method ResetForRollout(rand: nat -> nat)
      requires Valid()
      modifies this
      ensures Valid()
      ensures stepCnt == 0 && negRewardCnt == 0 && evalMode == old(evalMode)
      ensures variant == SwingUp ==> IsPermutation(permIx, env.obsDim)
      ensures variant == SwingUp && !shuffleOnReset ==> permIx == Range(env.obsDim)
      ensures variant != SwingUp ==> permIx == old(permIx)
    {
      if variant == SwingUp {
        var ix := new int[env.obsDim](i => i);
        assert ix[..] == Range(env.obsDim);
        if shuffleOnReset {
          Shuffle(ix, rand);
        }
        permIx := ix[..];
      }
      if variant == CarRacing {
        negRewardCnt := 0;
      }
      stepCnt := 0;
    }

    /** modify_done: the flag the loop continues on. CarRacing updates its
        negative-reward counter; Coinrun sends env.step(-1) when it stops the
        episode at the step cap. */
    method ModifyDone(reward: real, done: bool) returns (d: bool)
      requires Valid()
      modifies this`negRewardCnt, env
      ensures Valid()
      ensures var r := Hooks.ModifyDone(Settings(), evalMode, old(negRewardCnt), stepCnt, reward, done);
        d == r.done && negRewardCnt == r.negCnt &&
        env.calls == old(env.calls) + (if r.hardStop then 1 else 0) &&
        env.log == old(env.log) + (if r.hardStop then [HardStop] else [])
    {
      if evalMode {
        return done;
      }
      match variant {
        case CarRacing =>
          if reward < 0.0 {
            negRewardCnt := negRewardCnt + 1;
          } else {
            negRewardCnt := 0;
          }
          var tooManyOutOfTracks := 0 < negRewardCap < negRewardCnt;
          var tooManySteps := 0 < maxSteps <= stepCnt;
          d := done || tooManyOutOfTracks || tooManySteps;
        case Coinrun =>
          var tooManySteps := 0 < maxSteps <= stepCnt;
          if tooManySteps {
            var ignored := env.Step(HardStop);
          }
          d := done || tooManySteps;
        case _ =>
          d := done;
      }
    }

    /** The loop state made of the task's and the environment's fields and
        the loop's local variables. */
    ghost function Current(obs: Obs, history: seq<Obs>, reward: real, epReward: real, done: bool, lives: int): LoopState
      reads this, env
    {
      LoopState(obs, history, reward, epReward, done, stepCnt, negRewardCnt, lives, env.calls, env.log)
    }

    /** rollout(solution, evaluation): one episode. The returned reward, the
        final step_cnt and counter, and every action sent to the environment
        are those of the episode's functional account. */
    method Rollout(solver: seq<Obs> -> seq<real>, evaluation: bool := false, rand: nat -> nat) returns (epReward: real)
      requires Valid()
      requires SolverFits(variant, solver)
      modifies this, env
      ensures Valid() && evalMode == evaluation
      ensures variant == SwingUp ==> IsPermutation(permIx, env.obsDim)
      ensures variant == SwingUp && !shuffleOnReset ==> permIx == Range(env.obsDim)
      ensures variant != SwingUp ==> permIx == old(permIx)
      ensures WellFormed(Params(Settings(), permIx, evaluation, solver, env.script, env.resetObs))
      ensures var e := Episode(Params(Settings(), permIx, evaluation, solver, env.script, env.resetObs));
        epReward == e.epReward && stepCnt == e.stepCnt && negRewardCnt == e.negCnt &&
        env.calls == e.calls && env.log == e.log
    {
      ghost var p;
      var obs, history, lives;
      p, obs, history, lives := Begin(solver, evaluation, rand);
      epReward := 0.0;
      var done := false;
      var reward := 0.0;

      while !done
        invariant Valid() && evalMode == evaluation && permIx == p.perm
        invariant p == Params(Settings(), permIx, evaluation, solver, env.script, env.resetObs)
        invariant WellFormed(p)
        invariant Run(p, Current(obs, history, reward, epReward, done, lives)) == Episode(p)
        decreases Remaining(p, Current(obs, history, reward, epReward, done, lives))
      {
        obs, history, reward, epReward, done, lives := Iterate(p, solver, obs, history, reward, epReward, lives);
      }
    }

    /** The part of rollout before its loop: set the evaluation flag, call
        reset_for_rollout, reset the solver (its history starts empty), reset
        the environment and modify the first observation; Breakout then sends
        its priming press and tracks five lives. */
    method Begin(solver: seq<Obs> -> seq<real>, evaluation: bool, rand: nat -> nat)
      returns (ghost p: Params, obs: Obs, history: seq<Obs>, lives: int)
      requires Valid()
      requires SolverFits(variant, solver)
      modifies this, env
      ensures Valid() && evalMode == evaluation
      ensures variant == SwingUp ==> IsPermutation(permIx, env.obsDim)
      ensures variant == SwingUp && !shuffleOnReset ==> permIx == Range(env.obsDim)
      ensures variant != SwingUp ==> permIx == old(permIx)
      ensures p == Params(Settings(), permIx, evaluation, solver, env.script, env.resetObs)
      ensures WellFormed(p)
      ensures Current(obs, history, 0.0, 0.0, false, lives) == Start(p)
    {
      evalMode := evaluation;
      ResetForRollout(rand);
      history := [];
      obs := env.Reset();
      p := Params(Settings(), permIx, evaluation, solver, env.script, env.resetObs);
      WellFormedParams(p);
      obs := ModifyObs(variant, permIx, obs);
      lives := 0;
      if variant == Breakout {
        var ignored := env.Step(Fire);
        lives := 5;
      }
    }

    /** One iteration of rollout's while-not-done loop, from the state whose
        local variables are given: ask the solver, modify the action, step,
        modify the observation, reward and done flag, count the step,
        accumulate the reward, and for Breakout re-press after a lost life. */
    method Iterate(ghost p: Params, solver: seq<Obs> -> seq<real>, obs0: Obs, history0: seq<Obs>, ghost reward0: real, epReward0: real, lives0: int)
      returns (obs: Obs, history: seq<Obs>, reward: real, epReward: real, done: bool, lives: int)
      requires Valid() && WellFormed(p)
      requires p == Params(Settings(), permIx, evalMode, solver, env.script, env.resetObs)
      modifies this`stepCnt, this`negRewardCnt, env
      ensures Valid()
      ensures Current(obs, history, reward, epReward, done, lives) ==
        LoopStep(p, old(Current(obs0, history0, reward0, epReward0, false, lives0)))
    {
      ghost var s := Current(obs0, history0, reward0, epReward0, false, lives0);
      obs, history, epReward, lives := obs0, history0, epReward0, lives0;
      LoopStepFields(p, s);
      history := history + [obs];
      var action := ModifyAction(variant, solver(history));
      assert action == ActionAt(p, s);
      var o := env.Step(action);
      assert o == Next(p, s);
      obs := ModifyObs(variant, permIx, o.obs);
      reward := ModifyReward(o.reward, o.done);
      done := ModifyDone(reward, o.done);
      ghost var d := DoneAt(p, s);
      assert done == d.done && negRewardCnt == d.negCnt;
      assert env.log == s.log + [action] + (if d.hardStop then [HardStop] else []);
      assert env.calls == s.calls + 1 + (if d.hardStop then 1 else 0);
      stepCnt := stepCnt + 1;
      epReward := epReward + reward;
      if variant == Breakout && lives > o.lives {
        var ignored := env.Step(Fire);
        ignored := env.Step(Fire);
        lives := o.lives;
      }
      assert LifeLostAt(p, s) <==> variant == Breakout && s.lives > o.lives;
      assert stepCnt == s.stepCnt + 1 && epReward == s.epReward + o.reward;
    }

    /** A valid task and a fitting solver make well-formed rollout parameters. */
    lemma WellFormedParams(p: Params)
      requires Valid() && SolverFits(variant, p.solver)
      requires p.cfg == Settings() && p.perm == permIx
      requires p.script == env.script && p.resetObs == env.resetObs
      ensures WellFormed(p)
    {
      if variant == SwingUp {
        PermutationFits(permIx, env.resetObs);
        forall k | 0 <= k < |p.script|
          ensures ObsFits(p.perm, p.script[k].obs)
        {
          PermutationFits(permIx, p.script[k].obs);
        }
      }
    }
  }
}
