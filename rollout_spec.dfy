/** A functional account of RLTask.rollout: the state the loop carries from one
    iteration to the next, one iteration as a function, and the episode as the
    iteration run until the modified done flag is true. */
module RolloutSpec {
  import opened Hooks
  import opened Env

  /** Everything a rollout depends on: the task's tunables, SwingUp's index
      array, the evaluation flag, the solver (a function of the observations
      it was shown since solver.reset()) and the scripted environment. */
  datatype Params = Params(
    cfg: Config,
    perm: seq<int>,
    evalMode: bool,
    solver: seq<Obs> -> seq<real>,
    script: seq<Outcome>,
    resetObs: Obs)

  /** The solver's action vectors suit the variant's modify_action. */
  ghost predicate SolverFits(v: Variant, solver: seq<Obs> -> seq<real>) {
    forall h :: ActionFits(v, solver(h))
  }

  /** What the loop needs of its inputs to run without raising. */
  ghost predicate WellFormed(p: Params) {
    SolverFits(p.cfg.variant, p.solver) &&
    (p.cfg.variant == SwingUp ==>
      ObsFits(p.perm, p.resetObs) &&
      forall k :: 0 <= k < |p.script| ==> ObsFits(p.perm, p.script[k].obs))
  }

  /** The loop's variables (obs, reward, ep_reward, done, lives), the solver's
      history, the task's counters (step_cnt, _neg_reward_cnt) and the
      environment's call count and action log. */
  datatype LoopState = LoopState(
    obs: Obs,
    history: seq<Obs>,
    reward: real,
    epReward: real,
    done: bool,
    stepCnt: int,
    negCnt: int,
    lives: int,
    calls: nat,
    log: seq<Action>)

  /** The state when the loop is entered: counters reset, the first observation
      modified, and for Breakout the priming press sent and five lives tracked. */
  function Start(p: Params): (s: LoopState)
    requires WellFormed(p)
    ensures !s.done && s.stepCnt == 0 && s.negCnt == 0 && s.epReward == 0.0 && s.history == []
    ensures p.cfg.variant == Breakout ==> s.log == [Fire] && s.calls == 1 && s.lives == 5
    ensures p.cfg.variant != Breakout ==> s.log == [] && s.calls == 0
  {
    var obs := ModifyObs(p.cfg.variant, p.perm, p.resetObs);
    if p.cfg.variant == Breakout then LoopState(obs, [], 0.0, 0.0, false, 0, 0, 5, 1, [Fire])
    else LoopState(obs, [], 0.0, 0.0, false, 0, 0, 0, 0, [])
  }

  /** The outcome the environment gives at the loop's next env.step call. */
  function Next(p: Params, s: LoopState): Outcome {
    Response(p.resetObs, p.script, s.calls)
  }

  /** The action the loop sends at its next env.step call. */
  function ActionAt(p: Params, s: LoopState): Action
    requires WellFormed(p)
  {
    ModifyAction(p.cfg.variant, p.solver(s.history + [s.obs]))
  }

  /** One iteration of the while-not-done loop. */
  function LoopStep(p: Params, s: LoopState): (t: LoopState)
    requires WellFormed(p)
    ensures t.stepCnt == s.stepCnt + 1 && t.epReward == s.epReward + t.reward
    ensures t.calls > s.calls
    ensures |p.script| <= s.calls ==> t.done
    ensures t.history == s.history + [s.obs]
  {
    var v := p.cfg.variant;
    var history := s.history + [s.obs];
    var action := ModifyAction(v, p.solver(history));
    var o := Response(p.resetObs, p.script, s.calls);
    var obs := ModifyObs(v, p.perm, o.obs);
    var reward := ModifyReward(o.reward, o.done);
    var d := ModifyDone(p.cfg, p.evalMode, s.negCnt, s.stepCnt, reward, o.done);
    var stop := if d.hardStop then [HardStop] else [];
    var lifeLost := v == Breakout && s.lives > o.lives;
    var presses := if lifeLost then [Fire, Fire] else [];
    LoopState(obs, history, reward, s.epReward + reward, d.done, s.stepCnt + 1, d.negCnt,
              if lifeLost then o.lives else s.lives,
              s.calls + 1 + |stop| + |presses|, s.log + [action] + stop + presses)
  }

  /** The modify_done outcome of the loop's next iteration. */
  function DoneAt(p: Params, s: LoopState): DoneStep {
    ModifyDone(p.cfg, p.evalMode, s.negCnt, s.stepCnt, Next(p, s).reward, Next(p, s).done)
  }

  /** Whether the loop's next iteration sees Breakout's lives count drop. */
  predicate LifeLostAt(p: Params, s: LoopState) {
    p.cfg.variant == Breakout && s.lives > Next(p, s).lives
  }

  /** One iteration, field by field, in terms of the environment's answer and
      the modify_done outcome. */
  lemma LoopStepFields(p: Params, s: LoopState)
    requires WellFormed(p)
    ensures LoopStep(p, s) == LoopState(
      ModifyObs(p.cfg.variant, p.perm, Next(p, s).obs), s.history + [s.obs],
      Next(p, s).reward, s.epReward + Next(p, s).reward, DoneAt(p, s).done,
      s.stepCnt + 1, DoneAt(p, s).negCnt,
      if LifeLostAt(p, s) then Next(p, s).lives else s.lives,
      s.calls + 1 + (if DoneAt(p, s).hardStop then 1 else 0) + (if LifeLostAt(p, s) then 2 else 0),
      s.log + [ActionAt(p, s)] + (if DoneAt(p, s).hardStop then [HardStop] else [])
            + (if LifeLostAt(p, s) then [Fire, Fire] else []))
  {
  }

  /** A bound on the iterations left: each one makes at least one env.step
      call, and a call past the end of the script ends the episode. */
  function Remaining(p: Params, s: LoopState): nat {
    (if s.calls <= |p.script| then |p.script| - s.calls else 0) + (if s.done then 0 else 1)
  }

  /** The loop run from s until the done flag is true. */
  function Run(p: Params, s: LoopState): (r: LoopState)
    requires WellFormed(p)
    ensures r.done
    ensures s.done ==> r == s
    ensures !s.done ==> s.stepCnt < r.stepCnt
    ensures s.history <= r.history
    decreases Remaining(p, s)
  {
    if s.done then s else Run(p, LoopStep(p, s))
  }

  /** The states after each iteration of the loop run from s. */
  function Steps(p: Params, s: LoopState): (t: seq<LoopState>)
    requires WellFormed(p)
    ensures t == [] <==> s.done
    ensures forall i :: 0 <= i < |t| ==> t[i].stepCnt == s.stepCnt + i + 1
    decreases Remaining(p, s)
  {
    if s.done then [] else [LoopStep(p, s)] + Steps(p, LoopStep(p, s))
  }

  /** The state when rollout returns. */
  function Episode(p: Params): (e: LoopState)
    requires WellFormed(p)
    ensures e.done && 0 < e.stepCnt
  {
    Run(p, Start(p))
  }

  /** The states after each iteration of the rollout's loop. */
  function Trace(p: Params): (t: seq<LoopState>)
    requires WellFormed(p)
    ensures 0 < |t|
    ensures forall i :: 0 <= i < |t| ==> t[i].stepCnt == i + 1
  {
    Steps(p, Start(p))
  }

  /** The modified rewards of a run of states, in order. */
  function Rewards(t: seq<LoopState>): (rs: seq<real>)
    ensures |rs| == |t|
    ensures forall i :: 0 <= i < |t| ==> rs[i] == t[i].reward
  {
    seq(|t|, i requires 0 <= i < |t| => t[i].reward)
  }

  /** The sum of a sequence of rewards. */
  function Sum(rs: seq<real>): real {
    if rs == [] then 0.0 else rs[0] + Sum(rs[1..])
  }

  /** The number of negative rewards at the end of rs. */
  function TrailingNegatives(rs: seq<real>): nat {
    if rs == [] || rs[|rs| - 1] >= 0.0 then 0 else TrailingNegatives(rs[..|rs| - 1]) + 1
  }
}
