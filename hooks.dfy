/** The closed set of task variants and the pure hooks each of them plugs into
    the shared rollout loop: modify_obs, modify_action, modify_reward and the
    decision part of modify_done. */
module Hooks {

  /** An observation vector as the environment returns it. */
  type Obs = seq<real>

  /** The task variants that share the rollout loop. */
  datatype Variant = SwingUp | CarRacing | Coinrun | Breakout | VisualCartpole

  /** What is sent to env.step: a continuous action vector or a discrete action index. */
  datatype Action = Continuous(v: seq<real>) | Discrete(k: int)

  /** Coinrun's hard early stop, env.step(-1). */
  const HardStop: Action := Discrete(-1)

  /** Breakout's press that (re)starts the ball, env.step(1). */
  const Fire: Action := Discrete(1)

  /** The tunables that modify_done reads: the step cap and the cap on
      consecutive negative rewards (CarRacing's out_of_track_cap). */
  datatype Config = Config(variant: Variant, maxSteps: int, negRewardCap: int)

  /* ---------------- modify_action ---------------- */

  /** The variants whose modify_action picks the most likely action. */
  predicate ByArgmax(v: Variant) {
    v == Coinrun || v == Breakout || v == VisualCartpole
  }

  /** np.argmax on a vector: the first index of a maximal element. */
  function Argmax(act: seq<real>): (k: nat)
    requires |act| > 0
    ensures k < |act|
    ensures forall j :: 0 <= j < |act| ==> act[j] <= act[k]
    ensures forall j :: 0 <= j < k ==> act[j] < act[k]
  {
    if |act| == 1 then 0
    else
      var k' := Argmax(act[..|act| - 1]);
      if act[k'] < act[|act| - 1] then |act| - 1 else k'
  }

  /** CarRacing's action bounds per dimension (steering, gas, brake). */
  const ActionLow: seq<real> := [-1.0, 0.0, 0.0]
  const ActionHigh: seq<real> := [1.0, 1.0, 1.0]

  /** Component i of a normalised action under numpy broadcasting against the
      three bounds: a one-element action stands for all three dimensions. */
  function Component(act: seq<real>, i: nat): real
    requires |act| == 1 || i < |act|
  {
    if |act| == 1 then act[0] else act[i]
  }

  /** CarRacing's affine rescale of a [-1, 1]-normalised action, written as the
      source computes it: act * (high - low) / 2 + (high + low) / 2. */
  function RescaleAction(act: seq<real>): (r: seq<real>)
    requires |act| == 3 || |act| == 1
    ensures |r| == 3
    ensures forall i :: 0 <= i < 3 ==>
      r[i] == ActionLow[i] + (Component(act, i) + 1.0) / 2.0 * (ActionHigh[i] - ActionLow[i])
  {
    seq(3, i requires 0 <= i < 3 =>
      Component(act, i) * (ActionHigh[i] - ActionLow[i]) / 2.0 + (ActionHigh[i] + ActionLow[i]) / 2.0)
  }

  /** The end points of the normalised range map to the bounds, and 0 to the midpoint. */
  lemma RescaleEndpoints()
    ensures RescaleAction([-1.0, -1.0, -1.0]) == ActionLow
    ensures RescaleAction([1.0, 1.0, 1.0]) == ActionHigh
    ensures RescaleAction([0.0, 0.0, 0.0]) == [0.0, 0.5, 0.5]
  {
    var lo, hi, mid := RescaleAction([-1.0, -1.0, -1.0]), RescaleAction([1.0, 1.0, 1.0]), RescaleAction([0.0, 0.0, 0.0]);
    assert lo[0] == -1.0 && lo[1] == 0.0 && lo[2] == 0.0;
    assert hi[0] == 1.0 && hi[1] == 1.0 && hi[2] == 1.0;
    assert mid[0] == 0.0 && mid[1] == 0.5 && mid[2] == 0.5;
  }

  /** A normalised action whose components lie in [-1, 1] is sent inside the bounds. */
  lemma RescaleWithinBounds(act: seq<real>)
    requires |act| == 3 || |act| == 1
    requires forall j :: 0 <= j < |act| ==> -1.0 <= act[j] <= 1.0
    ensures forall i :: 0 <= i < 3 ==> ActionLow[i] <= RescaleAction(act)[i] <= ActionHigh[i]
  {
    var r := RescaleAction(act);
    forall i | 0 <= i < 3
      ensures ActionLow[i] <= r[i] <= ActionHigh[i]
    {
      var x := Component(act, i);
      assert -1.0 <= x <= 1.0;
      assert 0.0 <= (x + 1.0) / 2.0 <= 1.0;
      assert 0.0 <= ActionHigh[i] - ActionLow[i];
    }
  }

  /** What modify_action demands of the solver's action vector: three (or one,
      by broadcasting) components for CarRacing, at least one score for argmax. */
  predicate ActionFits(v: Variant, act: seq<real>) {
    match v
    case SwingUp => true
    case CarRacing => |act| == 3 || |act| == 1
    case _ => |act| > 0
  }

  /** modify_action per variant: identity for SwingUp, the rescale for
      CarRacing, the first maximal score for the argmax variants. */
  function ModifyAction(v: Variant, act: seq<real>): (a: Action)
    requires ActionFits(v, act)
    ensures ByArgmax(v) ==> a.Discrete? && 0 <= a.k < |act|
    ensures ByArgmax(v) ==> forall j :: 0 <= j < |act| ==> act[j] <= act[a.k]
    ensures ByArgmax(v) ==> forall j :: 0 <= j < a.k ==> act[j] < act[a.k]
    ensures v == SwingUp ==> a == Continuous(act)
    ensures v == CarRacing ==> a == Continuous(RescaleAction(act))
  {
    match v
    case SwingUp => Continuous(act)
    case CarRacing => Continuous(RescaleAction(act))
    case _ => Discrete(Argmax(act))
  }

  /* ---------------- modify_obs ---------------- */

  /** np.arange(n). */
  function Range(n: nat): (r: seq<int>)
    ensures |r| == n
    ensures forall i :: 0 <= i < n ==> r[i] == i
    ensures IsPermutation(r, n)
  {
    seq(n, i => i)
  }

  /** p holds each of 0 .. n-1 exactly once. */
  predicate IsPermutation(p: seq<int>, n: nat) {
    |p| == n &&
    (forall i :: 0 <= i < n ==> 0 <= p[i] < n) &&
    (forall i, j :: 0 <= i < j < n ==> p[i] != p[j])
  }

  /** Every index of perm is a valid position of obs (numpy's fancy indexing
      raises otherwise). */
  predicate ObsFits(perm: seq<int>, obs: Obs) {
    forall i :: 0 <= i < |perm| ==> 0 <= perm[i] < |obs|
  }

  /** obs[perm]: the features of obs in the order perm lists them. */
  function Permute(obs: Obs, perm: seq<int>): (r: Obs)
    requires ObsFits(perm, obs)
    ensures |r| == |perm|
    ensures forall i :: 0 <= i < |perm| ==> r[i] == obs[perm[i]]
  {
    seq(|perm|, i requires 0 <= i < |perm| => obs[perm[i]])
  }

  /** With the unshuffled index array, SwingUp's modify_obs is the identity. */
  lemma PermuteByRange(obs: Obs)
    ensures ObsFits(Range(|obs|), obs)
    ensures Permute(obs, Range(|obs|)) == obs
  {
  }

  /** A permutation of the observation's dimension is a valid index array for
      it, and obs[perm] takes every feature of obs: perm reorders 0 .. n-1. */
  lemma PermutationFits(perm: seq<int>, obs: Obs)
    requires IsPermutation(perm, |obs|)
    ensures ObsFits(perm, obs)
    ensures forall j :: 0 <= j < |obs| ==> j in perm
  {
    forall j | 0 <= j < |obs|
      ensures j in perm
    {
      PermutationHits(perm, |obs|, j);
    }
  }

  /** A permutation of 0 .. n-1 takes every value in that range (pigeonhole). */
  lemma PermutationHits(p: seq<int>, n: nat, j: int)
    requires IsPermutation(p, n)
    requires 0 <= j < n
    ensures j in p
  {
    if j !in p {
      // p then injects 0 .. n-1 into the n-1 values of 0 .. n-1 other than j
      var q := seq(n, i requires 0 <= i < n => if p[i] < j then p[i] else p[i] - 1);
      assert forall i :: 0 <= i < n ==> p[i] != j;
      forall i, k | 0 <= i < k < n
        ensures q[i] != q[k]
      {
        assert p[i] != p[k];
      }
      InjectionBound(q, n - 1);
      assert false;
    }
  }

  /** A sequence of distinct values drawn from 0 .. m-1 has at most m elements. */
  lemma {:induction false} InjectionBound(q: seq<int>, m: nat)
    requires forall i :: 0 <= i < |q| ==> 0 <= q[i] < m
    requires forall i, k :: 0 <= i < k < |q| ==> q[i] != q[k]
    ensures |q| <= m
    decreases m
  {
    if |q| > 0 {
      assert 0 <= q[0] < m;
      var top := m - 1;
      if top in q {
        // drop the position that holds the largest value and recurse on the rest
        var t :| 0 <= t < |q| && q[t] == top;
        var r := q[..t] + q[t + 1..];
        assert forall i :: 0 <= i < |r| ==> r[i] == (if i < t then q[i] else q[i + 1]);
        assert forall i :: 0 <= i < |r| ==> 0 <= r[i] < top;
        InjectionBound(r, top);
      } else {
        assert forall i :: 0 <= i < |q| ==> q[i] != top;
        InjectionBound(q, top);
      }
    }
  }

  /** modify_obs per variant: SwingUp reorders the features by its index array;
      every other variant passes the observation through. */
  function ModifyObs(v: Variant, perm: seq<int>, obs: Obs): (r: Obs)
    requires v == SwingUp ==> ObsFits(perm, obs)
    ensures v == SwingUp ==> |r| == |perm| && forall i :: 0 <= i < |perm| ==> r[i] == obs[perm[i]]
    ensures v != SwingUp ==> r == obs
  {
    if v == SwingUp then Permute(obs, perm) else obs
  }

  /* ---------------- modify_reward and modify_done ---------------- */

  /** modify_reward: no variant overrides the default, which keeps the reward. */
  function ModifyReward(reward: real, done: bool): (r: real)
    ensures r == reward
  {
    reward
  }

  /** The outcome of one modify_done call: the flag it returns, the
      negative-reward counter afterwards, and whether it sent the hard stop. */
  datatype DoneStep = DoneStep(done: bool, negCnt: int, hardStop: bool)

  /** modify_done per variant, given the (already modified) reward, the
      native done flag and the step count before it is incremented. */
  function ModifyDone(c: Config, evalMode: bool, negCnt: int, stepCnt: int, reward: real, done: bool): (r: DoneStep)
    ensures done ==> r.done
    ensures evalMode || (c.variant != CarRacing && c.variant != Coinrun) ==> r == DoneStep(done, negCnt, false)
    ensures r.hardStop <==> c.variant == Coinrun && !evalMode && 0 < c.maxSteps <= stepCnt
    ensures r.done ==> done || r.hardStop || (c.variant == CarRacing && !evalMode)
    ensures c.variant == CarRacing && !evalMode ==>
      (reward >= 0.0 ==> r.negCnt == 0) && (reward < 0.0 ==> r.negCnt == negCnt + 1) &&
      (r.done <==> done || 0 < c.negRewardCap < r.negCnt || 0 < c.maxSteps <= stepCnt)
    ensures c.variant == Coinrun && !evalMode ==> r.negCnt == negCnt
    ensures c.variant == Coinrun && !evalMode ==> (r.done <==> done || 0 < c.maxSteps <= stepCnt)
  {
    if evalMode then DoneStep(done, negCnt, false)
    else match c.variant
      case CarRacing =>
        var cnt := if reward < 0.0 then negCnt + 1 else 0;
        var tooManyOutOfTracks := 0 < c.negRewardCap < cnt;
        var tooManySteps := 0 < c.maxSteps <= stepCnt;
        DoneStep(done || tooManyOutOfTracks || tooManySteps, cnt, false)
      case Coinrun =>
        var tooManySteps := 0 < c.maxSteps <= stepCnt;
        DoneStep(done || tooManySteps, negCnt, tooManySteps)
      case _ => DoneStep(done, negCnt, false)
  }
}
