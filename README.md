# Rollout loop of the AttentionAgent RL tasks, in Dafny

This project models the task adapter of AttentionAgent (`tasks/rl_tasks.py`):
the shared `RLTask.rollout` loop and the hooks that the five variants
(CartPole swing-up, CarRacing, Coinrun, Breakout, visual CartPole) plug into it.
The variants form one closed set (`Hooks.Variant`). Each hook dispatches on it
instead of on `isinstance`.

- `hooks.dfy` (module `Hooks`) holds the pure hooks:
  - `modify_obs`: the identity, or SwingUp's `obs[perm_ix]`.
  - `modify_action`: the identity, CarRacing's affine rescale, or `np.argmax`.
  - `modify_reward`: the identity.
  - the decision that `modify_done` makes, as a function of the counters.
- `env.dfy` (module `Env`) replaces the simulator with a scripted environment.
  The k-th `env.step` call after `reset` returns the k-th scripted outcome
  `(obs, reward, done, info['ale.lives'])`. A ghost log records every action sent.
- `rollout_spec.dfy` (module `RolloutSpec`) describes the rollout as pure functions:
  - `Start` is the state when the loop is entered.
  - `LoopStep` is one iteration.
  - `Run`/`Steps` repeat iterations until the modified done flag is true.
  - `Episode`/`Trace` are that run for a whole rollout.
- `rollout_lemmas.dfy` (module `RolloutLemmas`) proves what the loop promises about that description.
- `tasks.dfy` (module `Tasks`) holds the imperative side, the class `Task`:
  - fields `stepCnt`, `evalMode`, `negRewardCnt` and `permIx`, plus the environment it owns;
  - one constructor per variant;
  - `ResetForRollout`, with `Shuffle` (Fisher–Yates) for `perm_ix`;
  - the stateful `ModifyDone`;
  - `Rollout`, written as `Begin` plus a while loop over `Iterate`.
  `Rollout` is proved to return exactly what `Episode` computes, and to leave
  `step_cnt`, the counter and the environment's action log as `Episode` says.
- `scenarios.dfy` (module `Scenarios`) works four small concrete episodes through the functional description, and runs two of them through the `Task` class built by its constructors.

Rewards, observations and action vectors are `real`. The lives count is `int`.
The solver is a function of the observations it has been shown since
`solution.reset()`. A stateful policy is therefore covered too.

The Coinrun step cap is checked before the count moves. `modify_done` reads
`step_cnt` before the loop increments it (rl_tasks.py lines 70-71 and 168).
So the cap first holds on iteration `max_steps + 1`. That iteration sends the
hard stop and ends the rollout. `EpisodeStepCap`, `EpisodeHardStop` and
`CoinrunCapScenario` state this behaviour.

## Model

| member | source | states |
|---|---|---|
| Hooks.Argmax | AttentionAgent/tasks/rl_tasks.py:161-162 | `np.argmax`: the index is in range, its element is at least every element, and every earlier element is strictly smaller (so it is the first maximum) |
| Hooks.ModifyAction | AttentionAgent/tasks/rl_tasks.py:31-32 | default identity for SwingUp; the argmax variants (Coinrun, Breakout, VisualCartpole) send the first maximal score's index; CarRacing sends exactly `RescaleAction` of the solver's vector (the overrides at lines 127-129, 161-162, 182-183 and 197-198) |
| Hooks.RescaleAction | AttentionAgent/tasks/rl_tasks.py:127-129 | the code's `act*(high-low)/2 + (high+low)/2`, with one-element broadcasting, equals `low + (act+1)/2*(high-low)` per dimension |
| Hooks.RescaleEndpoints | AttentionAgent/tasks/rl_tasks.py:123-129 | `[-1,-1,-1]` maps to `_action_low`, `[1,1,1]` to `_action_high`, `[0,0,0]` to the midpoint |
| Hooks.RescaleWithinBounds | AttentionAgent/tasks/rl_tasks.py:123-129 | a normalised action in [-1, 1] is sent within `[low, high]` in every dimension |
| Hooks.Permute | AttentionAgent/tasks/rl_tasks.py:110-111 | `obs[perm_ix]` has one entry per index and entry i is `obs[perm_ix[i]]` |
| Hooks.ModifyObs | AttentionAgent/tasks/rl_tasks.py:28-29 | identity for every variant but SwingUp, whose override (lines 110-111) gives `obs[perm_ix[i]]` at each i |
| Hooks.PermuteByRange | AttentionAgent/tasks/rl_tasks.py:103-104 | with the unshuffled `np.arange(n)`, SwingUp's `modify_obs(obs) == obs` |
| Hooks.PermutationFits | AttentionAgent/tasks/rl_tasks.py:103-105 | a permutation of the observation dimension indexes the observation validly and takes every index 0..n-1 (by a pigeonhole proof) |
| Hooks.ModifyReward | AttentionAgent/tasks/rl_tasks.py:34-35 | no variant overrides `modify_reward`, so the reward passes unchanged |
| Hooks.ModifyDone | AttentionAgent/tasks/rl_tasks.py:135-171 | never turns a true `done` false; in evaluation mode, and for variants without an override, returns `done` and leaves the counter; hard stop exactly for non-evaluation Coinrun with `0 < max_steps <= step_cnt`, and there the result is `done or 0 < max_steps <= step_cnt` with the counter unchanged; CarRacing counter increments on reward < 0 and resets on reward >= 0, and the result is `done or 0 < cap < cnt or 0 < max_steps <= step_cnt` |
| Hooks.Range | AttentionAgent/tasks/rl_tasks.py:98 | `np.arange(n)` lists 0..n-1 in order and is a permutation of them |
| RolloutSpec.Run | AttentionAgent/tasks/rl_tasks.py:64-78 | the `while not done` loop: ends in a done state, returns a done state unchanged, advances `step_cnt` when it runs, and only extends the solver's history |
| RolloutSpec.Steps | AttentionAgent/tasks/rl_tasks.py:64-78 | the states after each iteration: none exactly when already done, and the i-th has `step_cnt` advanced by i + 1 |
| RolloutSpec.Episode | AttentionAgent/tasks/rl_tasks.py:47-85 | the state `rollout` returns from: done, after at least one iteration |
| RolloutSpec.Trace | AttentionAgent/tasks/rl_tasks.py:47-85 | a rollout's iterations: at least one, the i-th leaving `step_cnt` at i + 1 |
| RolloutSpec.Start | AttentionAgent/tasks/rl_tasks.py:48-62 | the loop starts not done with zero counters and reward; Breakout has sent exactly one `step(1)` and tracks 5 lives, the others have sent nothing |
| RolloutSpec.LoopStep | AttentionAgent/tasks/rl_tasks.py:64-78 | one iteration increments `step_cnt`, adds its modified reward to `ep_reward`, makes at least one `env.step` call, and ends the episode once the script is used up |
| RolloutLemmas.RunStops | AttentionAgent/tasks/rl_tasks.py:64-70 | the loop ends in a done state, runs no iteration if already done, and no state before the last is done (stops at the first modified done, not before) |
| RolloutLemmas.RunCounts | AttentionAgent/tasks/rl_tasks.py:71 | `step_cnt` grows by exactly the number of iterations |
| RolloutLemmas.RunSums | AttentionAgent/tasks/rl_tasks.py:72 | `ep_reward` grows by the sum of the iterations' modified rewards |
| RolloutLemmas.EpisodeAccounting | AttentionAgent/tasks/rl_tasks.py:57-85 | a rollout takes at least one iteration, returns the sum of the modified rewards, ends with `step_cnt` equal to the number of iterations, and stops at the first modified done |
| RolloutLemmas.FirstStepDone | AttentionAgent/tasks/rl_tasks.py:64-72 | for every variant but Breakout, an environment done at its first step gives exactly one iteration and returns that step's reward |
| RolloutLemmas.EvalModeIsNative | AttentionAgent/tasks/rl_tasks.py:136-137 | in evaluation mode each iteration's done flag is the environment's, the counter is untouched, and outside Breakout the action is the only `env.step` call |
| RolloutLemmas.StepsBounded | AttentionAgent/tasks/rl_tasks.py:143 | under a positive step cap, a run from a state at or past the cap makes at most one iteration, otherwise at most `cap - step_cnt + 1` |
| RolloutLemmas.EpisodeStepCap | AttentionAgent/tasks/rl_tasks.py:67-71 | a non-evaluation CarRacing or Coinrun rollout makes at most `max_steps + 1` iterations |
| RolloutLemmas.HardStopCount | AttentionAgent/tasks/rl_tasks.py:168-169 | along a Coinrun run that starts at or below the cap, the number of `step(-1)` calls grows by one exactly when the run ends with `step_cnt` at `max_steps + 1`, and is unchanged otherwise |
| RolloutLemmas.EpisodeHardStop | AttentionAgent/tasks/rl_tasks.py:164-171 | a non-evaluation Coinrun rollout sends `step(-1)` once if it ends at iteration `max_steps + 1`, and never otherwise (so at most once) |
| RolloutLemmas.BreakoutLifeLoss | AttentionAgent/tasks/rl_tasks.py:74-78 | after a Breakout step two `step(1)` presses are logged exactly when the tracked lives exceed the reported ones, the tracked count becomes the reported one, and done is the environment's own |
| RolloutLemmas.LivesNeverIncrease | AttentionAgent/tasks/rl_tasks.py:75-78 | the tracked lives count never increases along the run |
| RolloutLemmas.BreakoutPriming | AttentionAgent/tasks/rl_tasks.py:60-62 | the first action a Breakout rollout sends is the single priming `step(1)`, with 5 lives tracked and never exceeded |
| RolloutLemmas.StreakStep | AttentionAgent/tasks/rl_tasks.py:138-142 | one CarRacing iteration extends the streak count by its reward, and a count above a positive cap ends the episode |
| RolloutLemmas.NegativeStreak | AttentionAgent/tasks/rl_tasks.py:138-144 | after each CarRacing iteration the counter equals the number of trailing negative rewards, and exceeding a positive cap means done |
| RolloutLemmas.EpisodeNegativeStreak | AttentionAgent/tasks/rl_tasks.py:131-144 | over a whole CarRacing rollout from a reset counter: the counter is the trailing negative streak, and the episode is done at the iteration where the streak exceeds a positive cap |
| Tasks.Shuffle | AttentionAgent/tasks/rl_tasks.py:105 | `np.random.shuffle` keeps the multiset of the array and keeps a permutation a permutation |
| Tasks.Task.ResetForRollout | AttentionAgent/tasks/rl_tasks.py:102-108 | every variant sets `step_cnt` to 0; CarRacing zeroes the counter; SwingUp's `perm_ix` is a permutation of 0..n-1, the identity when `shuffle_on_reset` is false; nothing else changes |
| Tasks.Task.ModifyDone | AttentionAgent/tasks/rl_tasks.py:164-171 | the returned flag, the new counter, and exactly one `env.step(-1)` when the Coinrun cap holds, as `Hooks.ModifyDone` decides |
| Tasks.Task.Begin | AttentionAgent/tasks/rl_tasks.py:48-62 | sets the evaluation flag, resets, and leaves the loop state equal to `RolloutSpec.Start` |
| Tasks.Task.Iterate | AttentionAgent/tasks/rl_tasks.py:65-78 | one loop body changes the task's and the environment's state exactly as `RolloutSpec.LoopStep` does |
| Tasks.Task.Rollout | AttentionAgent/tasks/rl_tasks.py:47-85 | the returned reward, final `step_cnt`, counter, call count and full action log are those of `RolloutSpec.Episode`; evaluation flag set (defaulting to false); `perm_ix` as `ResetForRollout` leaves it |
| Tasks.Task.CartPoleSwingUpTask | AttentionAgent/tasks/rl_tasks.py:92-98 | `perm_ix` starts as `np.arange(n)`, `shuffle_on_reset` defaults to false, `step_cnt` 0, not in evaluation mode; the caps it has no use for are 0 |
| Tasks.Task.CarRacingTask | AttentionAgent/tasks/rl_tasks.py:118-125 | step cap fixed at 1000; negative-reward cap `out_of_track_cap`, default 20; counter 0; empty `perm_ix`, no shuffling |
| Tasks.Task.CoinrunTask | AttentionAgent/tasks/rl_tasks.py:150-152 | step cap `max_steps`, default 5000; negative-reward cap and counter 0; empty `perm_ix`, no shuffling |
| Tasks.Task.BreakoutTask | AttentionAgent/tasks/rl_tasks.py:177-180 | a Breakout task over the given environment: both caps 0, counter 0, empty `perm_ix`, no shuffling, `step_cnt` 0 |
| Tasks.Task.VisualCartpoleTask | AttentionAgent/tasks/rl_tasks.py:192-195 | a visual CartPole task over the given environment: both caps 0, counter 0, empty `perm_ix`, no shuffling, `step_cnt` 0 |
| Scenarios.CoinrunCapScenario | AttentionAgent/tasks/rl_tasks.py:164-171 | with cap 2 and an environment that never ends, the rollout runs 3 iterations and its last action is the hard stop |
| Scenarios.CoinrunEvalScenario | AttentionAgent/tasks/rl_tasks.py:165-166 | the same cap in evaluation mode stops nothing: the rollout runs to the environment's done and sends no hard stop |
| Scenarios.CarRacingStreakScenario | AttentionAgent/tasks/rl_tasks.py:138-144 | with cap 2, the third consecutive negative reward ends the episode |
| Scenarios.BreakoutLivesScenario | AttentionAgent/tasks/rl_tasks.py:60-78 | lives reported 5, 5, 4, 4: one priming press, exactly one double press after the drop, and the episode ends only on the environment's done |
| Scenarios.CoinrunCapRollout | AttentionAgent/tasks/rl_tasks.py:150-171 | a `CoinrunTask` with `max_steps` 2 over a never-ending script: `rollout` returns 3.0 after 3 iterations and 4 `env.step` calls (the last the hard stop) |
| Scenarios.BreakoutLivesRollout | AttentionAgent/tasks/rl_tasks.py:47-85 | a `BreakoutTask` over the lives 5, 5, 4, 4 script: `rollout` returns 2.0 after 4 iterations and 7 `env.step` calls |

## Left out

- The simulators are replaced by a scripted environment: `CartPoleSwingUpHarderEnv`, `gym.make` for CarRacing, procgen Coinrun, Atari Breakout and CartPole. They are foreign libraries.
- The scripted environment runs out of script. After the last scripted outcome every `env.step` returns a terminal outcome (reset observation, reward 0, done, lives 0). This keeps every modelled episode finite. For Breakout the reported 0 lives is below any tracked count above 0, so an episode that uses up its script logs two extra `step(1)` presses on that last iteration, as the source would for a real drop to 0 lives. A simulator that never reports done, where the source loops forever, is not modelled.
- The scripted environment ignores the action it is sent: its answer depends only on how many `env.step` calls came before, so closed-loop dynamics are not modelled. The actions are still recorded in order in the log. The per-rollout properties hold for every script, so they cover every answer the simulator could give.
- The scripted environment replays its script from the start on every `reset`, so successive rollouts of one task see the same outcomes. Per-episode randomness of the simulator is not modelled.
- The `gin.configurable` wiring is not modelled. Neither are the `render` and `verbose` flags.
- Nothing visual is modelled: `show_gui`, `env.render('human')` in the swing-up constructor, and the `env.render('rgb_array')` frame that VisualCartpole's `modify_obs` returns. In the model VisualCartpole passes the observation through unchanged. The solver is arbitrary, so a policy reading the frame is still covered as one reading the state.
- Wall-clock timing and the verbose `print` lines of `rollout` and SwingUp's `reset_for_rollout` are left out. They are diagnostic output only.
- `seed` and `close` are left out. They forward to the environment, and Coinrun's `seed` only assigns an attribute.
- `solution.reset()` is modelled as the solver's history starting empty. The solver's own internals are not modelled.
- Errors are not modelled as results. A solver vector that numpy would reject is excluded by the precondition `SolverFits`: an empty vector for `np.argmax`, or neither 1 nor 3 components for CarRacing. In the source it raises and aborts the rollout.
- Hooks.RescaleAction: computes in exact real arithmetic, not float64, so rounding is not modelled.
- Hooks.Argmax: works on reals, so numpy's NaN handling (the first NaN wins) is not modelled.
- Tasks.Shuffle: the generator's draws are an abstract function `rand`. Which bounded-integer method numpy uses to draw in 0..i is not modelled. Only the result is stated: the permutation property and the preserved multiset, not a distribution.
- Tasks.Task.Rollout: in the source, `lives` exists only for Breakout. For the other variants the model keeps it at 0, and it is never read there.
