# PufferLib trainer bookkeeping, modelled in Dafny

This project models the bookkeeping core of PufferLib's `clean_pufferl.py` trainer. It covers everything around the PPO update, but not the update itself:

- **Experience-buffer fill** (`evaluate`). Each loop iteration receives one batch of environment results from the round-robin buffer `buf`. It masks the batch by liveness and by policy-pool membership. Each selected agent is copied into the next of `batch_size + 1` slots, and the key `(buf, idx, step)` is appended to `sort_keys`. Rewards and dones are written only when the done vector is non-empty. The pass stops when the slots are full.
- **Trajectory reordering and minibatch layout** (`train`). `sorted(range(n), key=sort_keys.__getitem__)` is a stable argsort by the key tuples. The sorted indices, minus the last one, are reshaped to `(batch_rows, num_minibatches, bptt_horizon)` and transposed.
- **Generalized advantage estimation.** A backward recursion over the sorted order. The slot after each position supplies reward, done flag and bootstrap value.
- **Progress counters and checkpoints.**
  - `total_updates = total_timesteps // batch_size`, and `done_training`.
  - The `RuntimeError` once training is done, and the update count.
  - The checkpoint cadence `update % checkpoint_interval == 0 or done`.
  - `save_checkpoint`: model file `model_{update:06d}.pt`. It is idempotent, and the trainer record is written to a temporary file and then renamed.
  - The resume block at start-up.
- **Nested info flattening.** `unroll_nested_dict` joins nested keys with `/`. Its consumer files every flattened pair under `infos`, and every pair whose name passes the `Task_eval_fn` test and whose value converts to a float under `stats`.

Modules (one file each): `Wrappers` (Option/Result), `Arith` (multiplication and division facts), `SortKeys`, `Experience`, `Minibatch`, `Advantage`, `Checkpoint`, `Trainer`, `Infos`.

The environment and the policy are inputs to the model:

- Each `evaluate` iteration's `recv()` results, together with the policy's actions, log-probabilities and values, are one `EnvStep`.
- The policy-pool mask is a constant `seq<bool>` for the pass.
- The run directory is a map from file name to contents. Saved models and optimizer states are opaque sequences.
- The parameters and optimizer state that the PPO update produces are parameters of `Train`.
- Python's string-to-float parser is the function parameter `parseText`.

Notes on the code:

- The advantage recursion runs over the sorted order (`idxs[t]`, `idxs[t + 1]`): the slot after a position is the next slot in sort order.
- A resume failure raises. It does not fall back to a cold start.
- `step` counts loop iterations of one `evaluate` call, starting at 1. It also advances on iterations that select no agent, so one agent's steps within a batch can have gaps.

## Model

| member | source | states |
|---|---|---|
| SortKeys.ArgSort | clean_pufferl.py:345 | the result is a permutation of `0..n-1` ordered by key and, among equal keys, by index (a stable sort) |
| SortKeys.ArgSortIsPermutation | clean_pufferl.py:345 | every slot index occurs exactly once in the sorted order |
| SortKeys.SortedUnique | clean_pufferl.py:345 | any two arrangements of the same indices sorted by the same keys are equal, so the sorted order is fully determined |
| SortKeys.SortedRuns | clean_pufferl.py:345 | with distinct keys, the sorted keys strictly increase, and the keys of one `(buf, idx)` agent form one contiguous run in increasing step order |
| Experience.LearnerMask | clean_pufferl.py:266 | the mask has one entry per agent; that an agent is selected exactly when it is alive and belongs to the learner policy is its definition |
| Experience.Where | clean_pufferl.py:268 | `np.where(mask)[0]`: exactly the set positions, in increasing order |
| Experience.BufAt | clean_pufferl.py:298 | after `k` iterations the cursor is `(start + k) % num_buffers`, always a valid buffer |
| Experience.RoundRobinStep | clean_pufferl.py:298 | advancing the cursor with `(buf + 1) % num_buffers` moves one step along the round-robin sequence |
| Experience.KeysUpToOrigin | clean_pufferl.py:268-275 | every key appended in the first `n` iterations names the buffer of its iteration, an agent selected in it and that iteration's step |
| Experience.KeysUpToComplete | clean_pufferl.py:268-275 | conversely, every selected agent of every iteration up to `n` has its key appended |
| Experience.KeysUpToOrdered | clean_pufferl.py:238-275 | keys are appended in write order: earlier iteration first, then increasing agent index |
| Experience.KeysDistinctAndOrdered | clean_pufferl.py:275 | no key is appended twice within one pass |
| Experience.KeysUpToPrefix | clean_pufferl.py:268-275 | the keys of fewer iterations are a prefix of the keys of more iterations |
| Experience.CopySelected | clean_pufferl.py:268-279 | one iteration copies its selected agents into consecutive slots until the buffer is full, keeping the previous reward and done when the done vector is empty, and appends their keys |
| Experience.Written | clean_pufferl.py:271-278 | definition of one slot copy (observation, value, action and log-probability always, reward and done only when the done vector is non-empty); its meaning is stated by `WrittenPreviousIrrelevant`, `WrittenIdempotent` and `Fill` |
| Experience.WrittenPreviousIrrelevant | clean_pufferl.py:271-278 | two previous slot contents give the same copied slot exactly when the done vector is non-empty or they agree on reward and done |
| Experience.WrittenIdempotent | clean_pufferl.py:271-278 | copying the same agent of the same iteration again leaves the slot as the first copy did |
| Experience.Fill | clean_pufferl.py:234-298 | the pass stops at the first iteration that fills all `batch_size + 1` slots. The keys are the first `batch_size + 1` selected agents in write order, every filled slot holds its key's data, the unfilled slots are untouched, and the cursor has advanced once per completed iteration |
| Minibatch.NumMinibatches | clean_pufferl.py:344 | `batch_size // bptt_horizon // batch_rows` is the largest count of whole `rows x horizon` minibatches within the batch |
| Minibatch.Reshape | clean_pufferl.py:347-352 | the reshape-then-transpose grid has dimensions `nm x rows x horizon` |
| Minibatch.ReshapeAt | clean_pufferl.py:350-351 | cell `[mb][row][h]` holds flat position `(row * nm + mb) * horizon + h` |
| Minibatch.ReshapeBijective | clean_pufferl.py:350-351 | every flat position lands in exactly one cell |
| Minibatch.ReshapeRowsContiguous | clean_pufferl.py:350-351 | each row of a minibatch is one contiguous run of `horizon` sorted positions |
| Minibatch.Layout | clean_pufferl.py:347-352 | the reshape succeeds exactly when all but the last index fill the grid exactly, and otherwise reports the mismatch |
| Minibatch.LayoutOmitsOnlyLast | clean_pufferl.py:349-351 | the grid holds every sorted index except the last one, which appears in no cell |
| Minibatch.Spacing | clean_pufferl.py:348 | the gap between neighbouring float32 values near `n`, found by doubling: `n` lies below `2^24` times the gap, and below half the gap it would not, unless the gap is the starting one |
| Minibatch.Float32 | clean_pufferl.py:348 | `torch.Tensor` of an index: exact up to `2^24`, and never more than half a gap from the index |
| Minibatch.LayoutAsWritten | clean_pufferl.py:347-352 | the index grid built through the float32 tensor has a shape error exactly when the exact layout does |
| Minibatch.LayoutAsWrittenAgreesBelow | clean_pufferl.py:347-352 | while every index is at most `2^24`, the float32 detour gives the exact grid |
| Minibatch.Float32Skips | clean_pufferl.py:348 | no index converts to `2^24 + 1` |
| Minibatch.LayoutAsWrittenMisplaces | clean_pufferl.py:347-352 | with more than `2^24` slots, the cell meant for slot `2^24 + 1` holds `2^24` as written, and slot `2^24 + 1` is in no cell |
| Advantage.Advantages | clean_pufferl.py:355-369 | the backward loop carrying `lastgaelam` gives, at every position, the advantage of the GAE recursion |
| Advantage.LastStepIsTdError | clean_pufferl.py:358-369 | the last position's advantage is its one-step TD error |
| Advantage.DoneCutsBootstrap | clean_pufferl.py:360-369 | when the next slot is done, the advantage is that slot's reward minus the current value, with no bootstrap and no carried advantage |
| Advantage.ZeroLambdaIsTdError | clean_pufferl.py:360-369 | with `gae_lambda = 0` every advantage is the one-step TD error |
| Advantage.UnitLambdaReturnsAreDiscounted | clean_pufferl.py:355-380 | with `gae_lambda = 1`, advantage plus value (the return target) is the done-masked discounted return bootstrapped from the last slot |
| Advantage.FourStepEpisodeEnd | clean_pufferl.py:355-369 | a four-step episode ending in a done has the advantages obtained by unrolling the recursion by hand |
| Checkpoint.ModelName | clean_pufferl.py:515 | a model file name is `model_`, at least six decimal digits, then `.pt` |
| Checkpoint.Decimal | clean_pufferl.py:515 | decimal rendering yields digits only, with no leading zero |
| Checkpoint.DecimalRoundTrip | clean_pufferl.py:515 | reading the rendered digits back gives the number |
| Checkpoint.ModelNameRoundTrip | clean_pufferl.py:515 | the zero-padded model file name parses back to its update index |
| Checkpoint.ModelNameInjective | clean_pufferl.py:515 | two updates never share a model file name |
| Checkpoint.TrainerRecord | clean_pufferl.py:524-530 | definition of the record `save_checkpoint` writes; its meaning is stated by `TrainerRecordRestores`, `ResumeAfterSave` and `ResumeAsWrittenRejectsOwnCheckpoint` |
| Checkpoint.TrainerRecordRestores | clean_pufferl.py:524-530 | a trainer record beside the model file it names is read back as the state it was written from, with the agent step equal to the global step |
| Checkpoint.Rename | clean_pufferl.py:533 | the renamed file's contents move to the new name, the old name disappears and all other files stay |
| Checkpoint.Save | clean_pufferl.py:510-535 | a save creates the directory. If the model file exists, nothing changes. Otherwise the model file and the trainer record are written, and no temporary file remains. Every other file is kept |
| Checkpoint.SaveIdempotent | clean_pufferl.py:518-520 | a second save for the same update returns the same path and changes nothing, whatever it is given |
| Checkpoint.Resume | clean_pufferl.py:123-135 | a missing directory is a cold start with zero counters, and a directory without a trainer record fails. A successful resume from a present directory returns the parameters of the model file the record names, the record's optimizer state and update, and each step counter from the record or 0 when absent |
| Checkpoint.ResumeAfterSave | clean_pufferl.py:123-135 | resuming from what a save wrote restores the saved parameters, optimizer state, update and global step, with agent step equal to global step |
| Checkpoint.ResumeAsWritten | clean_pufferl.py:131-132 | the resume block as written, including the status message's extra key lookup |
| Checkpoint.ResumeAsWrittenRejectsOwnCheckpoint | clean_pufferl.py:131-132 | as written, resuming from any checkpoint the save itself wrote fails on the missing `policy_checkpoint_name` key |
| Trainer.TotalUpdates | clean_pufferl.py:93 | the update budget is the number of whole batches within the timestep budget |
| Trainer.DoneTraining | clean_pufferl.py:507-508 | `done_training`: the update counter has reached `total_updates` |
| Trainer.DoneIffBudgetSpent | clean_pufferl.py:507-508 | training is done exactly when one more batch would exceed the timestep budget |
| Trainer.CheckpointDue | clean_pufferl.py:492 | a checkpoint is due after an update whose index is a multiple of `checkpoint_interval`, or once training is done |
| Trainer.Init | clean_pufferl.py:123-135 | built on the corrected resume (see Findings): start-up succeeds exactly for a usable configuration and a resumable directory. It starts with empty keys at buffer 0 and, from a missing directory, with zero counters and the fresh policy |
| Trainer.InitAfterSaveResumes | clean_pufferl.py:123-135 | with the corrected resume (see Findings), starting from a just-saved directory continues at the saved update and global step with the saved parameters |
| Trainer.Evaluate | clean_pufferl.py:234-301 | an evaluate pass changes only the buffer, keys, cursor and global step. The global step grows by one batch exactly when the batch filled. The pass stops at the first iteration that fills the batch, with the keys, slots and cursor as `Fill` states |
| Trainer.Train | clean_pufferl.py:328-492 | `train` raises and changes nothing once done. Otherwise it clears the keys; on success it counts exactly one update, never past the budget, and saves exactly when a checkpoint is due. On an error it counts nothing |
| Trainer.Advance | clean_pufferl.py:465-492 | a successful update counts one more update, never past the budget, and keeps the learned parameters. It changes nothing else except the run directory, which gains a checkpoint exactly when one is due |
| Trainer.TrainSucceedsIff | clean_pufferl.py:330-358 | `train` gets through its bookkeeping exactly when not done, with `batch_size + 1` keys and a batch that splits into whole minibatches |
| Trainer.TrainBatchAligned | clean_pufferl.py:347-380 | when the batch fills whole minibatches, `train` succeeds and each minibatch cell holds a sorted index, the advantage for that same sorted position, and a return equal to that advantage plus the stored value of the slot it names |
| Trainer.RunCountsUpdates | clean_pufferl.py:465 | across any run of train calls the counter grows by one per successful update and never passes the budget |
| Trainer.TrainKeepsCheckpoints | clean_pufferl.py:492 | one update never loses a model file, and one that reaches a multiple of the interval or the final update leaves its model file |
| Trainer.RunKeepsCheckpoints | clean_pufferl.py:492 | a run leaves a model file for every multiple of the interval and for the final update it passes, and loses none |
| Trainer.LatestCheckpointWithinInterval | clean_pufferl.py:492 | after any run, the model file of the last multiple of the interval passed is present, so at most `checkpoint_interval - 1` updates are unsaved |
| Infos.Unroll | clean_pufferl.py:544-553 | a non-dictionary yields nothing (the generator returns at once), and so does an empty dictionary; what a dictionary yields is stated by `UnrollSound`, `UnrollComplete` and `UnrollFlat` |
| Infos.UnrollComplete | clean_pufferl.py:544-553 | every key path that ends in a leaf appears in the flattening under its slash-joined name |
| Infos.UnrollSound | clean_pufferl.py:544-553 | every flattened pair is a leaf reached by a key path that joins to its name |
| Infos.UnrollFlat | clean_pufferl.py:548-553 | a dictionary without nested dictionaries yields exactly its items in order |
| Infos.UnrollLength | clean_pufferl.py:544-553 | the flattening yields exactly one pair per non-dictionary value below the top level, counted independently |
| Infos.CollidingNamesKept | clean_pufferl.py:548-553 | `{"a/b": 1, "a": {"b": 2}}` yields `a/b` twice, both pairs kept in dictionary order |
| Infos.EmptyAgentYieldsNothing | clean_pufferl.py:283-284 | skipping an empty agent info loses nothing, since it would yield no pairs |
| Infos.NumericMembers | clean_pufferl.py:287-294 | a statistic is filed exactly for a record whose name lacks `Task_eval_fn` and whose value converts to that float |
| Infos.NumericAppend | clean_pufferl.py:281-294 | filing two runs of records one after the other gives the stats of each, concatenated |
| Infos.HasSubstringIff | clean_pufferl.py:287 | the `'Task_eval_fn' in name` test holds exactly when the pattern occurs at some position of the name |
| Infos.ToFloat | clean_pufferl.py:291 | definition of `float()` on an info value; its meaning is stated by `NumericMembers` and `FlagConvertsAsInteger` |
| Infos.FlagConvertsAsInteger | clean_pufferl.py:291 | a boolean converts like the integer it equals |
| Infos.File | clean_pufferl.py:286-294 | one pair always goes to `infos`, and to `stats` exactly when its name passes the test and it converts |
| Infos.CollectAgent | clean_pufferl.py:283-294 | one agent's pairs are filed in yield order |
| Infos.CollectPolicy | clean_pufferl.py:282-294 | one policy's agents are filed in order |
| Infos.Collect | clean_pufferl.py:281-294 | `infos` holds every flattened pair of every policy and agent in order, and `stats` is exactly its converted, unskipped subsequence |

## Left out

- The PPO update itself (losses, clipping, optimizer steps, target-KL early stop), explained variance and learning-rate annealing. They are floating-point numerics over neural-network outputs. The update's result enters `Train` as parameters.
- Environment `recv`/`send`, `policy_pool.forwards`, `update_scores`, `update_ranks` and `update_policies`. These are calls into code outside this file, and their results are inputs.
- LSTM state threading, profilers, charts, performance counters, the dashboard, wandb logging and `close`. These are I/O or logging only.
- Real tensors and float32 arithmetic. Observations and actions are opaque sequences, and rewards, values and advantages are exact reals.
- Experience.Fill: every iteration's vectors have one entry per pool position (and rewards whenever dones are present). A mismatched `recv()` result raises `IndexError` or a broadcast error in the source at lines 266-278; that path is not modelled.
- Experience.Fill: the source blocks in `recv()` until the batch fills. The model consumes a finite list of iterations and reports a pass that ran out of iterations before filling.
- Trainer.Init: start-up uses the corrected resume of the Findings table. As written, start-up from any directory `save_checkpoint` wrote raises `KeyError` at line 132, and only a missing directory starts.
- Trainer.Train: the error path keeps the optimizer state unchanged, which models `anneal_lr = False`. With annealing, lines 339-342 set the learning rate before the reshape at lines 347-352 can raise.
- Checkpoint.Resume: a step counter or `update` stored with a non-integer value is a `WrongKind` error. Python's `.get("global_step", 0)` at lines 133-135 accepts any value there.
- Trainer.Init: a zero batch size, horizon, row count, buffer count or checkpoint interval raises in the source at its first use (division, indexing or modulo). The model rejects the configuration at start-up instead.
- Minibatch.Layout: the indices are exact naturals, the corrected form of the Findings table. As written they pass through a float32 tensor and are exact only up to `2^24`; `LayoutAsWritten` models that form.
- Trainer.TrainBatchAligned: the index grid is the exact `Layout`. As written, with more than `2^24` slots, `b_values` and `b_returns` read rounded slot indices while the advantages use the exact ones.
- Minibatch.Float32: the float32 range ends near `2^128`; overflow to infinity is not modelled, since slot indices never get near it.
- Trainer.RunCountsUpdates: between `train` calls the run replaces only the sort keys. Buffer contents from intervening `evaluate` passes do not affect the counters or checkpoints it states.
- Infos.Unroll: info keys are strings. The source formats any key with `f"{k}/{k2}"`, but a non-string top-level key makes the `'Task_eval_fn' in name` test raise `TypeError` outside the `try`, which aborts `evaluate`. That path is not modelled.
- Infos.Collect: the nested `defaultdict(list)` results are represented by their append logs. The per-name lists are the log filtered by policy and name.
- Infos.ToFloat: `float()` of a string is the `parseText` parameter. `OverflowError` on huge integers is not modelled.
- The policy pool's own checkpoint files and the `data_dir` layout outside the run directory are not part of this model.

## Findings

| source | as written | input that shows it | evidently intended | confidence | as-written member | corrected member |
|---|---|---|---|---|---|---|
| clean_pufferl.py:131-132 | the resume message reads `resume_state["policy_checkpoint_name"]`, but `save_checkpoint` (lines 524-530) writes only `optimizer_state_dict`, `global_step`, `agent_step`, `update` and `model_name` | any run directory written by `save_checkpoint`, for example after one update with `checkpoint_interval = 1` | report the loaded `model_name` and resume normally | high; not executed | Checkpoint.ResumeAsWrittenRejectsOwnCheckpoint | Checkpoint.ResumeAfterSave, Trainer.Init, Trainer.InitAfterSaveResumes |
| clean_pufferl.py:347-352 | `b_idxs` is built with `torch.Tensor(idxs).long()`, a float32 tensor, so slot indices above `2^24` are rounded to even, while the advantage loop (lines 358-369) uses the exact `idxs` | a batch of more than `2^24` slots: the cell for sorted index `16777217` reads slot `16777216` for `b_obs`, `b_values` and `b_returns` | build `b_idxs` from an integer tensor, so each cell holds its exact sorted index | medium; not executed | Minibatch.LayoutAsWrittenMisplaces | Minibatch.LayoutOmitsOnlyLast |
