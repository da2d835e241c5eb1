/**
 * The trainer's progress bookkeeping: the configuration-derived update
 * budget, start-up (fresh or resumed), one `evaluate` pass over the
 * experience buffer, one `train` step up to the policy update itself, and
 * the checkpoint cadence across a run of updates.
 */
module Trainer {
  import opened Wrappers
  import opened Arith
  import opened SortKeys
  import opened Experience
  import opened Minibatch
  import opened Advantage
  import opened Checkpoint

  /** The configuration fields the bookkeeping reads. */
  datatype Config = Config(
    totalTimesteps: nat,
    batchSize: nat,
    bpttHorizon: nat,
    batchRows: nat,
    numBuffers: nat,
    checkpointInterval: nat,
    gamma: real,
    gaeLambda: real)

  /** Every divisor and the buffer count is positive; otherwise start-up or the first update raises. */
  predicate ValidConfig(c: Config) {
    c.batchSize > 0 && c.bpttHorizon > 0 && c.batchRows > 0 && c.numBuffers > 0 && c.checkpointInterval > 0
  }

  /** `total_timesteps // batch_size`: the number of whole batches the budget pays for. */
  function TotalUpdates(c: Config): (n: nat)
    requires c.batchSize > 0
    ensures n * c.batchSize <= c.totalTimesteps < (n + 1) * c.batchSize
  {
    var n := c.totalTimesteps / c.batchSize;
    assert c.totalTimesteps == n * c.batchSize + c.totalTimesteps % c.batchSize;
    n
  }

  /** The trainer's state between calls. */
  datatype State = State(
    config: Config,
    totalUpdates: nat,
    update: nat,
    globalStep: nat,
    sortKeys: seq<Key>,
    buf: nat,
    slots: seq<Slot>,
    params: Params,
    optimizer: OptimizerState,
    store: RunDir)

  predicate Valid(s: State) {
    && ValidConfig(s.config)
    && s.totalUpdates == TotalUpdates(s.config)
    && s.buf < s.config.numBuffers
    && |s.slots| == s.config.batchSize + 1
  }

  /** `done_training`. */
  predicate DoneTraining(s: State) {
    s.update >= s.totalUpdates
  }

  /** Training is done exactly when one more batch would exceed the timestep budget. */
  lemma DoneIffBudgetSpent(s: State)
    requires Valid(s)
    ensures DoneTraining(s) <==> (s.update + 1) * s.config.batchSize > s.config.totalTimesteps
  {
    var b, t := s.config.batchSize, s.config.totalTimesteps;
    if s.update < s.totalUpdates {
      MulMonoLe(s.update + 1, s.totalUpdates, b);
    } else {
      MulMonoLe(s.totalUpdates + 1, s.update + 1, b);
    }
  }

  /** A checkpoint follows an update whose index is a multiple of the interval, or the final one. */
  predicate CheckpointDue(s: State)
    requires Valid(s)
  {
    s.update % s.config.checkpointInterval == 0 || DoneTraining(s)
  }

  datatype InitError = InvalidConfig | ResumeFailed(reason: ResumeError)

  /** A zeroed buffer slot, as allocated by `torch.zeros`. */
  const EmptySlot: Slot := Slot([], [], 0.0, 0.0, 0.0, 0.0)

  /**
   * Start-up: counters, parameters and optimizer state come from the run
   * directory when it exists and are fresh otherwise; the buffers are
   * zeroed, the key list empty and the round-robin cursor at buffer 0.
   */
  function Init(c: Config, store: RunDir, params: Params, optimizer: OptimizerState): (r: Result<State, InitError>)
    ensures r.Ok? <==> ValidConfig(c) && Resume(store).Ok?
    ensures r.Ok? ==> Valid(r.value) && r.value.sortKeys == [] && r.value.buf == 0 && r.value.store == store
    ensures r.Ok? && store.Missing? ==>
      r.value.update == 0 && r.value.globalStep == 0 && r.value.params == params && r.value.optimizer == optimizer
  {
    if !ValidConfig(c) then Err(InvalidConfig)
    else match Resume(store)
      case Err(e) => Err(ResumeFailed(e))
      case Ok(resumed) =>
        Ok(State(c, TotalUpdates(c), resumed.update, resumed.globalStep, [], 0,
                 seq(c.batchSize + 1, _ => EmptySlot),
                 if resumed.params.Some? then resumed.params.value else params,
                 if resumed.optimizer.Some? then resumed.optimizer.value else optimizer,
                 store))
  }

  /**
   * Starting from a directory a save has just written continues the run at
   * the saved update and global step, with the saved parameters and
   * optimizer state.
   */
  lemma InitAfterSaveResumes(c: Config, dir: RunDir, update: nat, globalStep: nat, params: Params,
                             optimizer: OptimizerState, params0: Params, optimizer0: OptimizerState)
    requires ValidConfig(c) && !(dir.Dir? && ModelName(update) in dir.files)
    ensures var store := Save(dir, update, globalStep, params, optimizer).dir;
      var r := Init(c, store, params0, optimizer0);
      r.Ok? && r.value.update == update && r.value.globalStep == globalStep
      && r.value.params == params && r.value.optimizer == optimizer
  {
    ResumeAfterSave(dir, update, globalStep, params, optimizer);
  }

  /**
   * `evaluate`: fills the buffer from the per-iteration environment steps
   * and appends the sort keys; `filled` says whether the batch completed,
   * and only then is the global step advanced by one batch. When the steps
   * run out first, the state shows the partial pass.
   */
  method Evaluate(s: State, pool: seq<bool>, steps: seq<EnvStep>) returns (s': State, filled: bool)
    requires Valid(s) && Shaped(steps, pool)
    ensures Valid(s')
    ensures s'.config == s.config && s'.totalUpdates == s.totalUpdates && s'.update == s.update
    ensures s'.params == s.params && s'.optimizer == s.optimizer && s'.store == s.store
    ensures s'.globalStep == if filled then s.globalStep + s.config.batchSize else s.globalStep
    ensures exists n :: 0 <= n <= |steps| && EvaluatedFrom(s, pool, steps, n, s', filled)
  {
    var slots, keys, ptr, buf, iterations := Fill(s.config.batchSize, s.config.numBuffers, pool, steps,
                                                  s.buf, s.slots, s.sortKeys);
    filled := ptr == s.config.batchSize + 1;
    s' := s.(slots := slots, sortKeys := keys, buf := buf,
             globalStep := if filled then s.globalStep + s.config.batchSize else s.globalStep);
    assert EvaluatedFrom(s, pool, steps, iterations, s', filled);
  }

  /**
   * `s'` is `s` after `n` loop iterations of `evaluate`: the cursor moved on
   * `n` buffers, the new keys are the first `ptr` selected ones in write
   * order, each written slot comes from its key's environment step, the
   * rest are untouched, and the batch is full exactly when `ptr` reached
   * `batch_size + 1` -- the loop stops at the first iteration that gets
   * there, so `n - 1` iterations had selected fewer keys.
   */
  predicate EvaluatedFrom(s: State, pool: seq<bool>, steps: seq<EnvStep>, n: nat, s': State, filled: bool)
    requires Valid(s) && Shaped(steps, pool) && n <= |steps|
  {
    var all := KeysUpTo(steps, pool, s.buf, s.config.numBuffers, n);
    var ptr := Min(s.config.batchSize + 1, |all|);
    && s'.buf == BufAt(s.buf, s.config.numBuffers, n)
    && s'.sortKeys == s.sortKeys + all[..ptr]
    && (filled <==> ptr == s.config.batchSize + 1)
    && (!filled ==> n == |steps|)
    && (filled ==> 0 < n && |KeysUpTo(steps, pool, s.buf, s.config.numBuffers, n - 1)| < s.config.batchSize + 1)
    && |s'.slots| == |s.slots|
    && Filled(steps, pool, s'.sortKeys, |s.sortKeys|, s.slots, s'.slots, 0, ptr)
    && Untouched(s.slots, s'.slots, ptr)
  }

  datatype TrainError =
    | AlreadyDone(totalUpdates: nat)
    | BadLayout(layout: LayoutError)
    | IndexOutOfRange(keys: nat)

  /** The grids handed to the policy update, all indexed `[minibatch][row][horizon step]`. */
  datatype Batch = Batch(idxs: Grid<nat>, advantages: Grid<real>, returnTargets: Grid<real>)

  /** The state after `train` (including after it raised) and its batch or error. */
  datatype Step = Step(state: State, outcome: Result<Batch, TrainError>)

  /**
   * `train` up to the policy update, whose resulting parameters and
   * optimizer state are given as `learned` and `learnedOptimizer`. It raises
   * once training is done; otherwise it clears the sort keys, reshapes the
   * sorted indices, computes advantages over the sorted order and returns,
   * counts the update and saves a checkpoint when one is due.
   */
  function Train(s: State, learned: Params, learnedOptimizer: OptimizerState): (r: Step)
    requires Valid(s)
    ensures Valid(r.state) && r.state.config == s.config && r.state.totalUpdates == s.totalUpdates
    ensures r.state.globalStep == s.globalStep && r.state.buf == s.buf && r.state.slots == s.slots
    ensures DoneTraining(s) <==> r.outcome == Err(AlreadyDone(s.totalUpdates))
    ensures DoneTraining(s) ==> r.state == s
    ensures !DoneTraining(s) ==> r.state.sortKeys == []
    ensures r.outcome.Ok? ==> r.state.update == s.update + 1 <= s.totalUpdates
    ensures r.outcome.Ok? ==> |s.sortKeys| == s.config.batchSize + 1
    ensures r.outcome.Ok? ==> r.state.params == learned && r.state.optimizer == learnedOptimizer
    ensures r.outcome.Ok? ==> (r.state.store ==
      if CheckpointDue(r.state)
      then Save(s.store, r.state.update, s.globalStep, learned, learnedOptimizer).dir
      else s.store)
    ensures r.outcome.Err? ==> (r.state.update == s.update && r.state.store == s.store
      && r.state.params == s.params && r.state.optimizer == s.optimizer)
  {
    var c := s.config;
    if DoneTraining(s) then Step(s, Err(AlreadyDone(s.totalUpdates)))
    else
      var nm := NumMinibatches(c.batchSize, c.bpttHorizon, c.batchRows);
      var idxs := ArgSort(s.sortKeys);
      var cleared := s.(sortKeys := []);
      match Layout(idxs, c.batchRows, nm, c.bpttHorizon)
      case Err(e) => Step(cleared, Err(BadLayout(e)))
      case Ok(bIdxs) =>
        if |idxs| < c.batchSize + 1 then Step(cleared, Err(IndexOutOfRange(|idxs|)))
        else
          MulRotate(c.batchRows, nm, c.bpttHorizon);
          Step(Advance(cleared, learned, learnedOptimizer), Ok(BatchOf(s, idxs, nm, bIdxs)))
  }

  /** The advantage and return grids over the sorted order `idxs`, laid out like `bIdxs`. */
  function BatchOf(s: State, idxs: seq<nat>, nm: nat, bIdxs: Grid<nat>): Batch
    requires Valid(s) && |idxs| == s.config.batchSize + 1 && InRange(idxs, |idxs|)
    requires s.config.batchRows * nm * s.config.bpttHorizon == s.config.batchSize
  {
    var c := s.config;
    var flat := DropLast(idxs);
    var adv := seq(c.batchSize, t requires 0 <= t < c.batchSize =>
      AdvantageFrom(s.slots, idxs, c.gamma, c.gaeLambda, c.batchSize, t));
    var ret := seq(c.batchSize, t requires 0 <= t < c.batchSize => adv[t] + s.slots[flat[t]].value);
    Batch(bIdxs, Reshape(adv, c.batchRows, nm, c.bpttHorizon), Reshape(ret, c.batchRows, nm, c.bpttHorizon))
  }

  /**
   * The end of a successful `train`: the update is counted, the learned
   * parameters and optimizer state are kept, and a checkpoint is saved
   * exactly when one is due.
   */
  function Advance(s: State, learned: Params, learnedOptimizer: OptimizerState): (t: State)
    requires Valid(s) && !DoneTraining(s)
    ensures Valid(t) && t.update == s.update + 1 <= s.totalUpdates
    ensures t == s.(update := t.update, params := learned, optimizer := learnedOptimizer, store := t.store)
    ensures t.store == if CheckpointDue(t) then Save(s.store, t.update, s.globalStep, learned, learnedOptimizer).dir else s.store
  {
    var trained := s.(update := s.update + 1, params := learned, optimizer := learnedOptimizer);
    if CheckpointDue(trained)
    then trained.(store := Save(s.store, trained.update, s.globalStep, learned, learnedOptimizer).dir)
    else trained
  }


  /**
   * `train` gets past its own bookkeeping exactly when training is not done,
   * the evaluate pass left `batch_size + 1` sort keys and the batch splits
   * into whole minibatches of `batch_rows x bptt_horizon`.
   */
  lemma TrainSucceedsIff(s: State, learned: Params, learnedOptimizer: OptimizerState)
    requires Valid(s)
    ensures var c := s.config;
      Train(s, learned, learnedOptimizer).outcome.Ok? <==>
        && !DoneTraining(s)
        && |s.sortKeys| == c.batchSize + 1
        && NumMinibatches(c.batchSize, c.bpttHorizon, c.batchRows) * c.bpttHorizon * c.batchRows == c.batchSize
  {
    var c := s.config;
    var nm := NumMinibatches(c.batchSize, c.bpttHorizon, c.batchRows);
    MulRotate(c.batchRows, nm, c.bpttHorizon);
  }

  /**
   * When the bookkeeping conditions hold, `train` succeeds and the grids line
   * up: cell `[mb][row][h]` holds the sorted index at flat position
   * `(row * nm + mb) * horizon + h`, the advantage the recursion gives for
   * that same sorted position, and a return equal to that advantage plus the
   * value stored in the slot the cell names.
   */
  lemma TrainBatchAligned(s: State, learned: Params, learnedOptimizer: OptimizerState, mb: nat, row: nat, h: nat)
    requires Valid(s) && !DoneTraining(s) && |s.sortKeys| == s.config.batchSize + 1
    requires NumMinibatches(s.config.batchSize, s.config.bpttHorizon, s.config.batchRows)
      * s.config.bpttHorizon * s.config.batchRows == s.config.batchSize
    requires mb < NumMinibatches(s.config.batchSize, s.config.bpttHorizon, s.config.batchRows)
    requires row < s.config.batchRows && h < s.config.bpttHorizon
    ensures var c := s.config;
      var nm := NumMinibatches(c.batchSize, c.bpttHorizon, c.batchRows);
      var out := Train(s, learned, learnedOptimizer).outcome;
      var p := Position(mb, row, h, nm, c.bpttHorizon);
      var idxs := ArgSort(s.sortKeys);
      && out.Ok?
      && p < c.batchSize
      && Indexable(s.slots, idxs, c.batchSize)
      && out.value.idxs[mb][row][h] == idxs[p]
      && out.value.advantages[mb][row][h] == AdvantageFrom(s.slots, idxs, c.gamma, c.gaeLambda, c.batchSize, p)
      && out.value.returnTargets[mb][row][h] == out.value.advantages[mb][row][h] + s.slots[out.value.idxs[mb][row][h]].value
  {
    var c := s.config;
    var nm := NumMinibatches(c.batchSize, c.bpttHorizon, c.batchRows);
    var idxs := ArgSort(s.sortKeys);
    TrainSucceedsIff(s, learned, learnedOptimizer);
    assert c.batchRows * nm * c.bpttHorizon == c.batchSize;
    var flat := DropLast(idxs);
    var adv := seq(c.batchSize, t requires 0 <= t < c.batchSize =>
      AdvantageFrom(s.slots, idxs, c.gamma, c.gaeLambda, c.batchSize, t));
    var ret := seq(c.batchSize, t requires 0 <= t < c.batchSize => adv[t] + s.slots[flat[t]].value);
    ReshapeAt(flat, c.batchRows, nm, c.bpttHorizon, mb, row, h);
    ReshapeAt(adv, c.batchRows, nm, c.bpttHorizon, mb, row, h);
    ReshapeAt(ret, c.batchRows, nm, c.bpttHorizon, mb, row, h);
  }

  /** One round of a run: the sort keys an evaluate pass left and the policy update's result. */
  datatype Round = Round(keys: seq<Key>, learned: Params, learnedOptimizer: OptimizerState)

  /** The outcome of a run of rounds: the final state and how many updates succeeded. */
  datatype Run = Run(state: State, updates: nat)

  /** Repeated `train` calls, each after an evaluate pass that left `rounds[k].keys`. */
  function RunRounds(s: State, rounds: seq<Round>): (r: Run)
    requires Valid(s)
    ensures Valid(r.state)
    decreases |rounds|
  {
    if |rounds| == 0 then Run(s, 0)
    else
      var step := Train(s.(sortKeys := rounds[0].keys), rounds[0].learned, rounds[0].learnedOptimizer);
      var rest := RunRounds(step.state, rounds[1..]);
      Run(rest.state, rest.updates + if step.outcome.Ok? then 1 else 0)
  }

  /**
   * Across any run the update counter advances by one per successful
   * update, never passes the budget, and the configuration, budget and
   * global step stay as they were.
   */
  lemma {:induction false} RunCountsUpdates(s: State, rounds: seq<Round>)
    requires Valid(s) && s.update <= s.totalUpdates
    ensures var r := RunRounds(s, rounds);
      && r.state.update == s.update + r.updates <= s.totalUpdates
      && r.state.config == s.config && r.state.totalUpdates == s.totalUpdates
      && r.state.globalStep == s.globalStep
    decreases |rounds|
  {
    if |rounds| > 0 {
      var step := Train(s.(sortKeys := rounds[0].keys), rounds[0].learned, rounds[0].learnedOptimizer);
      RunCountsUpdates(step.state, rounds[1..]);
    }
  }

  /** The update indices a run must leave a model file for. */
  predicate Milestone(s: State, m: nat)
    requires Valid(s)
  {
    m % s.config.checkpointInterval == 0 || m == s.totalUpdates
  }

  /** Every file of `before` other than the trainer record survives in `after`. */
  predicate KeepsFiles(before: RunDir, after: RunDir) {
    before.Dir? ==> after.Dir? && forall k :: k in before.files && k != StateName && k != StateTmpName ==>
      k in after.files && after.files[k] == before.files[k]
  }

  /** The run directory holds the model file of update `m`. */
  predicate HasModel(store: RunDir, m: nat) {
    store.Dir? && ModelName(m) in store.files
  }

  /** Every milestone update in `(lo, hi]` has its model file in `store`. */
  predicate Checkpointed(s: State, lo: nat, hi: nat, store: RunDir)
    requires Valid(s)
  {
    forall m :: lo < m <= hi && Milestone(s, m) ==> HasModel(store, m)
  }

  lemma ModelNameIsNotState(update: nat)
    ensures ModelName(update) != StateName && ModelName(update) != StateTmpName
  {
    assert ModelName(update)[0] == 'm';
  }

  lemma KeepsFilesTransitive(a: RunDir, b: RunDir, c: RunDir)
    requires KeepsFiles(a, b) && KeepsFiles(b, c)
    ensures KeepsFiles(a, c)
  {
  }

  /**
   * One `train` call never loses a file other than the trainer record, and a
   * successful one that reaches a milestone leaves that update's model file.
   */
  lemma TrainKeepsCheckpoints(s: State, learned: Params, learnedOptimizer: OptimizerState)
    requires Valid(s) && s.update <= s.totalUpdates
    ensures var r := Train(s, learned, learnedOptimizer);
      && KeepsFiles(s.store, r.state.store)
      && (r.outcome.Err? ==> r.state.store == s.store)
      && (r.outcome.Ok? && Milestone(s, r.state.update) ==> HasModel(r.state.store, r.state.update))
  {
    var r := Train(s, learned, learnedOptimizer);
    if r.outcome.Ok? && CheckpointDue(r.state) {
      var saved := Save(s.store, r.state.update, s.globalStep, learned, learnedOptimizer);
      assert r.state.store == saved.dir;
    }
  }

  /**
   * A run never loses a model file, and it leaves one for every milestone
   * update it reaches: each multiple of the checkpoint interval and the
   * final update.
   */
  lemma {:induction false} RunKeepsCheckpoints(s: State, rounds: seq<Round>)
    requires Valid(s) && s.update <= s.totalUpdates
    ensures var r := RunRounds(s, rounds);
      KeepsFiles(s.store, r.state.store) && Checkpointed(s, s.update, r.state.update, r.state.store)
    decreases |rounds|
  {
    if |rounds| > 0 {
      var step := Train(s.(sortKeys := rounds[0].keys), rounds[0].learned, rounds[0].learnedOptimizer);
      var mid := step.state;
      var r := RunRounds(s, rounds);
      TrainKeepsCheckpoints(s.(sortKeys := rounds[0].keys), rounds[0].learned, rounds[0].learnedOptimizer);
      RunKeepsCheckpoints(mid, rounds[1..]);
      RunCountsUpdates(mid, rounds[1..]);
      KeepsFilesTransitive(s.store, mid.store, r.state.store);
      forall m | s.update < m <= r.state.update && Milestone(s, m)
        ensures HasModel(r.state.store, m)
      {
        if m <= mid.update {
          assert step.outcome.Ok? && m == mid.update;
          ModelNameIsNotState(m);
        } else {
          assert Milestone(mid, m);
        }
      }
    }
  }

  /** The model file of the last multiple of the interval at or below `t.update` is present, if above `s.update`. */
  predicate LastMultipleSaved(s: State, t: State)
    requires Valid(s)
  {
    var last := t.update - t.update % s.config.checkpointInterval;
    s.update < last ==> HasModel(t.store, last)
  }

  /**
   * However a run ends, at most `checkpoint_interval - 1` updates are
   * unsaved: the model file of the last multiple of the interval it passed
   * is present.
   */
  lemma LatestCheckpointWithinInterval(s: State, rounds: seq<Round>)
    requires Valid(s) && s.update <= s.totalUpdates
    ensures LastMultipleSaved(s, RunRounds(s, rounds).state)
  {
    RunKeepsCheckpoints(s, rounds);
    CheckpointedCoversLast(s, RunRounds(s, rounds).state);
  }

  lemma CheckpointedCoversLast(s: State, t: State)
    requires Valid(s) && Checkpointed(s, s.update, t.update, t.store)
    ensures LastMultipleSaved(s, t)
  {
    LastMultipleIsMilestone(s, t.update);
  }

  lemma LastMultipleIsMilestone(s: State, u: nat)
    requires Valid(s)
    ensures u % s.config.checkpointInterval <= u && Milestone(s, u - u % s.config.checkpointInterval)
  {
    LastMultiple(u, s.config.checkpointInterval);
  }

  /** `u - u % i` is a multiple of `i` no larger than `u`. */
  lemma LastMultiple(u: nat, i: nat)
    requires i > 0
    ensures u % i <= u && (u - u % i) % i == 0
  {
    var q := u / i;
    assert u - u % i == q * i;
    DivModSplit(q, 0, i, q * i);
  }
}
