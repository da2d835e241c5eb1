/**
 * The experience-buffer fill of `evaluate`: a round-robin loop over
 * environment groups that copies every learner-controlled, live agent slot
 * into the next free buffer slot and records its sort key.
 */
module Experience {
  import opened SortKeys
  import opened Arith

  type Obs = seq<real>
  type Action = seq<int>

  /**
   * What one iteration of the collection loop works with: the arrays returned
   * by the group's `recv()` (observations, rewards, dones, liveness mask) and
   * the per-agent outputs of the policy pool's forward pass on them.
   */
  datatype EnvStep = EnvStep(
    obs: seq<Obs>,
    rewards: seq<real>,
    dones: seq<real>,
    alive: seq<bool>,
    actions: seq<Action>,
    logprobs: seq<real>,
    values: seq<real>)

  /** One row of the experience buffer. */
  datatype Slot = Slot(obs: Obs, action: Action, logprob: real, value: real, reward: real, done: real)

  /**
   * Per-agent arrays agree with the policy pool's slot mask in length, as the
   * element-wise product `mask * policy_pool.mask` needs; rewards and dones
   * may be empty, in which case the loop leaves those slot fields alone.
   */
  predicate WellShaped(e: EnvStep, pool: seq<bool>) {
    && |e.alive| == |pool| && |e.obs| == |pool| && |e.actions| == |pool|
    && |e.logprobs| == |pool| && |e.values| == |pool|
    && (|e.dones| == 0 || (|e.dones| == |pool| && |e.rewards| == |pool|))
  }

  predicate Shaped(steps: seq<EnvStep>, pool: seq<bool>) {
    forall k :: 0 <= k < |steps| ==> WellShaped(steps[k], pool)
  }

  /** `mask * policy_pool.mask`: live and learner-controlled. */
  function LearnerMask(alive: seq<bool>, pool: seq<bool>): (m: seq<bool>)
    requires |alive| == |pool|
    ensures |m| == |alive|
  {
    seq(|alive|, i requires 0 <= i < |alive| => alive[i] && pool[i])
  }

  /** `np.where(m)[0]`: the positions whose bit is set, in increasing order. */
  function Where(m: seq<bool>): (r: seq<nat>)
    ensures forall j :: 0 <= j < |r| ==> r[j] < |m| && m[r[j]]
    ensures forall a, b :: 0 <= a < b < |r| ==> r[a] < r[b]
    ensures forall i :: 0 <= i < |m| && m[i] ==> i in r
  {
    if |m| == 0 then []
    else
      var front := Where(m[..|m| - 1]);
      assert forall i :: 0 <= i < |m| - 1 ==> m[..|m| - 1][i] == m[i];
      front + (if m[|m| - 1] then [|m| - 1] else [])
  }

  /** The environment group visited by the `k`-th iteration (counting from 0). */
  function BufAt(start: nat, numBuffers: nat, k: nat): (b: nat)
    requires numBuffers > 0
    ensures b < numBuffers
  {
    (start + k) % numBuffers
  }

  /** Agent positions the `k`-th iteration would write. */
  function Selected(steps: seq<EnvStep>, pool: seq<bool>, k: nat): seq<nat>
    requires k < |steps| && Shaped(steps, pool)
  {
    Where(LearnerMask(steps[k].alive, pool))
  }

  /** Sort keys the `k`-th iteration would append; the loop's `step` is `k + 1`. */
  function IterKeys(steps: seq<EnvStep>, pool: seq<bool>, start: nat, numBuffers: nat, k: nat): (r: seq<Key>)
    requires k < |steps| && Shaped(steps, pool) && numBuffers > 0
    ensures |r| == |Selected(steps, pool, k)|
  {
    var w := Selected(steps, pool, k);
    seq(|w|, j requires 0 <= j < |w| => Key(BufAt(start, numBuffers, k), w[j], k + 1))
  }

  /**
   * A key describes a slot the loop may write: its step names an iteration,
   * its buffer is the group that iteration visited, and its agent position is
   * live and learner-controlled in that iteration's masks.
   */
  predicate Origin(steps: seq<EnvStep>, pool: seq<bool>, start: nat, numBuffers: nat, key: Key)
    requires Shaped(steps, pool) && numBuffers > 0
  {
    && 1 <= key.step <= |steps|
    && key.buf == BufAt(start, numBuffers, key.step - 1)
    && key.idx < |pool|
    && steps[key.step - 1].alive[key.idx]
    && pool[key.idx]
  }

  /** Write order of the loop: by iteration, then by agent position. */
  predicate WrittenBefore(a: Key, b: Key) {
    a.step < b.step || (a.step == b.step && a.idx < b.idx)
  }

  /**
   * All keys the first `n` iterations would append if the buffer never
   * filled: the reference against which the fill loop is stated.
   */
  function KeysUpTo(steps: seq<EnvStep>, pool: seq<bool>, start: nat, numBuffers: nat, n: nat): seq<Key>
    requires n <= |steps| && Shaped(steps, pool) && numBuffers > 0
  {
    if n == 0 then []
    else KeysUpTo(steps, pool, start, numBuffers, n - 1) + IterKeys(steps, pool, start, numBuffers, n - 1)
  }

  /** The `j`-th key of iteration `k` names a selected agent position. */
  lemma IterKeyOrigin(steps: seq<EnvStep>, pool: seq<bool>, start: nat, numBuffers: nat, k: nat, j: nat)
    requires k < |steps| && Shaped(steps, pool) && numBuffers > 0
    requires j < |IterKeys(steps, pool, start, numBuffers, k)|
    ensures var key := IterKeys(steps, pool, start, numBuffers, k)[j];
      key == Key(BufAt(start, numBuffers, k), Selected(steps, pool, k)[j], k + 1)
      && Origin(steps, pool, start, numBuffers, key)
  {
    var w := Selected(steps, pool, k);
    var m := LearnerMask(steps[k].alive, pool);
    assert w[j] < |m| && m[w[j]];
  }

  /** Every key of `r` has an origin among the first `n` iterations. */
  predicate AllOrigin(steps: seq<EnvStep>, pool: seq<bool>, start: nat, numBuffers: nat, n: nat, r: seq<Key>)
    requires Shaped(steps, pool) && numBuffers > 0
  {
    forall j :: 0 <= j < |r| ==> r[j].step <= n && Origin(steps, pool, start, numBuffers, r[j])
  }

  /** The keys of `r` appear in the loop's write order. */
  predicate InWriteOrder(r: seq<Key>) {
    forall a, b :: 0 <= a < b < |r| ==> WrittenBefore(r[a], r[b])
  }

  /**
   * Every recorded key names a live, learner-controlled agent position of an
   * iteration within the first `n`, on the group that iteration visited.
   */
  lemma {:induction false} KeysUpToOrigin(steps: seq<EnvStep>, pool: seq<bool>, start: nat, numBuffers: nat, n: nat)
    requires n <= |steps| && Shaped(steps, pool) && numBuffers > 0
    ensures AllOrigin(steps, pool, start, numBuffers, n, KeysUpTo(steps, pool, start, numBuffers, n))
  {
    if n > 0 {
      KeysUpToOrigin(steps, pool, start, numBuffers, n - 1);
      var front := KeysUpTo(steps, pool, start, numBuffers, n - 1);
      var last := IterKeys(steps, pool, start, numBuffers, n - 1);
      var r := front + last;
      assert r == KeysUpTo(steps, pool, start, numBuffers, n);
      forall j | 0 <= j < |r|
        ensures r[j].step <= n && Origin(steps, pool, start, numBuffers, r[j])
      {
        if j >= |front| {
          assert r[j] == last[j - |front|];
          IterKeyOrigin(steps, pool, start, numBuffers, n - 1, j - |front|);
        } else {
          assert r[j] == front[j];
        }
      }
    }
  }

  /** One iteration's keys all carry its step and increase by agent position. */
  lemma IterKeysInOrder(steps: seq<EnvStep>, pool: seq<bool>, start: nat, numBuffers: nat, k: nat)
    requires k < |steps| && Shaped(steps, pool) && numBuffers > 0
    ensures InWriteOrder(IterKeys(steps, pool, start, numBuffers, k))
    ensures forall j :: 0 <= j < |IterKeys(steps, pool, start, numBuffers, k)| ==>
      IterKeys(steps, pool, start, numBuffers, k)[j].step == k + 1
  {
  }

  /** Keys of the first `n` iterations carry a step of at most `n`. */
  lemma {:induction false} KeysUpToSteps(steps: seq<EnvStep>, pool: seq<bool>, start: nat, numBuffers: nat, n: nat)
    requires n <= |steps| && Shaped(steps, pool) && numBuffers > 0
    ensures forall j :: 0 <= j < |KeysUpTo(steps, pool, start, numBuffers, n)| ==>
      KeysUpTo(steps, pool, start, numBuffers, n)[j].step <= n
  {
    if n > 0 {
      KeysUpToSteps(steps, pool, start, numBuffers, n - 1);
      IterKeysInOrder(steps, pool, start, numBuffers, n - 1);
    }
  }

  /** Appending keys of a later step to keys in write order keeps write order. */
  lemma WriteOrderAppend(front: seq<Key>, last: seq<Key>, m: nat)
    requires InWriteOrder(front) && InWriteOrder(last)
    requires forall j :: 0 <= j < |front| ==> front[j].step <= m
    requires forall j :: 0 <= j < |last| ==> last[j].step == m + 1
    ensures InWriteOrder(front + last)
  {
    var r := front + last;
    forall a, b | 0 <= a < b < |r|
      ensures WrittenBefore(r[a], r[b])
    {
      if b < |front| {
        assert r[a] == front[a] && r[b] == front[b];
      } else if a >= |front| {
        assert r[a] == last[a - |front|] && r[b] == last[b - |front|];
      } else {
        assert r[a] == front[a] && r[b] == last[b - |front|];
      }
    }
  }

  /** Recorded keys appear in write order: by iteration, then by agent position. */
  lemma {:induction false} KeysUpToOrdered(steps: seq<EnvStep>, pool: seq<bool>, start: nat, numBuffers: nat, n: nat)
    requires n <= |steps| && Shaped(steps, pool) && numBuffers > 0
    ensures InWriteOrder(KeysUpTo(steps, pool, start, numBuffers, n))
  {
    if n > 0 {
      var m := n - 1;
      KeysUpToOrdered(steps, pool, start, numBuffers, m);
      KeysUpToSteps(steps, pool, start, numBuffers, m);
      IterKeysInOrder(steps, pool, start, numBuffers, m);
      var front, last := KeysUpTo(steps, pool, start, numBuffers, m), IterKeys(steps, pool, start, numBuffers, m);
      WriteOrderAppend(front, last, m);
      assert KeysUpTo(steps, pool, start, numBuffers, n) == front + last;
    }
  }

  /** Every slot the masks select within the first `n` iterations has its key recorded. */
  lemma {:induction false} KeysUpToComplete(steps: seq<EnvStep>, pool: seq<bool>, start: nat, numBuffers: nat, n: nat, key: Key)
    requires n <= |steps| && Shaped(steps, pool) && numBuffers > 0
    requires Origin(steps, pool, start, numBuffers, key) && key.step <= n
    ensures key in KeysUpTo(steps, pool, start, numBuffers, n)
  {
    if key.step == n {
      var w := Selected(steps, pool, n - 1);
      assert LearnerMask(steps[n - 1].alive, pool)[key.idx];
      var j :| 0 <= j < |w| && w[j] == key.idx;
      assert IterKeys(steps, pool, start, numBuffers, n - 1)[j] == key;
    } else {
      KeysUpToComplete(steps, pool, start, numBuffers, n - 1, key);
    }
  }

  /**
   * Recorded keys are pairwise distinct, and for one agent slot of one group
   * the steps strictly increase in write order (they are not consecutive:
   * `step` counts loop iterations over all groups).
   */
  lemma KeysDistinctAndOrdered(steps: seq<EnvStep>, pool: seq<bool>, start: nat, numBuffers: nat, n: nat, a: nat, b: nat)
    requires n <= |steps| && Shaped(steps, pool) && numBuffers > 0
    requires a < b < |KeysUpTo(steps, pool, start, numBuffers, n)|
    ensures var r := KeysUpTo(steps, pool, start, numBuffers, n);
      r[a] != r[b] && (r[a].buf == r[b].buf && r[a].idx == r[b].idx ==> r[a].step < r[b].step)
  {
    KeysUpToOrdered(steps, pool, start, numBuffers, n);
    var r := KeysUpTo(steps, pool, start, numBuffers, n);
    assert WrittenBefore(r[a], r[b]);
  }

  /** The keys of fewer iterations are a prefix of the keys of more. */
  lemma {:induction false} KeysUpToPrefix(steps: seq<EnvStep>, pool: seq<bool>, start: nat, numBuffers: nat, m: nat, n: nat)
    requires m <= n <= |steps| && Shaped(steps, pool) && numBuffers > 0
    ensures var short := KeysUpTo(steps, pool, start, numBuffers, m);
      var long := KeysUpTo(steps, pool, start, numBuffers, n);
      |short| <= |long| && long[..|short|] == short
  {
    if m < n {
      KeysUpToPrefix(steps, pool, start, numBuffers, m, n - 1);
      var mid := KeysUpTo(steps, pool, start, numBuffers, n - 1);
      var long := KeysUpTo(steps, pool, start, numBuffers, n);
      assert long[..|mid|] == mid;
    }
  }

  /**
   * The contents copied into a slot from agent position `i` of one
   * iteration: observation, action, log-probability and value always; the
   * reward and done flag only when the done vector is non-empty, the
   * previous contents otherwise.
   */
  function Written(e: EnvStep, pool: seq<bool>, i: nat, prev: Slot): Slot
    requires WellShaped(e, pool) && i < |pool|
  {
    Slot(e.obs[i], e.actions[i], e.logprobs[i], e.values[i],
         if |e.dones| != 0 then e.rewards[i] else prev.reward,
         if |e.dones| != 0 then e.dones[i] else prev.done)
  }

  /**
   * What a slot held before matters only through its reward and done flag,
   * and only on an iteration whose done vector is empty: two previous
   * contents give the same slot exactly when that is so or they agree there.
   */
  lemma WrittenPreviousIrrelevant(e: EnvStep, pool: seq<bool>, i: nat, p: Slot, q: Slot)
    requires WellShaped(e, pool) && i < |pool|
    ensures Written(e, pool, i, p) == Written(e, pool, i, q)
      <==> |e.dones| != 0 || (p.reward == q.reward && p.done == q.done)
  {
  }

  /** Copying the same agent of the same iteration twice leaves the slot as the first copy did. */
  lemma WrittenIdempotent(e: EnvStep, pool: seq<bool>, i: nat, prev: Slot)
    requires WellShaped(e, pool) && i < |pool|
    ensures Written(e, pool, i, Written(e, pool, i, prev)) == Written(e, pool, i, prev)
  {
  }

  /** Slot `s` holds the data of the agent position and iteration that `key` names. */
  predicate SlotFrom(steps: seq<EnvStep>, pool: seq<bool>, key: Key, prev: Slot, s: Slot)
    requires Shaped(steps, pool)
  {
    1 <= key.step <= |steps| && key.idx < |pool| && s == Written(steps[key.step - 1], pool, key.idx, prev)
  }

  /**
   * Slots `lo` up to `hi` of `slots` hold the data named by the keys recorded
   * for them (`keys[base + p]` for slot `p`), over the previous contents `prev`.
   */
  predicate Filled(steps: seq<EnvStep>, pool: seq<bool>, keys: seq<Key>, base: nat,
                   prev: seq<Slot>, slots: seq<Slot>, lo: nat, hi: nat)
    requires Shaped(steps, pool)
  {
    && lo <= hi <= |slots| == |prev|
    && base + hi <= |keys|
    && forall p :: lo <= p < hi ==> SlotFrom(steps, pool, keys[base + p], prev[p], slots[p])
  }

  /** Slots from `from` onwards are unchanged. */
  predicate Untouched(prev: seq<Slot>, slots: seq<Slot>, from: nat) {
    |slots| == |prev| && forall p :: from <= p < |slots| ==> slots[p] == prev[p]
  }

  function Min(a: nat, b: nat): nat {
    if a <= b then a else b
  }

  lemma RoundRobinStep(start: nat, numBuffers: nat, k: nat)
    requires numBuffers > 0
    ensures (BufAt(start, numBuffers, k) + 1) % numBuffers == BufAt(start, numBuffers, k + 1)
  {
    var a := start + k;
    assert a == (a / numBuffers) * numBuffers + a % numBuffers;
    var q := (a % numBuffers + 1) / numBuffers;
    assert a + 1 == (a / numBuffers + q) * numBuffers + (a % numBuffers + 1) % numBuffers;
    DivModSplit(a / numBuffers + q, (a % numBuffers + 1) % numBuffers, numBuffers, a + 1);
  }

  /**
   * The inner loop of one iteration: walks the selected agent positions of
   * iteration `k` in increasing order, writing slot `ptr` and appending the
   * key `(buf, idx, k + 1)` for each, and stops early once `ptr` reaches `cap`.
   * `base` is the number of keys collected before this fill began.
   */
  method CopySelected(steps: seq<EnvStep>, pool: seq<bool>, start: nat, numBuffers: nat, k: nat,
                      cap: nat, base: nat, slotsIn: seq<Slot>, keysIn: seq<Key>, ptrIn: nat)
    returns (slots: seq<Slot>, keys: seq<Key>, ptr: nat, j: nat)
    requires k < |steps| && Shaped(steps, pool) && numBuffers > 0
    requires ptrIn <= cap == |slotsIn| && |keysIn| == base + ptrIn
    ensures j <= |IterKeys(steps, pool, start, numBuffers, k)|
    ensures ptr == ptrIn + j <= cap
    ensures j == |IterKeys(steps, pool, start, numBuffers, k)| || ptr == cap
    ensures keys == keysIn + IterKeys(steps, pool, start, numBuffers, k)[..j]
    ensures |slots| == cap
    ensures forall p :: 0 <= p < ptrIn ==> slots[p] == slotsIn[p]
    ensures Filled(steps, pool, keys, base, slotsIn, slots, ptrIn, ptr)
    ensures Untouched(slotsIn, slots, ptr)
  {
    var e := steps[k];
    var w := Where(LearnerMask(e.alive, pool));
    var buf := BufAt(start, numBuffers, k);
    ghost var added := IterKeys(steps, pool, start, numBuffers, k);
    slots, keys, ptr, j := slotsIn, keysIn, ptrIn, 0;
    while j < |w| && ptr != cap
      invariant 0 <= j <= |w|
      invariant ptr == ptrIn + j <= cap
      invariant keys == keysIn + added[..j]
      invariant |slots| == cap
      invariant forall p :: 0 <= p < ptrIn ==> slots[p] == slotsIn[p]
      invariant Filled(steps, pool, keys, base, slotsIn, slots, ptrIn, ptr)
      invariant Untouched(slotsIn, slots, ptr)
    {
      var idx := w[j];
      slots := slots[ptr := Written(e, pool, idx, slots[ptr])];
      keys := keys + [Key(buf, idx, k + 1)];
      assert added[..j + 1] == added[..j] + [Key(buf, idx, k + 1)];
      ptr := ptr + 1;
      j := j + 1;
    }
  }

  /** The slots written by one iteration extend those written before it. */
  lemma SlotsAccumulate(steps: seq<EnvStep>, pool: seq<bool>, base: nat, slots0: seq<Slot>,
                        slotsIn: seq<Slot>, slots: seq<Slot>, keysIn: seq<Key>, keys: seq<Key>,
                        ptrIn: nat, ptr: nat)
    requires Shaped(steps, pool)
    requires |keysIn| == base + ptrIn <= |keys| && keys[..base + ptrIn] == keysIn
    requires Filled(steps, pool, keysIn, base, slots0, slotsIn, 0, ptrIn) && Untouched(slots0, slotsIn, ptrIn)
    requires |slots| == |slotsIn| && forall p :: 0 <= p < ptrIn ==> slots[p] == slotsIn[p]
    requires Filled(steps, pool, keys, base, slotsIn, slots, ptrIn, ptr) && Untouched(slotsIn, slots, ptr)
    ensures Filled(steps, pool, keys, base, slots0, slots, 0, ptr) && Untouched(slots0, slots, ptr)
  {
    forall p | 0 <= p < ptrIn
      ensures SlotFrom(steps, pool, keys[base + p], slots0[p], slots[p])
    {
      assert keys[base + p] == keysIn[base + p];
    }
    forall p | ptrIn <= p < ptr
      ensures SlotFrom(steps, pool, keys[base + p], slots0[p], slots[p])
    {
      assert slotsIn[p] == slots0[p];
    }
  }

  /** One iteration's keys, possibly cut short, extend the recorded prefix. */
  lemma KeysAccumulate(keys0: seq<Key>, before: seq<Key>, added: seq<Key>, j: nat, cap: nat, keys: seq<Key>)
    requires |before| < cap && j <= |added| && |before| + j <= cap
    requires j == |added| || |before| + j == cap
    requires keys == keys0 + before + added[..j]
    ensures keys == keys0 + (before + added)[..|before| + j]
    ensures |before| + j == Min(cap, |before + added|)
  {
    assert (before + added)[..|before| + j] == before + added[..j];
  }

  /**
   * The key bookkeeping after `n` iterations of the fill loop: `ptr` keys of
   * the reference sequence were appended, and the loop did not already
   * stop after `n - 1` iterations.
   */
  predicate KeysAfter(steps: seq<EnvStep>, pool: seq<bool>, start: nat, numBuffers: nat, cap: nat,
                      keys0: seq<Key>, keys: seq<Key>, ptr: nat, n: nat)
    requires n <= |steps| && Shaped(steps, pool) && numBuffers > 0
  {
    var all := KeysUpTo(steps, pool, start, numBuffers, n);
    && ptr == Min(cap, |all|)
    && keys == keys0 + all[..ptr]
    && (0 < n ==> |KeysUpTo(steps, pool, start, numBuffers, n - 1)| < cap)
  }

  /** One more iteration of the fill loop keeps the key bookkeeping. */
  lemma KeysAfterStep(steps: seq<EnvStep>, pool: seq<bool>, start: nat, numBuffers: nat, cap: nat,
                      keys0: seq<Key>, keysIn: seq<Key>, ptrIn: nat, n: nat, keys: seq<Key>, ptr: nat, j: nat)
    requires n < |steps| && Shaped(steps, pool) && numBuffers > 0
    requires KeysAfter(steps, pool, start, numBuffers, cap, keys0, keysIn, ptrIn, n) && ptrIn != cap
    requires j <= |IterKeys(steps, pool, start, numBuffers, n)| && ptr == ptrIn + j <= cap
    requires j == |IterKeys(steps, pool, start, numBuffers, n)| || ptr == cap
    requires keys == keysIn + IterKeys(steps, pool, start, numBuffers, n)[..j]
    ensures KeysAfter(steps, pool, start, numBuffers, cap, keys0, keys, ptr, n + 1)
  {
    var before := KeysUpTo(steps, pool, start, numBuffers, n);
    var added := IterKeys(steps, pool, start, numBuffers, n);
    assert KeysUpTo(steps, pool, start, numBuffers, n + 1) == before + added;
    assert ptrIn == |before| && keysIn == keys0 + before;
    KeysAccumulate(keys0, before, added, j, cap, keys);
  }

  /**
   * The fill loop of `evaluate`. Starting at group `startBuf` with the
   * buffer's previous contents `slots0` and the sort keys collected so far
   * `keys0`, it consumes one `EnvStep` per iteration until the fill pointer
   * reaches `batchSize + 1`. `iterations` counts the iterations that received
   * data and `buf` is the group the next call starts from.
   */
  method Fill(batchSize: nat, numBuffers: nat, pool: seq<bool>, steps: seq<EnvStep>,
              startBuf: nat, slots0: seq<Slot>, keys0: seq<Key>)
    returns (slots: seq<Slot>, keys: seq<Key>, ptr: nat, buf: nat, iterations: nat)
    requires numBuffers > 0 && startBuf < numBuffers
    requires |slots0| == batchSize + 1
    requires Shaped(steps, pool)
    ensures iterations <= |steps|
    ensures buf == BufAt(startBuf, numBuffers, iterations)
    ensures ptr <= batchSize + 1
    ensures ptr == Min(batchSize + 1, |KeysUpTo(steps, pool, startBuf, numBuffers, iterations)|)
    ensures keys == keys0 + KeysUpTo(steps, pool, startBuf, numBuffers, iterations)[..ptr]
    ensures ptr == batchSize + 1 ==>
      0 < iterations && |KeysUpTo(steps, pool, startBuf, numBuffers, iterations - 1)| < batchSize + 1
    ensures ptr < batchSize + 1 ==> iterations == |steps|
    ensures |slots| == batchSize + 1
    ensures Filled(steps, pool, keys, |keys0|, slots0, slots, 0, ptr)
    ensures Untouched(slots0, slots, ptr)
  {
    var cap := batchSize + 1;
    slots, keys, ptr, buf, iterations := slots0, keys0, 0, startBuf, 0;
    while ptr != cap && iterations < |steps|
      invariant iterations <= |steps|
      invariant buf == BufAt(startBuf, numBuffers, iterations)
      invariant KeysAfter(steps, pool, startBuf, numBuffers, cap, keys0, keys, ptr, iterations)
      invariant |slots| == cap
      invariant Filled(steps, pool, keys, |keys0|, slots0, slots, 0, ptr)
      invariant Untouched(slots0, slots, ptr)
      decreases |steps| - iterations
    {
      ghost var keysIn, slotsIn, ptrIn := keys, slots, ptr;
      var j;
      slots, keys, ptr, j := CopySelected(steps, pool, startBuf, numBuffers, iterations,
                                          cap, |keys0|, slots, keys, ptr);
      SlotsAccumulate(steps, pool, |keys0|, slots0, slotsIn, slots, keysIn, keys, ptrIn, ptr);
      KeysAfterStep(steps, pool, startBuf, numBuffers, cap, keys0, keysIn, ptrIn, iterations, keys, ptr, j);
      RoundRobinStep(startBuf, numBuffers, iterations);
      iterations := iterations + 1;
      buf := (buf + 1) % numBuffers;
    }
  }
}
