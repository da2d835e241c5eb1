/**
 * Generalized advantage estimation as `train` computes it: a backward
 * recursion over the sorted slot order, with the slot after each position
 * supplying reward, done flag and bootstrap value.
 */
module Advantage {
  import opened Experience

  /**
   * The recursion may read `idxs[t + 1]` for every `t < batchSize`, and every
   * sorted index names a buffer slot.
   */
  predicate Indexable(slots: seq<Slot>, idxs: seq<nat>, batchSize: nat) {
    && (batchSize == 0 || batchSize < |idxs|)
    && forall j :: 0 <= j < |idxs| ==> idxs[j] < |slots|
  }

  /** One-step temporal-difference error `delta` at sorted position `t`. */
  function TdError(slots: seq<Slot>, idxs: seq<nat>, gamma: real, batchSize: nat, t: nat): real
    requires Indexable(slots, idxs, batchSize) && t < batchSize
  {
    var cur, nxt := slots[idxs[t]], slots[idxs[t + 1]];
    nxt.reward + gamma * nxt.value * (1.0 - nxt.done) - cur.value
  }

  /**
   * The advantage at sorted position `t`: its TD error plus the discounted,
   * done-masked advantage of the next position; zero past the last step.
   */
  function AdvantageFrom(slots: seq<Slot>, idxs: seq<nat>, gamma: real, gaeLambda: real, batchSize: nat, t: nat): real
    requires Indexable(slots, idxs, batchSize) && t <= batchSize
    decreases batchSize - t
  {
    if t == batchSize then 0.0
    else
      var nonterminal := 1.0 - slots[idxs[t + 1]].done;
      TdError(slots, idxs, gamma, batchSize, t)
        + gamma * gaeLambda * nonterminal * AdvantageFrom(slots, idxs, gamma, gaeLambda, batchSize, t + 1)
  }

  /**
   * The loop of `train` that fills `advantages` from the last position down,
   * carrying `lastgaelam`; it agrees with the recursion at every position.
   */
  method Advantages(slots: seq<Slot>, idxs: seq<nat>, gamma: real, gaeLambda: real, batchSize: nat)
    returns (adv: seq<real>)
    requires Indexable(slots, idxs, batchSize)
    ensures |adv| == batchSize
    ensures forall t :: 0 <= t < batchSize ==> adv[t] == AdvantageFrom(slots, idxs, gamma, gaeLambda, batchSize, t)
  {
    adv := seq(batchSize, _ => 0.0);
    var lastgaelam := 0.0;
    var t := batchSize;
    while t > 0
      invariant 0 <= t <= batchSize && |adv| == batchSize
      invariant lastgaelam == AdvantageFrom(slots, idxs, gamma, gaeLambda, batchSize, t)
      invariant forall k :: t <= k < batchSize ==> adv[k] == AdvantageFrom(slots, idxs, gamma, gaeLambda, batchSize, k)
    {
      t := t - 1;
      var i, iNext := idxs[t], idxs[t + 1];
      var nextNonTerminal := 1.0 - slots[iNext].done;
      var nextValue := slots[iNext].value;
      var delta := slots[iNext].reward + gamma * nextValue * nextNonTerminal - slots[i].value;
      lastgaelam := delta + gamma * gaeLambda * nextNonTerminal * lastgaelam;
      adv := adv[t := lastgaelam];
    }
  }

  /** Past the last step nothing is bootstrapped: the final advantage is the TD error alone. */
  lemma LastStepIsTdError(slots: seq<Slot>, idxs: seq<nat>, gamma: real, gaeLambda: real, batchSize: nat)
    requires Indexable(slots, idxs, batchSize) && batchSize > 0
    ensures AdvantageFrom(slots, idxs, gamma, gaeLambda, batchSize, batchSize - 1)
      == TdError(slots, idxs, gamma, batchSize, batchSize - 1)
  {
  }

  /**
   * An episode end in the next slot cuts the recursion: the advantage is the
   * next reward minus the current value, whatever follows.
   */
  lemma DoneCutsBootstrap(slots: seq<Slot>, idxs: seq<nat>, gamma: real, gaeLambda: real, batchSize: nat, t: nat)
    requires Indexable(slots, idxs, batchSize) && t < batchSize
    requires slots[idxs[t + 1]].done == 1.0
    ensures AdvantageFrom(slots, idxs, gamma, gaeLambda, batchSize, t)
      == slots[idxs[t + 1]].reward - slots[idxs[t]].value
  {
  }

  /** With `gaeLambda == 0` every advantage is its one-step TD error. */
  lemma ZeroLambdaIsTdError(slots: seq<Slot>, idxs: seq<nat>, gamma: real, batchSize: nat, t: nat)
    requires Indexable(slots, idxs, batchSize) && t < batchSize
    ensures AdvantageFrom(slots, idxs, gamma, 0.0, batchSize, t) == TdError(slots, idxs, gamma, batchSize, t)
  {
  }

  /**
   * The done-masked discounted return from sorted position `t`: the rewards
   * of the following slots, discounted by `gamma` and cut at an episode end,
   * bootstrapped from the value of the slot after the last step.
   */
  function DiscountedReturn(slots: seq<Slot>, idxs: seq<nat>, gamma: real, batchSize: nat, t: nat): real
    requires Indexable(slots, idxs, batchSize) && batchSize < |idxs| && t <= batchSize
    decreases batchSize - t
  {
    if t == batchSize then slots[idxs[batchSize]].value
    else
      var nxt := slots[idxs[t + 1]];
      nxt.reward + gamma * (1.0 - nxt.done) * DiscountedReturn(slots, idxs, gamma, batchSize, t + 1)
  }

  /**
   * With `gaeLambda == 1`, advantage plus value (the entry of `b_returns`) is the
   * done-masked discounted return: GAE(gamma, 1) telescopes to the Monte
   * Carlo return with a bootstrap from the reserved extra slot.
   */
  lemma {:induction false} UnitLambdaReturnsAreDiscounted(slots: seq<Slot>, idxs: seq<nat>, gamma: real, batchSize: nat, t: nat)
    requires Indexable(slots, idxs, batchSize) && batchSize < |idxs| && t <= batchSize
    ensures AdvantageFrom(slots, idxs, gamma, 1.0, batchSize, t) + slots[idxs[t]].value
      == DiscountedReturn(slots, idxs, gamma, batchSize, t)
    decreases batchSize - t
  {
    if t < batchSize {
      UnitLambdaReturnsAreDiscounted(slots, idxs, gamma, batchSize, t + 1);
      var nxt := slots[idxs[t + 1]];
      var c := 1.0 - nxt.done;
      var later := AdvantageFrom(slots, idxs, gamma, 1.0, batchSize, t + 1);
      assert gamma * nxt.value * c + gamma * 1.0 * c * later == gamma * c * (later + nxt.value);
    }
  }

  /**
   * A four-step batch of one agent with unit rewards and an episode end
   * arriving in slot 3: the advantage before the episode end is the bare
   * reward-minus-value, and the step before it bootstraps from it.
   */
  lemma FourStepEpisodeEnd(v: seq<real>, d4: real, gamma: real, gaeLambda: real)
    requires |v| == 5
    ensures var slots := seq(5, k requires 0 <= k < 5 =>
        Slot([], [], 0.0, v[k], 1.0, if k == 3 then 1.0 else if k == 4 then d4 else 0.0));
      var idxs := [0, 1, 2, 3, 4];
      && AdvantageFrom(slots, idxs, gamma, gaeLambda, 4, 3) == 1.0 + gamma * v[4] * (1.0 - d4) - v[3]
      && AdvantageFrom(slots, idxs, gamma, gaeLambda, 4, 2) == 1.0 - v[2]
      && AdvantageFrom(slots, idxs, gamma, gaeLambda, 4, 1)
           == 1.0 + gamma * v[2] - v[1] + gamma * gaeLambda * (1.0 - v[2])
  {
  }
}
