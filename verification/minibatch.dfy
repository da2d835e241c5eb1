/**
 * Minibatch layout of `train`: the sorted slot indices, last one dropped,
 * reshaped to `(batch_rows, num_minibatches, bptt_horizon)` and transposed
 * so the minibatch dimension is outermost.
 */
module Minibatch {
  import opened Wrappers
  import opened Arith

  /** A grid indexed `[minibatch][row][horizon step]`. */
  type Grid<T> = seq<seq<seq<T>>>

  /** The element count does not fit the requested shape (torch's reshape error). */
  datatype LayoutError = ReshapeMismatch(elements: nat, rows: nat, minibatches: nat, horizon: nat)

  /**
   * `batch_size // bptt_horizon // batch_rows`: the largest number of whole
   * minibatches of `horizon * rows` slots that fit in the batch.
   */
  function NumMinibatches(batchSize: nat, horizon: nat, rows: nat): (nm: nat)
    requires horizon > 0 && rows > 0
    ensures nm * horizon * rows <= batchSize < (nm + 1) * horizon * rows
  {
    var nm := batchSize / horizon / rows;
    NumMinibatchesBounds(batchSize, horizon, rows, nm);
    nm
  }

  lemma NumMinibatchesBounds(batchSize: nat, horizon: nat, rows: nat, nm: nat)
    requires horizon > 0 && rows > 0 && nm == batchSize / horizon / rows
    ensures nm * horizon * rows <= batchSize < (nm + 1) * horizon * rows
  {
    var q := batchSize / horizon;
    assert batchSize == q * horizon + batchSize % horizon;
    assert q == nm * rows + q % rows;
    MulMonoLe(nm * rows, q, horizon);
    assert nm * horizon * rows == nm * rows * horizon;
    MulMonoLe(q + 1, (nm + 1) * rows, horizon);
    assert (nm + 1) * horizon * rows == (nm + 1) * rows * horizon;
  }

  /** Flat position of grid cell `[mb][row][h]`: `(row * nm + mb) * horizon + h`. */
  function Position(mb: nat, row: nat, h: nat, nm: nat, horizon: nat): nat {
    (row * nm + mb) * horizon + h
  }

  lemma PositionInRange(mb: nat, row: nat, h: nat, rows: nat, nm: nat, horizon: nat)
    requires mb < nm && row < rows && h < horizon
    ensures Position(mb, row, h, nm, horizon) < rows * nm * horizon
  {
    var q := row * nm + mb;
    MulMonoLe(row + 1, rows, nm);
    assert q + 1 <= rows * nm;
    MulMonoLe(q + 1, rows * nm, horizon);
  }

  /** `flat.reshape(rows, nm, horizon).transpose(0, 1)`. */
  function Reshape<T>(flat: seq<T>, rows: nat, nm: nat, horizon: nat): (g: Grid<T>)
    requires |flat| == rows * nm * horizon
    ensures |g| == nm
    ensures forall mb :: 0 <= mb < nm ==> |g[mb]| == rows
    ensures forall mb, row :: 0 <= mb < nm && 0 <= row < rows ==> |g[mb][row]| == horizon
  {
    seq(nm, mb requires 0 <= mb < nm =>
      seq(rows, row requires 0 <= row < rows =>
        seq(horizon, h requires 0 <= h < horizon =>
          PositionInRange(mb, row, h, rows, nm, horizon);
          flat[Position(mb, row, h, nm, horizon)])))
  }

  /** Grid cell `[mb][row][h]` of the reshape holds the element at its flat position. */
  lemma ReshapeAt<T>(flat: seq<T>, rows: nat, nm: nat, horizon: nat, mb: nat, row: nat, h: nat)
    requires |flat| == rows * nm * horizon && mb < nm && row < rows && h < horizon
    ensures Position(mb, row, h, nm, horizon) < |flat|
    ensures Reshape(flat, rows, nm, horizon)[mb][row][h] == flat[Position(mb, row, h, nm, horizon)]
  {
    PositionInRange(mb, row, h, rows, nm, horizon);
  }

  /** `idxs[:-1]`: everything but the last element (nothing for an empty list). */
  function DropLast<T>(s: seq<T>): (r: seq<T>)
    ensures |r| == if |s| == 0 then 0 else |s| - 1
  {
    if |s| == 0 then [] else s[..|s| - 1]
  }

  /** The slot-index grid `b_idxs`, or the reshape error torch raises. */
  function Layout(idxs: seq<nat>, rows: nat, nm: nat, horizon: nat): (r: Result<Grid<nat>, LayoutError>)
    ensures r.Ok? <==> |DropLast(idxs)| == rows * nm * horizon
  {
    var flat := DropLast(idxs);
    if |flat| != rows * nm * horizon then Err(ReshapeMismatch(|flat|, rows, nm, horizon))
    else Ok(Reshape(flat, rows, nm, horizon))
  }

  /** The cell that flat position `p` lands in. */
  function CellOf(p: nat, nm: nat, horizon: nat): (nat, nat, nat)
    requires nm > 0 && horizon > 0
  {
    ((p / horizon) % nm, (p / horizon) / nm, p % horizon)
  }

  /**
   * The reshape is a bijection between grid cells and flat positions: every
   * position `p` below `rows * nm * horizon` lands in exactly one cell, the
   * one `CellOf` names, and that cell holds `flat[p]`.
   */
  lemma ReshapeBijective<T>(flat: seq<T>, rows: nat, nm: nat, horizon: nat, p: nat)
    requires |flat| == rows * nm * horizon && p < |flat|
    ensures nm > 0 && horizon > 0
    ensures var (mb, row, h) := CellOf(p, nm, horizon);
      mb < nm && row < rows && h < horizon && Position(mb, row, h, nm, horizon) == p
      && Reshape(flat, rows, nm, horizon)[mb][row][h] == flat[p]
    ensures forall mb, row, h ::
      (0 <= mb < nm && 0 <= row < rows && 0 <= h < horizon && Position(mb, row, h, nm, horizon) == p)
        ==> (mb, row, h) == CellOf(p, nm, horizon)
  {
    if nm == 0 || horizon == 0 {
      assert false;
    }
    var q := p / horizon;
    var (mb, row, h) := CellOf(p, nm, horizon);
    assert p == q * horizon + h;
    assert q == row * nm + mb;
    assert Position(mb, row, h, nm, horizon) == p;
    if row >= rows {
      MulMonoLe(rows, row, nm);
      MulMonoLe(rows * nm, q, horizon);
      assert false;
    }
    forall mb', row', h' | 0 <= mb' < nm && 0 <= row' < rows && 0 <= h' < horizon
        && Position(mb', row', h', nm, horizon) == p
      ensures (mb', row', h') == CellOf(p, nm, horizon)
    {
      DivModSplit(row' * nm + mb', h', horizon, p);
      DivModSplit(row', mb', nm, q);
    }
  }

  /**
   * Each row of a minibatch is one contiguous run of `horizon` flat
   * positions, so a trajectory segment of the sorted order stays together.
   */
  lemma ReshapeRowsContiguous<T>(flat: seq<T>, rows: nat, nm: nat, horizon: nat, mb: nat, row: nat)
    requires |flat| == rows * nm * horizon && mb < nm && row < rows
    ensures var start := (row * nm + mb) * horizon;
      start + horizon <= |flat|
      && Reshape(flat, rows, nm, horizon)[mb][row] == flat[start..start + horizon]
  {
    var start := (row * nm + mb) * horizon;
    if horizon > 0 {
      PositionInRange(mb, row, horizon - 1, rows, nm, horizon);
    } else {
      assert start == 0;
    }
    var g := Reshape(flat, rows, nm, horizon);
    var run := flat[start..start + horizon];
    assert |g[mb][row]| == |run|;
    forall h | 0 <= h < horizon
      ensures g[mb][row][h] == run[h]
    {
      assert Position(mb, row, h, nm, horizon) == start + h;
    }
    assert g[mb][row] == run;
  }

  /** Value `v` sits in some cell of the `nm x rows x horizon` grid `g`. */
  predicate Placed<T(==)>(g: Grid<T>, rows: nat, nm: nat, horizon: nat, v: T)
    requires |g| == nm
    requires forall mb :: 0 <= mb < nm ==> |g[mb]| == rows
    requires forall mb, row :: 0 <= mb < nm && 0 <= row < rows ==> |g[mb][row]| == horizon
  {
    exists mb, row, h :: 0 <= mb < nm && 0 <= row < rows && 0 <= h < horizon && g[mb][row][h] == v
  }

  /**
   * The grid never holds the last sorted index, when the indices are
   * pairwise distinct (as an argsort's are), and it holds every other one.
   */
  lemma LayoutOmitsOnlyLast(idxs: seq<nat>, rows: nat, nm: nat, horizon: nat, g: Grid<nat>)
    requires forall a, b :: 0 <= a < b < |idxs| ==> idxs[a] != idxs[b]
    requires Layout(idxs, rows, nm, horizon) == Ok(g)
    ensures forall mb, row, h :: 0 <= mb < nm && 0 <= row < rows && 0 <= h < horizon ==>
      g[mb][row][h] != idxs[|idxs| - 1]
    ensures forall p :: 0 <= p < |idxs| - 1 ==> Placed(g, rows, nm, horizon, idxs[p])
  {
    var flat := DropLast(idxs);
    forall mb, row, h | 0 <= mb < nm && 0 <= row < rows && 0 <= h < horizon
      ensures g[mb][row][h] != idxs[|idxs| - 1]
    {
      PositionInRange(mb, row, h, rows, nm, horizon);
      var pos := Position(mb, row, h, nm, horizon);
      assert g[mb][row][h] == flat[pos] == idxs[pos];
    }
    forall p | 0 <= p < |idxs| - 1
      ensures Placed(g, rows, nm, horizon, idxs[p])
    {
      ReshapeBijective(flat, rows, nm, horizon, p);
      var (mb, row, h) := CellOf(p, nm, horizon);
      assert g[mb][row][h] == flat[p] == idxs[p];
    }
  }

  /*
   * As written, `train` builds the index grid with `torch.Tensor(idxs)`,
   * a float32 tensor, before `.long()`. A float32 carries 24 significant
   * bits, so indices above 2^24 are rounded to the nearest representable
   * value, ties to even.
   */

  /** 2^24: below and at this bound every natural is a float32 value. */
  const SignificandLimit: nat := 0x100_0000

  /**
   * The gap between neighbouring float32 values around `n`, searched
   * upwards from `ulp`: the least `ulp * 2^k` with `n < 2^24 * ulp * 2^k`.
   */
  function Spacing(n: nat, ulp: nat): (s: nat)
    requires ulp >= 1
    ensures s >= ulp && n < SignificandLimit * s
    ensures s == ulp || SignificandLimit * s <= 2 * n
    decreases n - ulp
  {
    if n < SignificandLimit * ulp then ulp else Spacing(n, 2 * ulp)
  }

  /**
   * A natural converted to float32: round to the nearest multiple of the
   * spacing, ties to the even significand. Exact up to 2^24, and never
   * more than half a spacing away.
   */
  function Float32(n: nat): (f: nat)
    ensures n <= SignificandLimit ==> f == n
    ensures 2 * n <= 2 * f + Spacing(n, 1) && 2 * f <= 2 * n + Spacing(n, 1)
  {
    var s := Spacing(n, 1);
    var q, r := n / s, n % s;
    assert n == q * s + r;
    assert (q + 1) * s == q * s + s;
    assert n == SignificandLimit ==> Spacing(n, 1) == Spacing(n, 2) == 2 && q == n / 2 && r == 0;
    if 2 * r < s || (2 * r == s && q % 2 == 0) then q * s
    else (q + 1) * s
  }

  /** `torch.Tensor(idxs)`: every index passed through float32. */
  function ThroughFloat32(idxs: seq<nat>): (r: seq<nat>)
    ensures |r| == |idxs|
    ensures forall i :: 0 <= i < |idxs| ==> r[i] == Float32(idxs[i])
  {
    seq(|idxs|, i requires 0 <= i < |idxs| => Float32(idxs[i]))
  }

  /** The slot-index grid as the source builds it, through float32. */
  function LayoutAsWritten(idxs: seq<nat>, rows: nat, nm: nat, horizon: nat): (r: Result<Grid<nat>, LayoutError>)
    ensures r.Ok? <==> Layout(idxs, rows, nm, horizon).Ok?
  {
    Layout(ThroughFloat32(idxs), rows, nm, horizon)
  }

  /** Up to 2^24 slots, the float32 detour changes nothing. */
  lemma LayoutAsWrittenAgreesBelow(idxs: seq<nat>, rows: nat, nm: nat, horizon: nat)
    requires forall i :: 0 <= i < |idxs| ==> idxs[i] <= SignificandLimit
    ensures LayoutAsWritten(idxs, rows, nm, horizon) == Layout(idxs, rows, nm, horizon)
  {
    assert ThroughFloat32(idxs) == idxs;
  }

  /** 2^24 + 1 is not a float32 value: no conversion lands on it. */
  lemma Float32Skips(n: nat)
    ensures Float32(n) != SignificandLimit + 1
  {
    var s := Spacing(n, 1);
    if n <= SignificandLimit {
    } else if n < 2 * SignificandLimit {
      assert s == Spacing(n, 2) == 2;
      var q := n / s;
      assert Float32(n) == q * 2 || Float32(n) == (q + 1) * 2;
    } else {
      assert s != 1;
    }
  }

  /**
   * With more than 2^24 slots the as-written grid misplaces a slot: the
   * cell meant for slot 2^24 + 1 holds 2^24, and slot 2^24 + 1 appears
   * nowhere in it, while the exact layout places it in that cell.
   */
  lemma LayoutAsWrittenMisplaces(idxs: seq<nat>, rows: nat, nm: nat, horizon: nat, p: nat)
    requires |idxs| == rows * nm * horizon + 1 && p < |idxs| - 1
    requires idxs[p] == SignificandLimit + 1
    ensures nm > 0 && horizon > 0
    ensures Layout(idxs, rows, nm, horizon).Ok? && LayoutAsWritten(idxs, rows, nm, horizon).Ok?
    ensures var (mb, row, h) := CellOf(p, nm, horizon);
      mb < nm && row < rows && h < horizon
      && Layout(idxs, rows, nm, horizon).value[mb][row][h] == SignificandLimit + 1
      && LayoutAsWritten(idxs, rows, nm, horizon).value[mb][row][h] == SignificandLimit
    ensures !Placed(LayoutAsWritten(idxs, rows, nm, horizon).value, rows, nm, horizon, SignificandLimit + 1)
  {
    var flat := DropLast(idxs);
    var rounded := ThroughFloat32(idxs);
    var flat' := DropLast(rounded);
    ReshapeBijective(flat, rows, nm, horizon, p);
    ReshapeBijective(flat', rows, nm, horizon, p);
    assert flat'[p] == Float32(SignificandLimit + 1) == SignificandLimit by {
      var s := Spacing(SignificandLimit + 1, 1);
      assert s == Spacing(SignificandLimit + 1, 2) == 2;
    }
    var g' := LayoutAsWritten(idxs, rows, nm, horizon).value;
    forall mb, row, h | 0 <= mb < nm && 0 <= row < rows && 0 <= h < horizon
      ensures g'[mb][row][h] != SignificandLimit + 1
    {
      ReshapeAt(flat', rows, nm, horizon, mb, row, h);
      Float32Skips(idxs[Position(mb, row, h, nm, horizon)]);
    }
  }
}
