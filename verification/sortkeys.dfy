/**
 * Sort keys of the experience buffer and the stable argsort that `train`
 * applies to them before laying out minibatches.
 */
module SortKeys {

  /** The tuple `(buf, idx, step)` appended for every written buffer slot. */
  datatype Key = Key(buf: nat, idx: nat, step: nat)

  /** Python's strict lexicographic order on `(buf, idx, step)` tuples. */
  predicate Less(a: Key, b: Key) {
    || a.buf < b.buf
    || (a.buf == b.buf && a.idx < b.idx)
    || (a.buf == b.buf && a.idx == b.idx && a.step < b.step)
  }

  /** Position `x` precedes position `y` in a stable sort of `keys`. */
  predicate Before(keys: seq<Key>, x: nat, y: nat)
    requires x < |keys| && y < |keys|
  {
    Less(keys[x], keys[y]) || (keys[x] == keys[y] && x < y)
  }

  /** Every entry of `p` is a position below `n`. */
  predicate InRange(p: seq<nat>, n: nat) {
    forall j :: 0 <= j < |p| ==> p[j] < n
  }

  /** `p` lists positions of `keys` strictly increasing under `Before`. */
  predicate SortedBy(keys: seq<Key>, p: seq<nat>)
    requires InRange(p, |keys|)
  {
    forall a, b :: 0 <= a < b < |p| ==> Before(keys, p[a], p[b])
  }

  /** `range(n)` as a sequence. */
  function Range(n: nat): (r: seq<nat>)
    ensures |r| == n
    ensures forall i :: 0 <= i < n ==> r[i] == i
  {
    seq(n, i => i)
  }

  /** `Before` is total on distinct positions. */
  lemma BeforeTotal(keys: seq<Key>, x: nat, y: nat)
    requires x < |keys| && y < |keys| && x != y
    ensures Before(keys, x, y) || Before(keys, y, x)
  {
  }

  /** `Before` is asymmetric. */
  lemma BeforeAsymmetric(keys: seq<Key>, x: nat, y: nat)
    requires x < |keys| && y < |keys|
    ensures !(Before(keys, x, y) && Before(keys, y, x))
  {
  }

  /** Inserts position `x`, larger than every position of `p`, into sorted `p`. */
  function Insert(keys: seq<Key>, x: nat, p: seq<nat>): (r: seq<nat>)
    requires x < |keys| && InRange(p, x) && SortedBy(keys, p)
    ensures |r| == |p| + 1
    ensures InRange(r, x + 1)
    ensures multiset(r) == multiset(p) + multiset{x}
    ensures SortedBy(keys, r)
  {
    if |p| == 0 || Before(keys, x, p[0]) then
      InsertFront(keys, x, p);
      [x] + p
    else
      InsertTail(keys, x, p);
      var rest := Insert(keys, x, p[1..]);
      InsertHead(keys, x, p, rest);
      assert p == [p[0]] + p[1..];
      [p[0]] + rest
  }

  /** The tail of sorted `p` is sorted and stays below `x`. */
  lemma InsertTail(keys: seq<Key>, x: nat, p: seq<nat>)
    requires x < |keys| && InRange(p, x) && SortedBy(keys, p) && |p| > 0
    ensures InRange(p[1..], x) && SortedBy(keys, p[1..])
  {
    assert InRange(p, |keys|);
    SortedTail(keys, p);
  }

  /** `Before` is transitive. */
  lemma BeforeTransitive(keys: seq<Key>, x: nat, y: nat, z: nat)
    requires x < |keys| && y < |keys| && z < |keys|
    requires Before(keys, x, y) && Before(keys, y, z)
    ensures Before(keys, x, z)
  {
  }

  /** A position that precedes the head of sorted `p` may go in front of it. */
  lemma InsertFront(keys: seq<Key>, x: nat, p: seq<nat>)
    requires x < |keys| && InRange(p, x) && SortedBy(keys, p)
    requires |p| == 0 || Before(keys, x, p[0])
    ensures InRange([x] + p, x + 1) && SortedBy(keys, [x] + p)
  {
    var r := [x] + p;
    forall a, b | 0 <= a < b < |r|
      ensures Before(keys, r[a], r[b])
    {
      assert r[b] == p[b - 1];
      if a == 0 {
        if b > 1 {
          BeforeTransitive(keys, x, p[0], p[b - 1]);
        }
      } else {
        assert r[a] == p[a - 1];
      }
    }
  }

  /** The head of sorted `p` precedes everything inserted behind it. */
  lemma InsertHead(keys: seq<Key>, x: nat, p: seq<nat>, rest: seq<nat>)
    requires x < |keys| && InRange(p, x) && SortedBy(keys, p) && |p| > 0
    requires !Before(keys, x, p[0])
    requires InRange(rest, |keys|) && SortedBy(keys, rest)
    requires multiset(rest) == multiset(p[1..]) + multiset{x}
    ensures SortedBy(keys, [p[0]] + rest)
  {
    forall j | 0 <= j < |rest|
      ensures Before(keys, p[0], rest[j])
    {
      assert rest[j] in multiset(rest);
      if rest[j] == x {
        BeforeTotal(keys, x, p[0]);
      } else {
        assert rest[j] in multiset(p[1..]);
        var k :| 0 <= k < |p[1..]| && p[1..][k] == rest[j];
        assert p[k + 1] == rest[j];
      }
    }
    var r := [p[0]] + rest;
    forall a, b | 0 <= a < b < |r|
      ensures Before(keys, r[a], r[b])
    {
      if a == 0 {
        assert r[b] == rest[b - 1];
      } else {
        assert r[a] == rest[a - 1] && r[b] == rest[b - 1];
      }
    }
  }

  /** The stable argsort of the first `n` keys: `sorted(range(n), key=keys.__getitem__)`. */
  function ArgSortPrefix(keys: seq<Key>, n: nat): (r: seq<nat>)
    requires n <= |keys|
    ensures |r| == n
    ensures InRange(r, n)
    ensures multiset(r) == multiset(Range(n))
    ensures SortedBy(keys, r)
  {
    if n == 0 then []
    else
      var r := Insert(keys, n - 1, ArgSortPrefix(keys, n - 1));
      assert Range(n) == Range(n - 1) + [n - 1];
      r
  }

  /** The argsort `train` computes over all collected keys. */
  function ArgSort(keys: seq<Key>): (r: seq<nat>)
    ensures |r| == |keys|
    ensures InRange(r, |keys|)
    ensures multiset(r) == multiset(Range(|keys|))
    ensures SortedBy(keys, r)
  {
    ArgSortPrefix(keys, |keys|)
  }

  /** Every position below `|keys|` occurs in the argsort exactly once. */
  lemma ArgSortIsPermutation(keys: seq<Key>, i: nat)
    requires i < |keys|
    ensures multiset(ArgSort(keys))[i] == 1
  {
    var r := Range(|keys|);
    assert r == Range(i) + [i] + r[i + 1..];
    assert i !in Range(i);
    var tail := r[i + 1..];
    assert i !in tail by {
      forall j | 0 <= j < |tail|
        ensures tail[j] != i
      {
        assert tail[j] == r[i + 1 + j];
      }
    }
  }

  /**
   * The sorted order is unique: any permutation of the same positions that is
   * sorted under `Before` equals the argsort, so the result does not depend
   * on which sorting algorithm Python uses.
   */
  lemma {:induction false} SortedUnique(keys: seq<Key>, p: seq<nat>, q: seq<nat>)
    requires InRange(p, |keys|) && InRange(q, |keys|)
    requires SortedBy(keys, p) && SortedBy(keys, q)
    requires multiset(p) == multiset(q)
    ensures p == q
  {
    if |p| == 0 {
      assert |multiset(q)| == 0;
    } else {
      assert |q| == |multiset(q)| == |multiset(p)| == |p|;
      SortedHeadsEqual(keys, p, q);
      SortedTail(keys, p);
      SortedTail(keys, q);
      assert p == [p[0]] + p[1..] && q == [q[0]] + q[1..];
      assert multiset(p[1..]) == multiset(p) - multiset{p[0]};
      assert multiset(q[1..]) == multiset(q) - multiset{q[0]};
      SortedUnique(keys, p[1..], q[1..]);
    }
  }

  /** Two sorted arrangements of the same positions start with the same one. */
  lemma SortedHeadsEqual(keys: seq<Key>, p: seq<nat>, q: seq<nat>)
    requires InRange(p, |keys|) && InRange(q, |keys|)
    requires SortedBy(keys, p) && SortedBy(keys, q)
    requires multiset(p) == multiset(q) && |p| > 0 && |q| > 0
    ensures p[0] == q[0]
  {
    assert p[0] in multiset(q) && q[0] in multiset(p);
    var i :| 0 <= i < |p| && p[i] == q[0];
    var j :| 0 <= j < |q| && q[j] == p[0];
    if i != 0 {
      assert Before(keys, p[0], p[i]);
      assert j != 0;
      assert Before(keys, q[0], q[j]);
      BeforeAsymmetric(keys, p[0], q[0]);
      assert false;
    }
  }

  /** Dropping the head keeps a sorted arrangement sorted. */
  lemma SortedTail(keys: seq<Key>, p: seq<nat>)
    requires InRange(p, |keys|) && SortedBy(keys, p) && |p| > 0
    ensures InRange(p[1..], |keys|) && SortedBy(keys, p[1..])
  {
    var t := p[1..];
    forall a, b | 0 <= a < b < |t|
      ensures Before(keys, t[a], t[b])
    {
      assert t[a] == p[a + 1] && t[b] == p[b + 1];
    }
  }

  /**
   * When keys are pairwise distinct (as the evaluate loop produces them), the
   * argsort lists them in strictly increasing lexicographic order, and all
   * keys of one `(buf, idx)` agent slot form one contiguous run.
   */
  lemma SortedRuns(keys: seq<Key>, a: nat, c: nat, b: nat)
    requires forall x, y :: 0 <= x < y < |keys| ==> keys[x] != keys[y]
    requires a <= c <= b < |keys|
    ensures Less(keys[ArgSort(keys)[a]], keys[ArgSort(keys)[c]]) || a == c
    ensures var r := ArgSort(keys);
      keys[r[a]].buf == keys[r[b]].buf && keys[r[a]].idx == keys[r[b]].idx ==>
        keys[r[c]].buf == keys[r[a]].buf && keys[r[c]].idx == keys[r[a]].idx
          && (a < c ==> keys[r[a]].step < keys[r[c]].step)
  {
    var r := ArgSort(keys);
    if a < c {
      assert Before(keys, r[a], r[c]);
      assert keys[r[a]] != keys[r[c]] by {
        assert r[a] != r[c] by {
          assert Before(keys, r[a], r[c]);
        }
      }
    }
    if c < b {
      assert Before(keys, r[c], r[b]);
      assert r[c] != r[b];
    }
  }
}
