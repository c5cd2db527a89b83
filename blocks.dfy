/**
  Boolean-mask blocks over the flat parameter vector of the first-generation
  state (`cbamf/states.py`): reading (`state[block]`) and writing
  (`state[block] = data`) through a mask, the `block_*` constructors and
  `explode`.
*/
module Blocks {
  import Voxels
  import opened CbamfUtil

  /** A boolean mask over the parameter vector. */
  type Block = seq<bool>

  /** The number of set bits (`block.sum()`). */
  function Count(b: Block): nat { Voxels.Count(b) }

  lemma CountStep(b: Block, i: nat)
    requires i < |b|
    ensures Count(b[..i + 1]) == Count(b[..i]) + (if b[i] then 1 else 0)
  {
    assert b[..i + 1][..i] == b[..i];
  }

  lemma {:induction false} CountPrefixMono(b: Block, i: nat, j: nat)
    requires i <= j <= |b|
    ensures Count(b[..i]) <= Count(b[..j])
    decreases j - i
  {
    if i < j {
      CountStep(b, j - 1);
      CountPrefixMono(b, i, j - 1);
    }
  }

  /** The rank of a set bit is a valid index into the data written there. */
  lemma CountPrefixBound(b: Block, i: nat)
    requires i < |b| && b[i]
    ensures Count(b[..i]) < Count(b)
  {
    CountStep(b, i);
    CountPrefixMono(b, i + 1, |b|);
    assert b[..|b|] == b;
  }

  /** `state[block]`: the entries the mask selects, in index order. */
  function Gather(s: seq<real>, b: Block): (g: seq<real>)
    requires |s| == |b|
    ensures |g| == Count(b)
  {
    if |s| == 0 then []
    else Gather(s[..|s| - 1], b[..|b| - 1]) + (if b[|b| - 1] then [s[|s| - 1]] else [])
  }

  /** The entry of `state[block]` that comes from a set bit `i`. */
  lemma {:induction false} GatherAt(s: seq<real>, b: Block, i: nat)
    requires |s| == |b| && i < |b| && b[i]
    ensures Count(b[..i]) < Count(b)
    ensures Gather(s, b)[Count(b[..i])] == s[i]
  {
    CountPrefixBound(b, i);
    var n := |s|;
    if i < n - 1 {
      assert (b[..n - 1])[..i] == b[..i];
      GatherAt(s[..n - 1], b[..n - 1], i);
    } else {
      assert b[..n - 1] == b[..i];
    }
  }

  /** `state[block] = data`, pointwise: a set bit `i` receives the datum of its rank. */
  function Scatter(s: seq<real>, b: Block, d: seq<real>): (r: seq<real>)
    requires |s| == |b| && |d| == Count(b)
    ensures |r| == |s|
  {
    seq(|s|, i requires 0 <= i < |s| => if b[i] then (CountPrefixBound(b, i); d[Count(b[..i])]) else s[i])
  }

  /** The in-place form of `Scatter`: `a[block] = data` on an array. */
  method ScatterInto(a: array<real>, block: Block, data: seq<real>)
    requires |block| == a.Length && |data| == Count(block)
    modifies a
    ensures a[..] == Scatter(old(a[..]), block, data)
  {
    forall i | 0 <= i < a.Length && block[i]
      ensures Count(block[..i]) < |data|
    {
      CountPrefixBound(block, i);
    }
    forall i | 0 <= i < a.Length && block[i] {
      a[i] := data[Count(block[..i])];
    }
    assert forall i :: 0 <= i < a.Length ==> a[..][i] == Scatter(old(a[..]), block, data)[i];
  }

  /** A write leaves every entry outside the block unchanged. */
  lemma ScatterOff(s: seq<real>, b: Block, d: seq<real>)
    requires |s| == |b| && |d| == Count(b)
    ensures forall i :: 0 <= i < |s| && !b[i] ==> Scatter(s, b, d)[i] == s[i]
  {
  }

  /** Writing back what was read changes nothing. */
  lemma ScatterGather(s: seq<real>, b: Block)
    requires |s| == |b|
    ensures Scatter(s, b, Gather(s, b)) == s
  {
    forall i | 0 <= i < |s| && b[i]
      ensures Scatter(s, b, Gather(s, b))[i] == s[i]
    {
      GatherAt(s, b, i);
    }
  }

  /** A later write on the same block overrides an earlier one. */
  lemma ScatterScatter(s: seq<real>, b: Block, d1: seq<real>, d2: seq<real>)
    requires |s| == |b| && |d1| == Count(b) && |d2| == Count(b)
    ensures Scatter(Scatter(s, b, d1), b, d2) == Scatter(s, b, d2)
  {
  }

  /** Writing a snapshot taken before a write on the same block restores the vector. */
  lemma ScatterRestore(s: seq<real>, b: Block, d: seq<real>)
    requires |s| == |b| && |d| == Count(b)
    ensures Scatter(Scatter(s, b, d), b, Gather(s, b)) == s
  {
    ScatterScatter(s, b, d, Gather(s, b));
    ScatterGather(s, b);
  }

  /** Reading a block just written returns the data written. */
  lemma {:induction false} GatherScatter(s: seq<real>, b: Block, d: seq<real>)
    requires |s| == |b| && |d| == Count(b)
    ensures Gather(Scatter(s, b, d), b) == d
  {
    var g := Gather(Scatter(s, b, d), b);
    forall k | 0 <= k < |d|
      ensures g[k] == d[k]
    {
      var i := RankedIndex(b, k);
      GatherAt(Scatter(s, b, d), b, i);
    }
  }

  /** The set bit of a given rank. */
  lemma {:induction false} RankedIndex(b: Block, k: nat) returns (i: nat)
    requires k < Count(b)
    ensures i < |b| && b[i] && Count(b[..i]) == k
  {
    var n := |b|;
    assert b[..n - 1] == b[..|b| - 1];
    if b[n - 1] && k == Count(b[..n - 1]) {
      i := n - 1;
    } else {
      i := RankedIndex(b[..n - 1], k);
      assert b[..n - 1][..i] == b[..i];
    }
  }

  /** `data + dl`, elementwise. */
  function Shift(g: seq<real>, dl: real): (r: seq<real>)
    ensures |r| == |g|
  {
    seq(|g|, k requires 0 <= k < |g| => g[k] + dl)
  }

  /** `self.state[block] + dl` written back to `block`. */
  function Perturb(s: seq<real>, b: Block, dl: real): (r: seq<real>)
    requires |s| == |b|
    ensures |r| == |s|
  {
    Scatter(s, b, Shift(Gather(s, b), dl))
  }

  /** A perturbation moves exactly the block's entries, each by `dl`. */
  lemma PerturbAt(s: seq<real>, b: Block, dl: real)
    requires |s| == |b|
    ensures forall i :: 0 <= i < |s| ==> Perturb(s, b, dl)[i] == if b[i] then s[i] + dl else s[i]
  {
    forall i | 0 <= i < |s| && b[i]
      ensures Perturb(s, b, dl)[i] == s[i] + dl
    {
      GatherAt(s, b, i);
    }
  }

  /** Perturbations of two blocks commute. */
  lemma PerturbCommute(s: seq<real>, b0: Block, b1: Block, dl: real)
    requires |s| == |b0| == |b1|
    ensures Perturb(Perturb(s, b0, dl), b1, dl) == Perturb(Perturb(s, b1, dl), b0, dl)
  {
    var x := Perturb(Perturb(s, b0, dl), b1, dl);
    var y := Perturb(Perturb(s, b1, dl), b0, dl);
    PerturbAt(s, b0, dl);
    PerturbAt(s, b1, dl);
    PerturbAt(Perturb(s, b0, dl), b1, dl);
    PerturbAt(Perturb(s, b1, dl), b0, dl);
    assert forall i :: 0 <= i < |s| ==> x[i] == y[i];
  }

  /** Perturbing one block twice adds the steps. */
  lemma PerturbTwice(s: seq<real>, b: Block, dl: real)
    requires |s| == |b|
    ensures Perturb(Perturb(s, b, dl), b, dl) == Perturb(s, b, 2.0 * dl)
  {
    var x := Perturb(Perturb(s, b, dl), b, dl);
    var y := Perturb(s, b, 2.0 * dl);
    PerturbAt(s, b, dl);
    PerturbAt(Perturb(s, b, dl), b, dl);
    PerturbAt(s, b, 2.0 * dl);
    assert forall i :: 0 <= i < |s| ==> x[i] == y[i];
  }

  /** `block_all()`. */
  function BlockAll(n: nat): (b: Block)
    ensures |b| == n && forall i :: 0 <= i < n ==> b[i]
  {
    seq(n, _ => true)
  }

  /** `block_none()`. */
  function BlockNone(n: nat): (b: Block)
    ensures |b| == n && forall i :: 0 <= i < n ==> !b[i]
  {
    seq(n, _ => false)
  }

  /** `block_range(bmin, bmax)` as written: after `bmin = max(bmin, 0)` and
      `bmax = min(bmax, nparams)`, `block[bmin:bmax] = True` follows Python's
      slice rules, so a negative `bmax` counts from the end. */
  function BlockRangeAsWritten(n: nat, lo: int, hi: int): (b: Block)
    ensures |b| == n
  {
    var s := Voxels.SliceBound(Max(lo, 0), n);
    var e := Voxels.SliceBound(Min(hi, n), n);
    seq(n, i => s <= i < e)
  }

  /** A negative upper bound selects a nonempty prefix: `block_range(0, -1)`
      on three parameters marks indices 0 and 1. */
  lemma BlockRangeNegativeUpper()
    ensures BlockRangeAsWritten(3, 0, -1) == [true, true, false]
  {
  }

  /** `block_range(bmin, bmax)` with the evident intent of its clamping: true
      exactly on `[max(bmin, 0), min(bmax, nparams))`. */
  function BlockRange(n: nat, lo: int, hi: int): (b: Block)
    ensures |b| == n
    ensures forall i :: 0 <= i < n ==> (b[i] <==> Max(lo, 0) <= i < Min(hi, n))
  {
    seq(n, i => Max(lo, 0) <= i < Min(hi, n))
  }

  /** For every nonnegative upper bound (all the callers' cases) the two agree. */
  lemma BlockRangeAgrees(n: nat, lo: int, hi: int)
    requires hi >= 0
    ensures BlockRangeAsWritten(n, lo, hi) == BlockRange(n, lo, hi)
  {
  }

  /** A block true exactly on `[lo, hi)` has `hi - lo` bits. */
  lemma CountRun(b: Block, lo: nat, hi: nat)
    requires lo <= hi <= |b|
    requires forall k :: 0 <= k < |b| ==> (b[k] <==> lo <= k < hi)
    ensures Count(b) == hi - lo
  {
    forall m | 0 <= m <= |b|
      ensures Count(b[..m]) == if m <= lo then 0 else if m <= hi then m - lo else hi - lo
    {
      CountRunPrefix(b, lo, hi, m);
    }
    assert b[..|b|] == b;
  }

  lemma {:induction false} CountRunPrefix(b: Block, lo: nat, hi: nat, m: nat)
    requires lo <= hi <= |b| && m <= |b|
    requires forall k :: 0 <= k < |b| ==> (b[k] <==> lo <= k < hi)
    ensures Count(b[..m]) == if m <= lo then 0 else if m <= hi then m - lo else hi - lo
  {
    if m > 0 {
      CountStep(b, m - 1);
      CountRunPrefix(b, lo, hi, m - 1);
    }
  }

  /** Reading a range block is taking the slice. */
  lemma GatherRange(s: seq<real>, lo: nat, hi: nat)
    requires lo <= hi <= |s|
    ensures Gather(s, BlockRange(|s|, lo, hi)) == s[lo..hi]
  {
    var b := BlockRange(|s|, lo, hi);
    var g := Gather(s, b);
    var t := s[lo..hi];
    CountRun(b, lo, hi);
    assert |g| == |t|;
    forall k | 0 <= k < |t|
      ensures g[k] == t[k]
    {
      GatherRangeAt(s, b, lo, hi, k);
    }
  }

  lemma GatherRangeAt(s: seq<real>, b: Block, lo: nat, hi: nat, k: nat)
    requires lo <= hi <= |s| && b == BlockRange(|s|, lo, hi) && k < hi - lo
    ensures Count(b) == hi - lo
    ensures Gather(s, b)[k] == s[lo + k]
  {
    CountRun(b, lo, hi);
    CountRunPrefix(b, lo, hi, lo + k);
    GatherAt(s, b, lo + k);
  }

  /** The block with the single bit `i`. */
  function Singleton(n: nat, i: nat): (b: Block)
    ensures |b| == n && forall k :: 0 <= k < n ==> (b[k] <==> k == i)
  {
    seq(n, k => k == i)
  }

  /** `np.arange(len(block))[block]`: the set indices in ascending order. */
  function SetIndices(b: Block): (r: seq<nat>)
    ensures |r| == Count(b)
    ensures forall k :: 0 <= k < |r| ==> r[k] < |b| && b[r[k]]
  {
    if |b| == 0 then []
    else SetIndices(b[..|b| - 1]) + (if b[|b| - 1] then [|b| - 1] else [])
  }

  /** The set indices are strictly ascending and list every set bit. */
  lemma {:induction false} SetIndicesSpec(b: Block)
    ensures forall k, k' :: 0 <= k < k' < |SetIndices(b)| ==> SetIndices(b)[k] < SetIndices(b)[k']
    ensures forall i :: 0 <= i < |b| && b[i] ==> i in SetIndices(b)
  {
    if |b| > 0 {
      SetIndicesSpec(b[..|b| - 1]);
      assert forall i :: 0 <= i < |b| - 1 ==> b[..|b| - 1][i] == b[i];
    }
  }

  /** What `explode(block)` returns: one single-bit block per set index, in ascending order. */
  function Exploded(n: nat, b: Block): (bs: seq<Block>)
    requires |b| == n
    ensures |bs| == Count(b)
  {
    var inds := SetIndices(b);
    seq(|inds|, k requires 0 <= k < |inds| => Singleton(n, inds[k]))
  }

  /** `explode(block)`, filling the list one singleton at a time. */
  method Explode(n: nat, b: Block) returns (blocks: seq<Block>)
    requires |b| == n
    ensures blocks == Exploded(n, b)
  {
    var inds := SetIndices(b);
    blocks := [];
    var k := 0;
    while k < |inds|
      invariant 0 <= k <= |inds|
      invariant blocks == Exploded(n, b)[..k]
    {
      var t := BlockNone(n);
      t := t[inds[k] := true];
      assert t == Singleton(n, inds[k]);
      blocks := blocks + [t];
      k := k + 1;
    }
  }

  /** The exploded blocks each hold exactly one bit, are ordered by that bit,
      and together are the original block. */
  lemma ExplodedProps(n: nat, b: Block)
    requires |b| == n
    ensures forall k :: 0 <= k < |Exploded(n, b)| ==> |Exploded(n, b)[k]| == n && Count(Exploded(n, b)[k]) == 1
    ensures forall k, k' :: 0 <= k < k' < |Exploded(n, b)| ==> SetIndices(b)[k] < SetIndices(b)[k']
    ensures forall k :: 0 <= k < |Exploded(n, b)| ==> SetIndices(b)[k] < n && Exploded(n, b)[k][SetIndices(b)[k]]
    ensures forall i :: 0 <= i < n ==> (b[i] <==> exists k :: 0 <= k < |Exploded(n, b)| && Exploded(n, b)[k][i])
  {
    var blocks := Exploded(n, b);
    SetIndicesSpec(b);
    forall k | 0 <= k < |blocks|
      ensures Count(blocks[k]) == 1
    {
      SingletonCount(n, SetIndices(b)[k]);
    }
    forall i | 0 <= i < n && b[i]
      ensures exists k :: 0 <= k < |blocks| && blocks[k][i]
    {
      var k :| 0 <= k < |SetIndices(b)| && SetIndices(b)[k] == i;
      assert blocks[k][i];
    }
  }

  lemma {:induction false} SingletonCount(n: nat, i: nat)
    requires i < n
    ensures Count(Singleton(n, i)) == 1
  {
    var s := Singleton(n, i);
    forall k | 0 <= k <= n
      ensures Count(s[..k]) == if k <= i then 0 else 1
    {
      SingletonPrefixCount(n, i, k);
    }
    assert s[..n] == s;
  }

  lemma {:induction false} SingletonPrefixCount(n: nat, i: nat, k: nat)
    requires i < n && k <= n
    ensures Count(Singleton(n, i)[..k]) == if k <= i then 0 else 1
  {
    if k > 0 {
      CountStep(Singleton(n, i), k - 1);
      SingletonPrefixCount(n, i, k - 1);
    }
  }
}
