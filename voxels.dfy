/**
  Dense 3-D images stored flat in C order, NumPy's basic slicing of such an
  image by a box, and sums of per-voxel values over a masked region.
  These are the vectorised array operations that the modelled Python code
  performs with NumPy (`field[slicer].sum()`, `field[slicer] = ...`).
*/
module Voxels {

  /** The shape `(z, y, x)` of an image. */
  datatype Shape = Shape(nz: nat, ny: nat, nx: nat)

  function Size(sh: Shape): nat { sh.nz * sh.ny * sh.nx }

  function Dim(sh: Shape, a: nat): nat
    requires a < 3
  {
    if a == 0 then sh.nz else if a == 1 then sh.ny else sh.nx
  }

  /** The `(z, y, x)` coordinates of flat voxel `v`. */
  function Coords(sh: Shape, v: nat): (c: seq<int>)
    ensures |c| == 3
  {
    if sh.ny == 0 || sh.nx == 0 then [0, 0, 0]
    else [v / (sh.ny * sh.nx), (v / sh.nx) % sh.ny, v % sh.nx]
  }

  /** Python's normalisation of one slice bound against an axis of length `n`:
      a negative bound counts from the end, and the result is clipped to `[0, n]`. */
  function SliceBound(s: int, n: nat): (b: int)
    ensures 0 <= b <= n
    ensures 0 <= s <= n ==> b == s
  {
    if s < 0 then (if s + n < 0 then 0 else s + n)
    else if s > n then n
    else s
  }

  /** Whether voxel `v` is selected by `image[l[0]:r[0], l[1]:r[1], l[2]:r[2]]`. */
  predicate InSlice(l: seq<int>, r: seq<int>, sh: Shape, v: nat)
    requires |l| >= 3 && |r| >= 3
  {
    var c := Coords(sh, v);
    && SliceBound(l[0], sh.nz) <= c[0] < SliceBound(r[0], sh.nz)
    && SliceBound(l[1], sh.ny) <= c[1] < SliceBound(r[1], sh.ny)
    && SliceBound(l[2], sh.nx) <= c[2] < SliceBound(r[2], sh.nx)
  }

  /** The mask of the voxels a box slicer selects. */
  function SliceMask(l: seq<int>, r: seq<int>, sh: Shape): (m: seq<bool>)
    requires |l| >= 3 && |r| >= 3
    ensures |m| == Size(sh)
    ensures forall v :: 0 <= v < |m| ==> (m[v] <==> InSlice(l, r, sh, v))
  {
    seq(Size(sh), v requires 0 <= v => InSlice(l, r, sh, v))
  }

  /** The mask selecting every voxel (`np.s_[:]`). */
  function FullMask(n: nat): (m: seq<bool>)
    ensures |m| == n && forall v :: 0 <= v < n ==> m[v]
  {
    seq(n, _ => true)
  }

  /** `f.sum()`. */
  function Sum(f: seq<real>): real
  {
    if |f| == 0 then 0.0 else Sum(f[..|f| - 1]) + f[|f| - 1]
  }

  /** `f[m].sum()`: the sum of the entries of `f` that `m` selects. */
  function SumWhere(f: seq<real>, m: seq<bool>): real
    requires |f| == |m|
  {
    if |f| == 0 then 0.0
    else SumWhere(f[..|f| - 1], m[..|m| - 1]) + (if m[|m| - 1] then f[|f| - 1] else 0.0)
  }

  /** Summing over the full mask is summing everything. */
  lemma {:induction false} SumWhereFull(f: seq<real>, m: seq<bool>)
    requires |f| == |m|
    requires forall v :: 0 <= v < |m| ==> m[v]
    ensures SumWhere(f, m) == Sum(f)
  {
    if |f| > 0 {
      SumWhereFull(f[..|f| - 1], m[..|m| - 1]);
    }
  }

  /** The entries outside a mask contribute nothing: two fields that agree on
      the mask have the same masked sum. */
  lemma {:induction false} SumWhereAgree(f: seq<real>, g: seq<real>, m: seq<bool>)
    requires |f| == |m| && |g| == |m|
    requires forall v :: 0 <= v < |m| && m[v] ==> f[v] == g[v]
    ensures SumWhere(f, m) == SumWhere(g, m)
  {
    if |f| > 0 {
      SumWhereAgree(f[..|f| - 1], g[..|g| - 1], m[..|m| - 1]);
    }
  }

  /** Replacing a field on a mask changes its sum by the new masked sum minus
      the old one: the differencing rule of the cached log-likelihood. */
  lemma {:induction false} SumReplace(f: seq<real>, g: seq<real>, m: seq<bool>)
    requires |f| == |m| && |g| == |m|
    requires forall v :: 0 <= v < |m| && !m[v] ==> f[v] == g[v]
    ensures Sum(g) == Sum(f) - SumWhere(f, m) + SumWhere(g, m)
  {
    if |f| > 0 {
      SumReplace(f[..|f| - 1], g[..|g| - 1], m[..|m| - 1]);
    }
  }

  /** Scaling every selected entry scales the masked sum. */
  lemma {:induction false} SumWhereScale(f: seq<real>, g: seq<real>, m: seq<bool>, c: real)
    requires |f| == |m| && |g| == |m|
    requires forall v :: 0 <= v < |m| ==> g[v] == c * f[v]
    ensures SumWhere(g, m) == c * SumWhere(f, m)
  {
    if |f| > 0 {
      SumWhereScale(f[..|f| - 1], g[..|g| - 1], m[..|m| - 1], c);
    }
  }

  /** The masked sum is additive in the field. */
  lemma {:induction false} SumWhereAdd(f: seq<real>, g: seq<real>, h: seq<real>, m: seq<bool>)
    requires |f| == |m| && |g| == |m| && |h| == |m|
    requires forall v :: 0 <= v < |m| ==> h[v] == f[v] + g[v]
    ensures SumWhere(h, m) == SumWhere(f, m) + SumWhere(g, m)
  {
    if |f| > 0 {
      SumWhereAdd(f[..|f| - 1], g[..|g| - 1], h[..|h| - 1], m[..|m| - 1]);
    }
  }

  /** The number of voxels a mask selects (`m.sum()`, `res.size`). */
  function Count(m: seq<bool>): nat
  {
    if |m| == 0 then 0 else Count(m[..|m| - 1]) + (if m[|m| - 1] then 1 else 0)
  }

  /** A constant field sums to the constant times the selected count. */
  lemma {:induction false} SumWhereConst(f: seq<real>, m: seq<bool>, c: real)
    requires |f| == |m|
    requires forall v :: 0 <= v < |m| ==> f[v] == c
    ensures SumWhere(f, m) == c * (Count(m) as real)
  {
    if |f| > 0 {
      SumWhereConst(f[..|f| - 1], m[..|m| - 1], c);
    }
  }
}
