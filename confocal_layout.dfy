/**
  The parameter layout of `ConfocalImagePython` (`cbamf/states.py`): the
  named contiguous blocks in `param_order`, the per-particle blocks, the
  particles a block touches, the bounds filter of `prepare_for_state`, and
  the pure tile computation `_tile_from_particle_change`.
*/
module ConfocalLayout {
  import opened Wrappers
  import opened Blocks
  import Voxels
  import opened CbamfUtil

  /** The sizes the layout is built from: `N = obj.N`, the `varyn` flag and
      the lengths of the PSF and ILM parameter vectors. */
  datatype Layout = Layout(n: nat, varyn: bool, npsf: nat, nilm: nat)

  const ParamOrder: seq<string> := ["pos", "rad", "typ", "psf", "ilm", "off", "zscale", "sigma"]

  /** `param_lengths`: `typ` has `N * varyn` entries. */
  function ParamLengths(L: Layout): (ls: seq<nat>)
    ensures |ls| == |ParamOrder|
  {
    [3 * L.n, L.n, if L.varyn then L.n else 0, L.npsf, L.nilm, 1, 1, 1]
  }

  function SumNats(xs: seq<nat>): nat
  {
    if |xs| == 0 then 0 else SumNats(xs[..|xs| - 1]) + xs[|xs| - 1]
  }

  /** Where block `k` of `param_order` starts. */
  function Offset(L: Layout, k: nat): nat
    requires k <= |ParamOrder|
  {
    SumNats(ParamLengths(L)[..k])
  }

  /** `nparams = sum(param_lengths)`. */
  function NParams(L: Layout): nat { Offset(L, |ParamOrder|) }

  lemma OffsetStep(L: Layout, k: nat)
    requires k < |ParamOrder|
    ensures Offset(L, k + 1) == Offset(L, k) + ParamLengths(L)[k]
  {
    assert ParamLengths(L)[..k + 1][..k] == ParamLengths(L)[..k];
  }

  /** The offsets in closed form. */
  lemma OffsetValues(L: Layout)
    ensures Offset(L, 0) == 0
    ensures Offset(L, 1) == 3 * L.n
    ensures Offset(L, 2) == 4 * L.n
    ensures Offset(L, 3) == 4 * L.n + (if L.varyn then L.n else 0)
    ensures Offset(L, 4) == Offset(L, 3) + L.npsf
    ensures Offset(L, 5) == Offset(L, 4) + L.nilm
    ensures Offset(L, 6) == Offset(L, 5) + 1
    ensures Offset(L, 7) == Offset(L, 6) + 1
    ensures NParams(L) == Offset(L, 7) + 1
  {
    OffsetStep(L, 0); OffsetStep(L, 1); OffsetStep(L, 2); OffsetStep(L, 3);
    OffsetStep(L, 4); OffsetStep(L, 5); OffsetStep(L, 6); OffsetStep(L, 7);
  }

  lemma {:induction false} OffsetMono(L: Layout, j: nat, k: nat)
    requires j <= k <= |ParamOrder|
    ensures Offset(L, j) <= Offset(L, k)
    decreases k - j
  {
    if j < k {
      OffsetStep(L, k - 1);
      OffsetMono(L, j, k - 1);
    }
  }

  /** `list.index`: the first position of `x`, or None where Python raises ValueError. */
  function IndexOf(xs: seq<string>, x: string): (r: Option<nat>)
    ensures r.Some? ==> r.value < |xs| && xs[r.value] == x && forall j :: 0 <= j < r.value ==> xs[j] != x
    ensures r.None? ==> x !in xs
  {
    if |xs| == 0 then None
    else if xs[0] == x then Some(0)
    else match IndexOf(xs[1..], x)
      case None => None
      case Some(j) => Some(j + 1)
  }

  /** `_block_offset_end(typ)`: for a name in `param_order`, a range
      inside the vector; any other name is the `ValueError` of `index`. */
  function BlockOffsetEnd(L: Layout, name: string): (r: Option<(nat, nat)>)
    ensures r.None? <==> name !in ParamOrder
    ensures r.Some? ==> r.value.0 <= r.value.1 <= NParams(L)
  {
    match IndexOf(ParamOrder, name)
    case None => None
    case Some(k) =>
      OffsetStep(L, k);
      OffsetMono(L, k + 1, |ParamOrder|);
      Some((Offset(L, k), Offset(L, k) + ParamLengths(L)[k]))
  }

  /** `create_block(typ)`: `block_range` over the offsets. */
  function CreateBlock(L: Layout, name: string): (b: Option<Block>)
    ensures b.None? <==> name !in ParamOrder
    ensures b.Some? ==> |b.value| == NParams(L)
  {
    match BlockOffsetEnd(L, name)
    case None => None
    case Some((off, end)) => Some(BlockRange(NParams(L), off, end))
  }

  /** The block `k` of `param_order`: `[offset k, offset k+1)`. */
  function NamedBlock(L: Layout, k: nat): (b: Block)
    requires k < |ParamOrder|
    ensures |b| == NParams(L)
  {
    BlockRange(NParams(L), Offset(L, k), Offset(L, k + 1))
  }

  /** `create_block` of a name in `param_order` is its named block, lying
      inside the vector; any other name (such as the default `'all'`) raises. */
  lemma CreateBlockSpec(L: Layout, k: nat)
    requires k < |ParamOrder|
    ensures BlockOffsetEnd(L, ParamOrder[k]) == Some((Offset(L, k), Offset(L, k + 1)))
    ensures CreateBlock(L, ParamOrder[k]) == Some(NamedBlock(L, k))
    ensures Offset(L, k + 1) <= NParams(L)
    ensures forall i :: 0 <= i < NParams(L) ==> (NamedBlock(L, k)[i] <==> Offset(L, k) <= i < Offset(L, k + 1))
    ensures CreateBlock(L, "all").None?
  {
    OffsetStep(L, k);
    OffsetMono(L, k + 1, |ParamOrder|);
    ParamOrderIndex(k);
    assert BlockOffsetEnd(L, ParamOrder[k]) == Some((Offset(L, k), Offset(L, k + 1)));
    AllIsNotAParameter();
  }

  /** The names in `param_order` are distinct, so `index` finds each at its own position. */
  lemma ParamOrderIndex(k: nat)
    requires k < |ParamOrder|
    ensures IndexOf(ParamOrder, ParamOrder[k]) == Some(k)
  {
    assert forall j :: 0 <= j < |ParamOrder| && j != k ==> ParamOrder[j][0] != ParamOrder[k][0] || |ParamOrder[j]| != |ParamOrder[k]| || ParamOrder[j][1] != ParamOrder[k][1];
  }

  /** Which name sits at each position of `param_order`. */
  lemma NameAt(k: nat)
    requires k < |ParamOrder|
    ensures (ParamOrder[k] == "pos") == (k == 0) && (ParamOrder[k] == "rad") == (k == 1)
    ensures (ParamOrder[k] == "typ") == (k == 2) && (ParamOrder[k] == "psf") == (k == 3)
    ensures (ParamOrder[k] == "ilm") == (k == 4) && (ParamOrder[k] == "off") == (k == 5)
    ensures (ParamOrder[k] == "zscale") == (k == 6) && (ParamOrder[k] == "sigma") == (k == 7)
  {
    ParamOrderIndex(k);
    ParamOrderIndex(0); ParamOrderIndex(1); ParamOrderIndex(2); ParamOrderIndex(3);
    ParamOrderIndex(4); ParamOrderIndex(5); ParamOrderIndex(6); ParamOrderIndex(7);
  }

  lemma AllIsNotAParameter()
    ensures "all" !in ParamOrder
  {
    assert forall j :: 0 <= j < |ParamOrder| ==> ParamOrder[j][0] != 'a';
  }

  /** The named blocks partition the parameter vector: each index lies in
      exactly one of them. */
  lemma NamedBlocksPartition(L: Layout, i: nat)
    requires i < NParams(L)
    ensures exists k :: 0 <= k < |ParamOrder| && NamedBlock(L, k)[i]
    ensures forall k, k' ::
      (0 <= k < |ParamOrder| && 0 <= k' < |ParamOrder| && NamedBlock(L, k)[i] && NamedBlock(L, k')[i]) ==> k == k'
  {
    OffsetMono(L, 0, |ParamOrder|);
    var k := FindBlock(L, i, |ParamOrder|);
    OffsetMono(L, k + 1, |ParamOrder|);
    assert NamedBlock(L, k)[i];
    forall k, k' | 0 <= k < k' < |ParamOrder|
      ensures !(NamedBlock(L, k)[i] && NamedBlock(L, k')[i])
    {
      OffsetMono(L, k + 1, k');
    }
  }

  lemma {:induction false} FindBlock(L: Layout, i: nat, m: nat) returns (k: nat)
    requires 0 < m <= |ParamOrder| && i < Offset(L, m)
    ensures k < m && Offset(L, k) <= i < Offset(L, k + 1)
  {
    OffsetStep(L, m - 1);
    if Offset(L, m - 1) <= i {
      k := m - 1;
    } else {
      assert ParamLengths(L)[..0] == [];
      k := FindBlock(L, i, m - 1);
    }
  }

  /** The `typ` block is empty unless the particle number may vary. */
  lemma TypBlockEmpty(L: Layout)
    requires !L.varyn
    ensures forall i :: 0 <= i < NParams(L) ==> !NamedBlock(L, 2)[i]
  {
    OffsetValues(L);
  }

  /** `np.hstack`: the pieces one after another. */
  function Concat(ps: seq<seq<real>>): seq<real>
  {
    if |ps| == 0 then [] else Concat(ps[..|ps| - 1]) + ps[|ps| - 1]
  }

  /** The pieces `_build_state` stacks, in `param_order`; `typ` is stacked only with `varyn`. */
  function StatePieces(L: Layout, pos: seq<real>, rad: seq<real>, typ: seq<real>, psf: seq<real>, ilm: seq<real>,
                       off: real, zscale: real, sigma: real): (ps: seq<seq<real>>)
    ensures |ps| == |ParamOrder|
  {
    [pos, rad, if L.varyn then typ else [], psf, ilm, [off], [zscale], [sigma]]
  }

  /** Each piece has the length `param_lengths` gives it. */
  predicate PiecesFit(L: Layout, ps: seq<seq<real>>)
  {
    |ps| == |ParamOrder| && forall k :: 0 <= k < |ParamOrder| ==> |ps[k]| == ParamLengths(L)[k]
  }

  /** `_build_state`: the collaborators' parameters stacked in `param_order`. */
  method BuildState(L: Layout, pos: seq<real>, rad: seq<real>, typ: seq<real>, psf: seq<real>, ilm: seq<real>,
                    off: real, zscale: real, sigma: real) returns (s: seq<real>)
    ensures s == Concat(StatePieces(L, pos, rad, typ, psf, ilm, off, zscale, sigma))
  {
    var pieces := StatePieces(L, pos, rad, typ, psf, ilm, off, zscale, sigma);
    var out: seq<seq<real>> := [];
    var k := 0;
    while k < |ParamOrder|
      invariant 0 <= k <= |ParamOrder|
      invariant Concat(out) == Concat(pieces[..k])
    {
      var name := ParamOrder[k];
      NameAt(k);
      assert pieces[..k + 1][..k] == pieces[..k];
      if name == "pos" {
        out := out + [pos];
      }
      if name == "rad" {
        out := out + [rad];
      }
      if name == "typ" && L.varyn {
        out := out + [typ];
      }
      if name == "psf" {
        out := out + [psf];
      }
      if name == "ilm" {
        out := out + [ilm];
      }
      if name == "off" {
        out := out + [[off]];
      }
      if name == "zscale" {
        out := out + [[zscale]];
      }
      if name == "sigma" {
        out := out + [[sigma]];
      }
      k := k + 1;
    }
    assert pieces[..|ParamOrder|] == pieces;
    s := Concat(out);
  }

  lemma {:induction false} ConcatLen(L: Layout, ps: seq<seq<real>>, j: nat)
    requires PiecesFit(L, ps) && j <= |ps|
    ensures |Concat(ps[..j])| == Offset(L, j)
  {
    if j > 0 {
      assert ps[..j][..j - 1] == ps[..j - 1];
      ConcatLen(L, ps, j - 1);
      OffsetStep(L, j - 1);
    }
  }

  lemma {:induction false} ConcatPrefix(ps: seq<seq<real>>, j: nat)
    requires j <= |ps|
    ensures |Concat(ps[..j])| <= |Concat(ps)|
    ensures Concat(ps)[..|Concat(ps[..j])|] == Concat(ps[..j])
    decreases |ps| - j
  {
    if j < |ps| {
      ConcatPrefix(ps, j + 1);
      assert ps[..j + 1][..j] == ps[..j];
      var a := Concat(ps[..j]);
      assert Concat(ps[..j + 1]) == a + ps[j];
      assert Concat(ps)[..|a|] == Concat(ps[..j + 1])[..|a|];
    } else {
      assert ps[..j] == ps;
    }
  }

  /** In the stacked vector each named block reads back its own piece. */
  lemma StateLayout(L: Layout, ps: seq<seq<real>>, k: nat)
    requires PiecesFit(L, ps) && k < |ParamOrder|
    ensures |Concat(ps)| == NParams(L)
    ensures Gather(Concat(ps), NamedBlock(L, k)) == ps[k]
  {
    assert ps[..|ps|] == ps;
    ConcatLen(L, ps, |ps|);
    ConcatLen(L, ps, k);
    ConcatLen(L, ps, k + 1);
    ConcatPrefix(ps, k + 1);
    OffsetStep(L, k);
    OffsetMono(L, k + 1, |ParamOrder|);
    assert ps[..k + 1][..k] == ps[..k];
    var s := Concat(ps);
    assert Concat(ps[..k + 1]) == Concat(ps[..k]) + ps[k];
    assert s[Offset(L, k)..Offset(L, k + 1)] == Concat(ps[..k + 1])[Offset(L, k)..];
    GatherRange(s, Offset(L, k), Offset(L, k + 1));
  }

  /** `block_particle_pos(i)`: `[3i, 3i+3)`, clipped at the end of the vector. */
  function BlockParticlePos(L: Layout, i: nat): (b: Block)
    ensures |b| == NParams(L)
  {
    seq(NParams(L), k => 3 * i <= k < 3 * i + 3)
  }

  /** `block_particle_rad(i)`: `{3N + i}`; None where the index is past the end (IndexError). */
  function BlockParticleRad(L: Layout, i: nat): (b: Option<Block>)
    ensures b.Some? <==> 3 * L.n + i < NParams(L)
    ensures b.Some? ==> |b.value| == NParams(L)
    ensures b.Some? ==> forall k :: 0 <= k < NParams(L) ==> (b.value[k] <==> k == 3 * L.n + i)
  {
    if 3 * L.n + i < NParams(L) then Some(Singleton(NParams(L), 3 * L.n + i)) else None
  }

  /** `block_particle_typ(i)`: `{4N + i}`; None where the index is past the end (IndexError). */
  function BlockParticleTyp(L: Layout, i: nat): (b: Option<Block>)
    ensures b.Some? <==> 4 * L.n + i < NParams(L)
    ensures b.Some? ==> |b.value| == NParams(L)
    ensures b.Some? ==> forall k :: 0 <= k < NParams(L) ==> (b.value[k] <==> k == 4 * L.n + i)
  {
    if 4 * L.n + i < NParams(L) then Some(Singleton(NParams(L), 4 * L.n + i)) else None
  }

  /** For a real particle the three coordinates lie in `pos`, the radius in
      `rad` and (with `varyn`) the type in `typ`. */
  lemma ParticleBlocksInside(L: Layout, i: nat)
    requires i < L.n
    ensures Count(BlockParticlePos(L, i)) == 3
    ensures forall k :: 0 <= k < NParams(L) && BlockParticlePos(L, i)[k] ==> NamedBlock(L, 0)[k]
    ensures BlockParticleRad(L, i).Some?
    ensures NamedBlock(L, 1)[3 * L.n + i]
    ensures L.varyn ==> BlockParticleTyp(L, i).Some? && NamedBlock(L, 2)[4 * L.n + i]
  {
    OffsetValues(L);
    var b := BlockParticlePos(L, i);
    CountRun(b, 3 * i, 3 * i + 3);
  }

  /** `blocks_particle(i)`: the three coordinate blocks, then the radius block. */
  method BlocksParticle(L: Layout, i: nat) returns (blocks: seq<Block>)
    ensures |blocks| == 4
    ensures forall t :: 0 <= t < 3 ==> blocks[t] == BlockRange(NParams(L), 3 * i + t, 3 * i + t + 1)
    ensures blocks[3] == BlockRange(NParams(L), 3 * L.n + i, 3 * L.n + i + 1)
  {
    var pInd, rInd := 3 * i, 3 * L.n + i;
    blocks := [];
    var t := pInd;
    while t < pInd + 3
      invariant pInd <= t <= pInd + 3
      invariant |blocks| == t - pInd
      invariant forall u :: 0 <= u < t - pInd ==> blocks[u] == BlockRange(NParams(L), pInd + u, pInd + u + 1)
    {
      blocks := blocks + [BlockRange(NParams(L), t, t + 1)];
      t := t + 1;
    }
    blocks := blocks + [BlockRange(NParams(L), rInd, rInd + 1)];
  }

  /** A one-wide range inside the vector is the single-bit block, so for a real
      particle `blocks_particle` lists its three coordinates and its radius. */
  lemma BlocksParticleSingletons(L: Layout, i: nat)
    requires i < L.n
    ensures BlockRange(NParams(L), 3 * i, 3 * i + 1) == Singleton(NParams(L), 3 * i)
    ensures BlockRange(NParams(L), 3 * i + 1, 3 * i + 2) == Singleton(NParams(L), 3 * i + 1)
    ensures BlockRange(NParams(L), 3 * i + 2, 3 * i + 3) == Singleton(NParams(L), 3 * i + 2)
    ensures BlockRange(NParams(L), 3 * L.n + i, 3 * L.n + i + 1) == Singleton(NParams(L), 3 * L.n + i)
    ensures Some(BlockRange(NParams(L), 3 * L.n + i, 3 * L.n + i + 1)) == BlockParticleRad(L, i)
  {
    OffsetValues(L);
  }

  /** Whether `block` touches particle `i`: one of its coordinates, its
      radius or (with `varyn`) its type. */
  predicate Touches(L: Layout, block: Block, i: nat)
    requires |block| == NParams(L) && i < L.n
  {
    OffsetValues(L);
    block[3 * i] || block[3 * i + 1] || block[3 * i + 2] || block[3 * L.n + i] || (L.varyn && block[4 * L.n + i])
  }

  /** `pmask | rmask | tmask`. */
  function AffectedMask(L: Layout, block: Block): (m: seq<bool>)
    requires |block| == NParams(L)
    ensures |m| == L.n
  {
    seq(L.n, i requires 0 <= i < L.n => Touches(L, block, i))
  }

  /** `np.arange(N)[pmask | rmask | tmask]`: the touched particles, listed
      once each and ascending, exactly those with a coordinate, the radius or
      (with `varyn`) the type in the block. */
  function AffectedParticles(L: Layout, block: Block): (ps: seq<nat>)
    requires |block| == NParams(L)
    ensures forall k, k' :: 0 <= k < k' < |ps| ==> ps[k] < ps[k']
    ensures forall i :: 0 <= i < L.n ==> (i in ps <==> Touches(L, block, i))
    ensures forall k :: 0 <= k < |ps| ==> ps[k] < L.n
  {
    SetIndicesSpec(AffectedMask(L, block));
    SetIndices(AffectedMask(L, block))
  }

  /** The block of any single global parameter (PSF, ILM, offset, z-scale,
      sigma) touches no particle. */
  lemma GlobalBlockTouchesNoParticle(L: Layout, k: nat)
    requires 3 <= k < |ParamOrder|
    ensures |AffectedParticles(L, NamedBlock(L, k))| == 0
  {
    OffsetValues(L);
    OffsetMono(L, 3, k);
    var b := NamedBlock(L, k);
    var lo := Offset(L, k);
    assert 4 * L.n + (if L.varyn then L.n else 0) <= lo;
    assert forall j :: 0 <= j < lo ==> !b[j];
    var m := AffectedMask(L, b);
    forall i | 0 <= i < L.n ensures !m[i] {
      assert !Touches(L, b, i);
    }
    NoneSet(m);
  }

  lemma {:induction false} NoneSet(m: seq<bool>)
    requires forall i :: 0 <= i < |m| ==> !m[i]
    ensures |SetIndices(m)| == 0
  {
    if |m| > 0 {
      NoneSet(m[..|m| - 1]);
    }
  }

  /** The radius argument of `prepare_for_state`: an array, or one radius for all. */
  datatype RadArg = RadScalar(r: real) | RadArray(rs: seq<real>)

  datatype PrepError = KeepMaskMismatch

  /** A (padded) particle the filter keeps: inside `[0, bound]` on every axis,
      with a nonnegative radius. */
  predicate Keep(p: seq<real>, r: real, bound: seq<int>)
    requires |p| == 3 && |bound| == 3
  {
    (forall k :: 0 <= k < 3 ==> 0.0 <= p[k] <= bound[k] as real) && r >= 0.0
  }

  function PaddedShape(sh: Voxels.Shape, pad: nat): seq<int>
  {
    [sh.nz + 2 * pad, sh.ny + 2 * pad, sh.nx + 2 * pad]
  }

  function Radii(n: nat, rad: RadArg): seq<real>
  {
    match rad
    case RadScalar(r) => seq(n, _ => r)
    case RadArray(rs) => rs
  }

  /** What the filter keeps, given the already padded positions. */
  function KeepMask(pos: seq<seq<real>>, rads: seq<real>, bound: seq<int>): (m: seq<bool>)
    requires forall i :: 0 <= i < |pos| ==> |pos[i]| == 3
    requires |pos| == |rads| && |bound| == 3
    ensures |m| == |pos|
  {
    seq(|pos|, i requires 0 <= i < |pos| => Keep(pos[i], rads[i], bound))
  }

  /** The bounds and negative-radius filter of `prepare_for_state`: positions
      are shifted by `pad`, a scalar radius is repeated, and a particle is
      dropped when a coordinate is below 0 or above the padded shape or its
      radius is negative. Radii and positions of different counts make the
      boolean indexing fail. */
  method PrepareFilter(sh: Voxels.Shape, pad: nat, pos: seq<seq<real>>, rad: RadArg)
    returns (r: Result<(seq<seq<real>>, seq<real>), PrepError>)
    requires forall i :: 0 <= i < |pos| ==> |pos[i]| == 3
    ensures r.Err? <==> |Radii(|pos|, rad)| != |pos|
    ensures r.Ok? ==>
      var padded := seq(|pos|, i requires 0 <= i < |pos| => seq(3, k requires 0 <= k < 3 => pos[i][k] + pad as real));
      var inds := SetIndices(KeepMask(padded, Radii(|pos|, rad), PaddedShape(sh, pad)));
      r.value.0 == seq(|inds|, k requires 0 <= k < |inds| => padded[inds[k]]) &&
      r.value.1 == seq(|inds|, k requires 0 <= k < |inds| => Radii(|pos|, rad)[inds[k]])
  {
    var padded := seq(|pos|, i requires 0 <= i < |pos| => seq(3, k requires 0 <= k < 3 => pos[i][k] + pad as real));
    var rads := Radii(|pos|, rad);
    var bound := PaddedShape(sh, pad);
    var keeps := seq(|rads|, _ => true);
    var i := 0;
    while i < |padded| && i < |rads|
      invariant 0 <= i <= |padded| && i <= |rads|
      invariant |keeps| == |rads|
      invariant forall j :: 0 <= j < |rads| ==> keeps[j] == (j >= i || Keep(padded[j], rads[j], bound))
    {
      var p, q := padded[i], rads[i];
      if (exists k :: 0 <= k < 3 && p[k] < 0.0) || (exists k :: 0 <= k < 3 && p[k] > bound[k] as real) {
        keeps := keeps[i := false];
      }
      if q < 0.0 {
        keeps := keeps[i := false];
      }
      i := i + 1;
    }
    if |keeps| != |padded| {
      return Err(KeepMaskMismatch);
    }
    assert keeps == KeepMask(padded, rads, bound);
    var inds := SetIndices(keeps);
    r := Ok((seq(|inds|, k requires 0 <= k < |inds| => padded[inds[k]]),
             seq(|inds|, k requires 0 <= k < |inds| => rads[inds[k]])));
  }

  /** Everything the filter keeps is inside the padded image with a
      nonnegative radius, in the input order, and nothing inside is dropped. */
  lemma KeepMaskSpec(pos: seq<seq<real>>, rads: seq<real>, bound: seq<int>)
    requires forall i :: 0 <= i < |pos| ==> |pos[i]| == 3
    requires |pos| == |rads| && |bound| == 3
    ensures var inds := SetIndices(KeepMask(pos, rads, bound));
      && (forall k :: 0 <= k < |inds| ==> inds[k] < |pos| && Keep(pos[inds[k]], rads[inds[k]], bound))
      && (forall k, k' :: 0 <= k < k' < |inds| ==> inds[k] < inds[k'])
      && (forall i :: 0 <= i < |pos| && Keep(pos[i], rads[i], bound) ==> i in inds)
  {
    SetIndicesSpec(KeepMask(pos, rads, bound));
  }

  // ---- _tile_from_particle_change ----

  function Floor(x: real): int { x.Floor }
  function Ceil(x: real): int { -((-x).Floor) }

  function RMin(a: real, b: real): real { if a <= b then a else b }
  function RMax(a: real, b: real): real { if a >= b then a else b }

  /** The collaborator values `_tile_from_particle_change` reads. */
  datatype TileContext = TileContext(
    psc: seq<real>,       // `psf.get_support_size()`
    rsc: seq<real>,       // `obj.get_support_size() / 2.0`
    zscale: real,
    difference: bool,
    shape: Voxels.Shape)
  {
    predicate Valid() { |psc| == 3 && |rsc| == 3 && zscale != 0.0 }
  }

  function ShapeVec(sh: Voxels.Shape): (v: seq<int>)
    ensures |v| == 3
  {
    [sh.nz, sh.ny, sh.nx]
  }

  /** `off = zsc * r + pref * psc + rsc + extr`, with `zsc = [1/zscale, 1, 1]`. */
  function Reach(ctx: TileContext, r: real): (off: seq<real>)
    requires ctx.Valid()
    ensures |off| == 3
  {
    var pref := if ctx.difference then 1.0 else 2.0;
    var extr := if ctx.difference then 1.0 else 0.0;
    var zsc := [1.0 / ctx.zscale, 1.0, 1.0];
    seq(3, k requires 0 <= k < 3 => zsc[k] * r + pref * ctx.psc[k] + ctx.rsc[k] + extr)
  }

  /** The real interval a particle's change can reach: `[p - off - 1, p + off + 1]`. */
  function LowReach(ctx: TileContext, p: seq<real>, r: real): (v: seq<real>)
    requires ctx.Valid() && |p| == 3
    ensures |v| == 3
  {
    var off := Reach(ctx, r);
    seq(3, k requires 0 <= k < 3 => p[k] - off[k] - 1.0)
  }

  function HighReach(ctx: TileContext, p: seq<real>, r: real): (v: seq<real>)
    requires ctx.Valid() && |p| == 3
    ensures |v| == 3
  {
    var off := Reach(ctx, r);
    seq(3, k requires 0 <= k < 3 => p[k] + off[k] + 1.0)
  }

  function FloorV(v: seq<real>): (w: seq<int>)
    ensures |w| == |v|
  {
    seq(|v|, k requires 0 <= k < |v| => Floor(v[k]))
  }

  function CeilV(v: seq<real>): (w: seq<int>)
    ensures |w| == |v|
  {
    seq(|v|, k requires 0 <= k < |v| => Ceil(v[k]))
  }

  /** `floor(amin(a, b))`, computed as the elementwise minimum of the floors
      (floor is monotone, so the two agree). */
  function FloorMin(a: seq<real>, b: seq<real>): (w: seq<int>)
    requires |a| == |b|
    ensures |w| == |a|
    ensures forall k :: 0 <= k < |a| ==> w[k] == Floor(RMin(a[k], b[k]))
  {
    AMin(FloorV(a), FloorV(b)).value
  }

  function CeilMax(a: seq<real>, b: seq<real>): (w: seq<int>)
    requires |a| == |b|
    ensures |w| == |a|
    ensures forall k :: 0 <= k < |a| ==> w[k] == Ceil(RMax(a[k], b[k]))
  {
    AMax(CeilV(a), CeilV(b)).value
  }

  /** The integer corners `(pl, pr)` before clamping, by cases on whether each
      side's type is 1. */
  function Corners3(ctx: TileContext, p0: seq<real>, r0: real, t0: real, p1: seq<real>, r1: real, t1: real): (c: (seq<int>, seq<int>))
    requires ctx.Valid() && |p0| == 3 && |p1| == 3
    ensures |c.0| == 3 && |c.1| == 3
  {
    if t0 == 1.0 && t1 == 1.0 then
      (FloorMin(LowReach(ctx, p0, r0), LowReach(ctx, p1, r1)), CeilMax(HighReach(ctx, p0, r0), HighReach(ctx, p1, r1)))
    else if t0 != 1.0 && t1 == 1.0 then
      (FloorV(LowReach(ctx, p1, r1)), CeilV(HighReach(ctx, p1, r1)))
    else if t0 == 1.0 && t1 != 1.0 then
      (FloorV(LowReach(ctx, p0, r0)), CeilV(HighReach(ctx, p0, r0)))
    else
      ([0, 0, 0], ShapeVec(ctx.shape))
  }

  /** `Tile(left, right, mins, maxs)` for 3-vectors, which always succeeds. */
  function Clamped(left: seq<int>, right: seq<int>, mins: Arg, maxs: Arg): (t: Tile)
    requires |left| == 3 && |right| == 3 && |Broadcast(mins)| == 3 && |Broadcast(maxs)| == 3
    ensures t.Valid() && |t.l| == 3
    ensures forall k :: 0 <= k < 3 ==> t.l[k] == Max(left[k], Broadcast(mins)[k]) && t.r[k] == Min(right[k], Broadcast(maxs)[k])
  {
    TileClamp(left, right, Some(mins), Some(maxs));
    NewTile(Vector(left), Some(Vector(right)), Some(mins), Some(maxs)).value
  }

  /** The outer tile: the corners clipped to the image. */
  function OuterTile(ctx: TileContext, p0: seq<real>, r0: real, t0: real, p1: seq<real>, r1: real, t1: real): (t: Tile)
    requires ctx.Valid() && |p0| == 3 && |p1| == 3
    ensures t.Valid() && |t.l| == 3
  {
    var (pl, pr) := Corners3(ctx, p0, r0, t0, p1, r1, t1);
    Clamped(pl, pr, Scalar(0), Vector(ShapeVec(ctx.shape)))
  }

  datatype TileChange = TileChange(outer: Tile, inner: Tile, ioslice: seq<(int, int)>)

  /** `_tile_from_particle_change(p0, r0, t0, p1, r1, t1)`. The inner tile
      is the outer one less `CropWidth` on each side (corners and clamping
      bounds are shifted by the same amount), and `ioslice` crops that width
      off each end of the outer tile. */
  function TileFromParticleChange(ctx: TileContext, p0: seq<real>, r0: real, t0: real, p1: seq<real>, r1: real, t1: real): (tc: TileChange)
    requires ctx.Valid() && |p0| == 3 && |p1| == 3
    ensures tc.outer.Valid() && tc.inner.Valid() && |tc.outer.l| == 3 && |tc.inner.l| == 3
    ensures tc.outer == OuterTile(ctx, p0, r0, t0, p1, r1, t1)
    ensures tc.ioslice == seq(3, k requires 0 <= k < 3 => (CropWidth(ctx)[k], -CropWidth(ctx)[k]))
    ensures forall k :: 0 <= k < 3 ==>
      tc.inner.l[k] == tc.outer.l[k] + CropWidth(ctx)[k] && tc.inner.r[k] == tc.outer.r[k] - CropWidth(ctx)[k]
  {
    var (pl, pr) := Corners3(ctx, p0, r0, t0, p1, r1, t1);
    var sh := ShapeVec(ctx.shape);
    var outer := OuterTile(ctx, p0, r0, t0, p1, r1, t1);
    var w := CropWidth(ctx);
    ShiftedInCrop(pl, pr, w, sh);
    TileChange(outer, ShiftedIn(pl, pr, w, sh), seq(3, k requires 0 <= k < 3 => (w[k], -w[k])))
  }

  /** How much the inner tile loses on each side of the outer one: one voxel
      in difference mode (`extr`), the rounded-up PSF support otherwise
      (`ipsc`). */
  function CropWidth(ctx: TileContext): (w: seq<int>)
    requires ctx.Valid()
    ensures |w| == 3
  {
    if ctx.difference then [1, 1, 1] else CeilV(ctx.psc)
  }

  /** The inner tile: corners and clamping bounds shifted inward by `w`. */
  function ShiftedIn(pl: seq<int>, pr: seq<int>, w: seq<int>, sh: seq<int>): (t: Tile)
    requires |pl| == 3 && |pr| == 3 && |w| == 3 && |sh| == 3
    ensures t.Valid() && |t.l| == 3
  {
    Clamped(seq(3, k requires 0 <= k < 3 => pl[k] + w[k]), seq(3, k requires 0 <= k < 3 => pr[k] - w[k]),
            Vector(w), Vector(seq(3, k requires 0 <= k < 3 => sh[k] - w[k])))
  }

  /** Shifting corners and bounds inward by `w` shifts the clamped tile inward by `w`. */
  lemma ShiftedInCrop(pl: seq<int>, pr: seq<int>, w: seq<int>, sh: seq<int>)
    requires |pl| == 3 && |pr| == 3 && |w| == 3 && |sh| == 3
    ensures var o := Clamped(pl, pr, Scalar(0), Vector(sh));
      var t := ShiftedIn(pl, pr, w, sh);
      forall k :: 0 <= k < 3 ==> t.l[k] == o.l[k] + w[k] && t.r[k] == o.r[k] - w[k]
  {
  }

  /** `model_image[inner.slicer] = replacement[ioslice]`, with `replacement`
      rendered over the outer tile, puts at every voxel of the inner tile the
      rendering of that same image voxel: on each axis the crop, read in the
      outer tile's own coordinates, selects exactly the inner tile. When the
      two selections differ in size NumPy raises `ValueError`. */
  predicate CropAligned(outer: Tile, inner: Tile, io: seq<(int, int)>, sh: Voxels.Shape)
    requires outer.Valid() && inner.Valid() && |outer.l| == 3 && |inner.l| == 3
  {
    && |io| == 3
    && forall k :: 0 <= k < 3 ==>
         && 0 <= outer.l[k] <= inner.l[k] <= inner.r[k] <= outer.r[k] <= ShapeVec(sh)[k]
         && Voxels.SliceBound(io[k].0, outer.r[k] - outer.l[k]) == inner.l[k] - outer.l[k]
         && Voxels.SliceBound(io[k].1, outer.r[k] - outer.l[k]) == inner.r[k] - outer.l[k]
  }

  /** A positive PSF support rounds up to a crop of at least one voxel. */
  lemma CropWidthPositive(ctx: TileContext)
    requires ctx.Valid()
    requires !ctx.difference ==> forall k :: 0 <= k < 3 ==> ctx.psc[k] > 0.0
    ensures forall k :: 0 <= k < 3 ==> CropWidth(ctx)[k] >= 1
  {
    if !ctx.difference {
      forall k | 0 <= k < 3
        ensures CropWidth(ctx)[k] >= 1
      {
        assert CropWidth(ctx)[k] == Ceil(ctx.psc[k]);
      }
    }
  }

  /** With a positive PSF support, every pair of tiles `update` goes on to
      draw (both extents nonnegative) is aligned with its crop. */
  lemma ChangeCropAligned(ctx: TileContext, p0: seq<real>, r0: real, t0: real, p1: seq<real>, r1: real, t1: real)
    requires ctx.Valid() && |p0| == 3 && |p1| == 3
    requires !ctx.difference ==> forall k :: 0 <= k < 3 ==> ctx.psc[k] > 0.0
    ensures var tc := TileFromParticleChange(ctx, p0, r0, t0, p1, r1, t1);
      tc.outer.NonNegative() && tc.inner.NonNegative() ==> CropAligned(tc.outer, tc.inner, tc.ioslice, ctx.shape)
  {
    var tc := TileFromParticleChange(ctx, p0, r0, t0, p1, r1, t1);
    CropWidthPositive(ctx);
    OuterTileCovers(ctx, p0, r0, t0, p1, r1, t1);
    if tc.outer.NonNegative() && tc.inner.NonNegative() {
      forall k | 0 <= k < 3
        ensures tc.inner.l[k] <= tc.inner.r[k]
      {
      }
    }
  }

  /** A PSF support that rounds up to zero on an axis gives the crop
      `[0:-0]`, which selects nothing, while the inner tile is as wide as
      a nonempty outer tile: the write fails. */
  lemma ZeroSupportMisaligned(ctx: TileContext, p0: seq<real>, r0: real, t0: real, p1: seq<real>, r1: real, t1: real, k: nat)
    requires ctx.Valid() && |p0| == 3 && |p1| == 3 && k < 3
    requires !ctx.difference && Ceil(ctx.psc[k]) == 0
    requires var tc := TileFromParticleChange(ctx, p0, r0, t0, p1, r1, t1); tc.outer.l[k] < tc.outer.r[k]
    ensures var tc := TileFromParticleChange(ctx, p0, r0, t0, p1, r1, t1);
      !CropAligned(tc.outer, tc.inner, tc.ioslice, ctx.shape)
  {
  }

  /** The outer tile lies in the image; on each axis it reaches from the
      first voxel at or below the lower end of every active particle's reach
      to the first at or above the upper end, clipped to the image. */
  lemma OuterTileCovers(ctx: TileContext, p0: seq<real>, r0: real, t0: real, p1: seq<real>, r1: real, t1: real)
    requires ctx.Valid() && |p0| == 3 && |p1| == 3
    ensures var tc := TileFromParticleChange(ctx, p0, r0, t0, p1, r1, t1);
      var sh := ShapeVec(ctx.shape);
      forall k :: 0 <= k < 3 ==>
        && 0 <= tc.outer.l[k] && tc.outer.r[k] <= sh[k]
        && (t0 == 1.0 ==>
              (tc.outer.l[k] <= Max(Floor(LowReach(ctx, p0, r0)[k]), 0) &&
               tc.outer.r[k] >= Min(Ceil(HighReach(ctx, p0, r0)[k]), sh[k])))
        && (t1 == 1.0 ==>
              (tc.outer.l[k] <= Max(Floor(LowReach(ctx, p1, r1)[k]), 0) &&
               tc.outer.r[k] >= Min(Ceil(HighReach(ctx, p1, r1)[k]), sh[k])))
        && ((t0 == 1.0 || t1 == 1.0) ==>
              (tc.outer.l[k] == Max(Corners3(ctx, p0, r0, t0, p1, r1, t1).0[k], 0) &&
               tc.outer.r[k] == Min(Corners3(ctx, p0, r0, t0, p1, r1, t1).1[k], sh[k])))
  {
    assert TileFromParticleChange(ctx, p0, r0, t0, p1, r1, t1).outer == OuterTile(ctx, p0, r0, t0, p1, r1, t1);
    forall k | 0 <= k < 3 {
      OuterAxis(ctx, p0, r0, t0, p1, r1, t1, k);
    }
  }

  /** `OuterTileCovers` on axis `k`. */
  lemma OuterAxis(ctx: TileContext, p0: seq<real>, r0: real, t0: real, p1: seq<real>, r1: real, t1: real, k: nat)
    requires ctx.Valid() && |p0| == 3 && |p1| == 3 && k < 3
    ensures var o := OuterTile(ctx, p0, r0, t0, p1, r1, t1);
      var sh := ShapeVec(ctx.shape);
      var c := Corners3(ctx, p0, r0, t0, p1, r1, t1);
      && 0 <= o.l[k] && o.r[k] <= sh[k]
      && (t0 == 1.0 ==>
            (o.l[k] <= Max(Floor(LowReach(ctx, p0, r0)[k]), 0) && o.r[k] >= Min(Ceil(HighReach(ctx, p0, r0)[k]), sh[k])))
      && (t1 == 1.0 ==>
            (o.l[k] <= Max(Floor(LowReach(ctx, p1, r1)[k]), 0) && o.r[k] >= Min(Ceil(HighReach(ctx, p1, r1)[k]), sh[k])))
      && o.l[k] == Max(c.0[k], 0) && o.r[k] == Min(c.1[k], sh[k])
  {
    CornersReach(ctx, p0, r0, t0, p1, r1, t1, k);
  }

  /** On axis `k`, the unclamped corners reach past every active side. */
  lemma CornersReach(ctx: TileContext, p0: seq<real>, r0: real, t0: real, p1: seq<real>, r1: real, t1: real, k: nat)
    requires ctx.Valid() && |p0| == 3 && |p1| == 3 && k < 3
    ensures var c := Corners3(ctx, p0, r0, t0, p1, r1, t1);
      && (t0 == 1.0 ==> c.0[k] <= Floor(LowReach(ctx, p0, r0)[k]) && c.1[k] >= Ceil(HighReach(ctx, p0, r0)[k]))
      && (t1 == 1.0 ==> c.0[k] <= Floor(LowReach(ctx, p1, r1)[k]) && c.1[k] >= Ceil(HighReach(ctx, p1, r1)[k]))
  {
    var l0, l1 := LowReach(ctx, p0, r0)[k], LowReach(ctx, p1, r1)[k];
    var h0, h1 := HighReach(ctx, p0, r0)[k], HighReach(ctx, p1, r1)[k];
    if t0 == 1.0 && t1 == 1.0 {
      FloorMono(RMin(l0, l1), l0);
      FloorMono(RMin(l0, l1), l1);
      FloorMono(-RMax(h0, h1), -h0);
      FloorMono(-RMax(h0, h1), -h1);
    }
  }

  lemma FloorMono(x: real, y: real)
    requires x <= y
    ensures Floor(x) <= Floor(y)
  {
  }

  /** When neither side is active the outer tile is the whole image. */
  lemma OuterTileInactive(ctx: TileContext, p0: seq<real>, r0: real, t0: real, p1: seq<real>, r1: real, t1: real)
    requires ctx.Valid() && |p0| == 3 && |p1| == 3
    requires t0 != 1.0 && t1 != 1.0
    ensures TileFromParticleChange(ctx, p0, r0, t0, p1, r1, t1).outer == Tile([0, 0, 0], ShapeVec(ctx.shape))
  {
  }

  /** An inactive side does not influence the tiles. */
  lemma TileIgnoresInactiveSide(ctx: TileContext, p0: seq<real>, r0: real, t0: real, p1: seq<real>, r1: real, t1: real,
                                q: seq<real>, s: real)
    requires ctx.Valid() && |p0| == 3 && |p1| == 3 && |q| == 3
    ensures t0 != 1.0 ==> TileFromParticleChange(ctx, p0, r0, t0, p1, r1, t1) == TileFromParticleChange(ctx, q, s, t0, p1, r1, t1)
    ensures t1 != 1.0 ==> TileFromParticleChange(ctx, p0, r0, t0, p1, r1, t1) == TileFromParticleChange(ctx, p0, r0, t0, q, s, t1)
  {
  }

  /** The inner tile sits inside the outer one, shrunk by one voxel in
      difference mode and by the rounded-up PSF support otherwise. */
  lemma InnerWithinOuter(ctx: TileContext, p0: seq<real>, r0: real, t0: real, p1: seq<real>, r1: real, t1: real)
    requires ctx.Valid() && |p0| == 3 && |p1| == 3
    requires !ctx.difference ==> forall k :: 0 <= k < 3 ==> ctx.psc[k] >= 0.0
    ensures var tc := TileFromParticleChange(ctx, p0, r0, t0, p1, r1, t1);
      forall k :: 0 <= k < 3 ==> tc.outer.l[k] <= tc.inner.l[k] && tc.inner.r[k] <= tc.outer.r[k]
  {
    if !ctx.difference {
      forall k | 0 <= k < 3
        ensures CropWidth(ctx)[k] >= 0
      {
        assert CropWidth(ctx)[k] == Ceil(ctx.psc[k]);
      }
    }
  }

}
