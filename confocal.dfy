/**
  `ConfocalImagePython` (`cbamf/states.py`): the flat parameter vector of the
  confocal model, its undo stack, the cached model image and per-voxel
  log-likelihood field, and the particle-local `update` with its cheap
  rejection checks and rollback. The PSF, illumination and object
  collaborators, the overlap prior and the rendering are abstract functions
  of the collaborators' parameters.
*/
module Confocal {
  import opened Wrappers
  import opened Voxels
  import opened Blocks
  import opened CbamfUtil
  import opened ConfocalLayout

  /** Particle positions, radii and types as a collaborator holds them. */
  datatype Particles = Particles(pos: seq<seq<real>>, rad: seq<real>, typ: seq<real>)
  {
    predicate Sized(n: nat)
    {
      |pos| == n && |rad| == n && |typ| == n && forall j :: 0 <= j < n ==> |pos[j]| == 3
    }
  }

  /** Setting particle `i`, as `nbl.update` and `obj.update` do for one particle. */
  function SetParticle(ps: Particles, i: nat, p: seq<real>, r: real, t: real): (ps': Particles)
    requires i < |ps.pos| && i < |ps.rad| && i < |ps.typ|
    ensures |ps'.pos| == |ps.pos| && |ps'.rad| == |ps.rad| && |ps'.typ| == |ps.typ|
  {
    Particles(ps.pos[i := p], ps.rad[i := r], ps.typ[i := t])
  }

  /** Setting a particle back to what it held undoes the setting. */
  lemma SetParticleRestore(ps: Particles, i: nat, p: seq<real>, r: real, t: real)
    requires i < |ps.pos| && i < |ps.rad| && i < |ps.typ|
    ensures SetParticle(SetParticle(ps, i, p, r, t), i, ps.pos[i], ps.rad[i], ps.typ[i]) == ps
  {
  }

  /** The overlap cell `nbl`: the particles it was given and its z-scale. */
  datatype Cell = Cell(parts: Particles, zscale: real)

  /** What the rendering collaborators hold: the object's particles and
      z-scale, the PSF and ILM parameters, and the offset. */
  datatype Collab = Collab(parts: Particles, zscale: real, psf: seq<real>, ilm: seq<real>, offset: real)

  /** How `update` ends. In Python `Accepted` returns True, `Unsupported`
      raises, and the rest return False. */
  datatype Outcome =
    | Accepted
    | OutOfBounds       // a new position outside the image: state restored
    | NegativeTile      // an update tile with a negative extent: state restored
    | PriorCut          // overlap prior below `PRIORCUT`: cell and state restored
    | Inactive          // old and new type both 0: nothing restored
    | ZScalePriorCut    // the rebuilt cell's prior below `PRIORCUT`: state restored
    | Unsupported       // more than one particle touched
  {
    /** Whether the state vector is rolled back. */
    predicate Restores() { this == OutOfBounds || this == NegativeTile || this == PriorCut || this == ZScalePriorCut }
    /** What `update` returns. */
    predicate Returned() { this == Accepted }
  }

  /** The part of the object state the particle branch of `update` sets,
      besides the images. */
  datatype Effect = Effect(outcome: Outcome, state: seq<real>, nbl: Cell, logprior: real, collab: Collab)

  /** `block[b].any()` for the named block `k`. */
  predicate Touched(L: Layout, block: Block, k: nat)
    requires |block| == NParams(L) && k < |ParamOrder|
  {
    OffsetMono(L, k + 1, |ParamOrder|);
    exists j :: Offset(L, k) <= j < Offset(L, k + 1) && block[j]
  }

  /** `(state[b_rad] < 0).any()`. */
  predicate RadiusNegative(L: Layout, s: seq<real>)
    requires |s| == NParams(L)
  {
    OffsetValues(L);
    exists j :: 3 * L.n <= j < 4 * L.n && s[j] < 0.0
  }

  /** `(pos < 0).any() or (pos > shape).any()` for one particle. */
  predicate OutOfDomain(p: seq<real>, sh: Shape)
    requires |p| == 3
  {
    exists k :: 0 <= k < 3 && (p[k] < 0.0 || p[k] > ShapeVec(sh)[k] as real)
  }

  /** The position, radius and type of particle `i` in a parameter vector;
      without `varyn` every type is 1. */
  function PosOf(L: Layout, s: seq<real>, i: nat): (p: seq<real>)
    requires |s| == NParams(L) && i < L.n
    ensures |p| == 3
  {
    OffsetValues(L);
    s[3 * i..3 * i + 3]
  }

  function RadOf(L: Layout, s: seq<real>, i: nat): real
    requires |s| == NParams(L) && i < L.n
  {
    OffsetValues(L);
    s[3 * L.n + i]
  }

  function TypOf(L: Layout, s: seq<real>, i: nat): real
    requires |s| == NParams(L) && i < L.n
  {
    OffsetValues(L);
    if L.varyn then s[4 * L.n + i] else 1.0
  }

  /** Any touched particle whose new position leaves the image. */
  predicate AnyOutOfDomain(L: Layout, s: seq<real>, ps: seq<nat>, sh: Shape)
    requires |s| == NParams(L) && forall k :: 0 <= k < |ps| ==> ps[k] < L.n
  {
    exists k :: 0 <= k < |ps| && OutOfDomain(PosOf(L, s, ps[k]), sh)
  }

  /** The per-voxel log-likelihood of model value `d` against image value
      `img` under mask value `msk`; `logNorm` is `log(sqrt(2 pi) sigma)`. */
  function LLValue(d: real, img: real, msk: real, sigma: real, logNorm: real, nlogs: bool): real
    requires sigma != 0.0
  {
    -msk * (d - img) * (d - img) / (2.0 * sigma * sigma) - msk * logNorm * (if nlogs then 1.0 else 0.0)
  }

  /** The model image times the mask, what `_update_ll_field` compares
      with the image on a full reset. */
  function MaskedModel(model: seq<real>, mask: seq<real>): (d: seq<real>)
    requires |model| == |mask|
    ensures |d| == |model| && forall v :: 0 <= v < |d| ==> d[v] == model[v] * mask[v]
  {
    seq(|model|, v requires 0 <= v < |model| => model[v] * mask[v])
  }

  /** `image > PADVAL` as a float mask. */
  function ImageMask(raw: seq<real>, padVal: real): (m: seq<real>)
    ensures |m| == |raw|
    ensures forall v :: 0 <= v < |raw| ==> m[v] == if raw[v] > padVal then 1.0 else 0.0
  {
    seq(|raw|, v requires 0 <= v < |raw| => if raw[v] > padVal then 1.0 else 0.0)
  }

  /** The field after writing `LLValue` at every voxel of `m`. */
  function Refresh(field: seq<real>, data: seq<real>, image: seq<real>, mask: seq<real>, m: seq<bool>,
                   sigma: real, lg: real, nlogs: bool): (f: seq<real>)
    requires |data| == |field| && |image| == |field| && |mask| == |field| && |m| == |field|
    requires sigma != 0.0
    ensures |f| == |field|
    ensures forall v :: 0 <= v < |f| ==> f[v] == (if m[v] then LLValue(data[v], image[v], mask[v], sigma, lg, nlogs) else field[v])
  {
    seq(|field|, v requires 0 <= v < |field| => if m[v] then LLValue(data[v], image[v], mask[v], sigma, lg, nlogs) else field[v])
  }

  /** The log-likelihood field after `_update_ll_field`: over the region,
      the value for the model image; elsewhere the old field. With no
      region, every voxel is recomputed from the masked model image. */
  function Refreshed(field: seq<real>, model: seq<real>, image: seq<real>, mask: seq<real>, region: Option<seq<bool>>,
                     sigma: real, lg: real, nlogs: bool): (f: seq<real>)
    requires |model| == |field| && |image| == |field| && |mask| == |field|
    requires region.Some? ==> |region.value| == |field|
    requires sigma != 0.0
    ensures |f| == |field|
  {
    match region
    case None => Refresh(Zeros(|field|), MaskedModel(model, mask), image, mask, FullMask(|field|), sigma, lg, nlogs)
    case Some(m) => Refresh(field, model, image, mask, m, sigma, lg, nlogs)
  }

  function Zeros(n: nat): (z: seq<real>)
    ensures |z| == n
  {
    seq(n, _ => 0.0)
  }

  method NewArray(s: seq<real>) returns (a: array<real>)
    ensures fresh(a) && a[..] == s
  {
    a := new real[|s|](i requires 0 <= i < |s| => s[i]);
  }

  method ZeroField(a: array<real>)
    modifies a
    ensures a[..] == Zeros(a.Length)
  {
    forall v | 0 <= v < a.Length {
      a[v] := 0.0;
    }
  }

  /** `self._loglikelihood_field[slicer] = ...` for the voxels of `m`. */
  method WriteField(a: array<real>, data: seq<real>, image: seq<real>, mask: seq<real>, m: seq<bool>,
                    sigma: real, lg: real, nlogs: bool)
    requires |data| == a.Length && |image| == a.Length && |mask| == a.Length && |m| == a.Length
    requires sigma != 0.0
    modifies a
    ensures a[..] == Refresh(old(a[..]), data, image, mask, m, sigma, lg, nlogs)
  {
    forall v | 0 <= v < a.Length && m[v] {
      a[v] := LLValue(data[v], image[v], mask[v], sigma, lg, nlogs);
    }
  }

  /** The model image after `_update_tile` writes the inner tile: the
      difference field is subtracted in difference mode, otherwise the
      rendered image replaces what was there. */
  function Rendered(model: seq<real>, m: seq<bool>, full: (Collab, Tile, nat) -> real,
                    diffr: (Collab, Collab, Tile, nat) -> real,
                    before: Collab, after: Collab, outer: Tile, diff: bool): (r: seq<real>)
    requires |model| == |m|
    ensures |r| == |model|
    ensures forall v :: 0 <= v < |m| ==> r[v] == (if !m[v] then model[v] else if diff then model[v] - diffr(before, after, outer, v) else full(after, outer, v))
  {
    seq(|model|, v requires 0 <= v < |model| =>
      if !m[v] then model[v]
      else if diff then model[v] - diffr(before, after, outer, v)
      else full(after, outer, v))
  }

  method WriteModel(a: array<real>, m: seq<bool>, full: (Collab, Tile, nat) -> real,
                    diffr: (Collab, Collab, Tile, nat) -> real,
                    before: Collab, after: Collab, outer: Tile, diff: bool)
    requires |m| == a.Length
    modifies a
    ensures a[..] == Rendered(old(a[..]), m, full, diffr, before, after, outer, diff)
  {
    forall v | 0 <= v < a.Length && m[v] {
      a[v] := if diff then a[v] - diffr(before, after, outer, v) else full(after, outer, v);
    }
  }

  /** `obj.get_support_size() / 2.0`. */
  function Half(v: seq<real>): (h: seq<real>)
    ensures |h| == |v| && forall k :: 0 <= k < |v| ==> h[k] * 2.0 == v[k]
  {
    seq(|v|, k requires 0 <= k < |v| => v[k] / 2.0)
  }

  /** A write keeps the z-scale and sigma it touches non-zero. */
  predicate ScalesNonzero(L: Layout, block: Block, s: seq<real>)
    requires |block| == NParams(L) && |s| == NParams(L)
  {
    OffsetValues(L);
    (Touched(L, block, 6) ==> s[Offset(L, 6)] != 0.0) && (Touched(L, block, 7) ==> s[Offset(L, 7)] != 0.0)
  }

  /** `state[b_psf]`, `state[b_ilm]`, `state[b_off]`, `state[b_zscale]`, `state[b_sigma]`. */
  function PsfOf(L: Layout, s: seq<real>): seq<real>
    requires |s| == NParams(L)
  {
    OffsetValues(L);
    s[Offset(L, 3)..Offset(L, 4)]
  }

  function IlmOf(L: Layout, s: seq<real>): seq<real>
    requires |s| == NParams(L)
  {
    OffsetValues(L);
    s[Offset(L, 4)..Offset(L, 5)]
  }

  function ScalarOf(L: Layout, s: seq<real>, k: nat): real
    requires |s| == NParams(L) && 5 <= k < |ParamOrder|
  {
    OffsetValues(L);
    s[Offset(L, k)]
  }

  /** Rendering the same collaborators twice gives what rendering once does. */
  lemma RenderedTwice(model: seq<real>, m: seq<bool>, full: (Collab, Tile, nat) -> real,
                      diffr: (Collab, Collab, Tile, nat) -> real, c: Collab, outer: Tile)
    requires |model| == |m|
    ensures Rendered(Rendered(model, m, full, diffr, c, c, outer, false), m, full, diffr, c, c, outer, false)
         == Rendered(model, m, full, diffr, c, c, outer, false)
  {
  }

  /** Refreshing the same region from the same model twice gives what
      refreshing once does. */
  lemma RefreshedTwice(field: seq<real>, model: seq<real>, image: seq<real>, mask: seq<real>, m: seq<bool>,
                       sigma: real, lg: real, nlogs: bool)
    requires |model| == |field| && |image| == |field| && |mask| == |field| && |m| == |field|
    requires sigma != 0.0
    ensures Refreshed(Refreshed(field, model, image, mask, Some(m), sigma, lg, nlogs), model, image, mask, Some(m), sigma, lg, nlogs)
         == Refreshed(field, model, image, mask, Some(m), sigma, lg, nlogs)
  {
  }

  /** A tile function with the properties the update proofs use of
      `TileFromParticleChange`: defined for every context of 3-vectors, giving
      two tiles of three axes each, and with its crop aligned whenever both
      extents are nonnegative and the PSF support is positive. */
  ghost predicate TileFnOk(f: (TileContext, seq<real>, real, real, seq<real>, real, real) --> TileChange)
  {
    forall ctx: TileContext, p0: seq<real>, r0: real, t0: real, p1: seq<real>, r1: real, t1: real
      | ctx.Valid() && |p0| == 3 && |p1| == 3 ::
      && f.requires(ctx, p0, r0, t0, p1, r1, t1)
      && var tc := f(ctx, p0, r0, t0, p1, r1, t1);
         && tc.outer.Valid() && tc.inner.Valid() && |tc.outer.l| == 3 && |tc.inner.l| == 3
         && (tc.outer.NonNegative() && tc.inner.NonNegative() && (ctx.difference || forall k :: 0 <= k < 3 ==> ctx.psc[k] > 0.0)
             ==> CropAligned(tc.outer, tc.inner, tc.ioslice, ctx.shape))
  }

  lemma TileFnOkHolds()
    ensures TileFnOk(TileFromParticleChange)
  {
    forall ctx: TileContext, p0: seq<real>, r0: real, t0: real, p1: seq<real>, r1: real, t1: real
      | ctx.Valid() && |p0| == 3 && |p1| == 3 && (ctx.difference || forall k :: 0 <= k < 3 ==> ctx.psc[k] > 0.0)
    {
      ChangeCropAligned(ctx, p0, r0, t0, p1, r1, t1);
    }
  }

  class ConfocalImage {
    const L: Layout
    const shape: Shape
    const image: seq<real>
    const mask: seq<real>
    const pad: int
    const doprior: bool
    const difference: bool
    const nlogs: bool
    /** `const.ZEROLOGPRIOR` and `const.PRIORCUT`. */
    const zeroLogPrior: real
    const priorCut: real
    /** `nbl.logprior()`. */
    const cellPrior: Cell -> real
    /** `log(sqrt(2 pi) sigma)`. */
    const logNorm: real -> real
    /** `psf.get_support_size()` and `obj.get_support_size()`. */
    const psfSupport: seq<real> -> seq<real>
    const objSupport: Particles -> seq<real>
    /** `psf.execute(...)` of the full platonic image over the outer tile, at
        a voxel of the inner tile. */
    const fullRender: (Collab, Tile, nat) -> real
    /** The same for the difference field of a particle change. */
    const diffRender: (Collab, Collab, Tile, nat) -> real
    /** `_tile_from_particle_change`, held as a value: the constructor sets
        it to `TileFromParticleChange`, whose properties are proved in the
        layout module; the update proofs only use `TileFnValid`. */
    const tileChange: (TileContext, seq<real>, real, real, seq<real>, real, real) --> TileChange

    const state: array<real>
    var stack: seq<(Block, seq<real>)>
    var collab: Collab
    var nbl: Cell
    var sigma: real
    /** `self.zscale`; the object collaborator keeps its own in `collab`. */
    var zscale: real
    const modelImage: array<real>
    const llField: array<real>
    var loglik: real
    var logprior: real

    ghost predicate TileFnValid()
    {
      TileFnOk(tileChange)
    }

    /** `pad / 2` voxels are cropped off each side of the rendered image,
        which is at least `pad` voxels on each axis. */
    predicate PadFits()
    {
      pad % 2 == 0 && pad >= 2 && shape.nz >= pad && shape.ny >= pad && shape.nx >= pad
    }

    /** The PSF support is positive on every axis (outside difference mode,
        the crop of a particle tile is its rounded-up value). */
    predicate SupportPositive(psf: seq<real>)
    {
      |psfSupport(psf)| == 3 && (difference || forall k :: 0 <= k < 3 ==> psfSupport(psf)[k] > 0.0)
    }

    ghost predicate Valid()
      reads this, state, modelImage, llField
    {
      && TileFnValid()
      && state.Length == NParams(L)
      && modelImage.Length == Size(shape) && llField.Length == Size(shape)
      && state != modelImage && state != llField && modelImage != llField
      && |image| == Size(shape) && |mask| == Size(shape)
      && (forall e :: e in stack ==> |e.0| == NParams(L) && |e.1| == Blocks.Count(e.0))
      && collab.parts.Sized(L.n) && nbl.parts.Sized(L.n)
      && collab.zscale != 0.0 && zscale != 0.0 && sigma != 0.0
      && (forall ps :: |psfSupport(ps)| == 3 && SupportPositive(ps))
      && (forall ps :: |objSupport(ps)| == 3)
      && PadFits()
      && loglik == Sum(llField[..])
    }

    /** `_update_ll_field(data, slicer)`: refresh the field over the slicer
        and move the cached total by the new sum minus the old one; with no
        data, first zero both and use the masked model image everywhere. */
    method UpdateLLField(region: Option<seq<bool>>)
      requires Valid()
      requires region.Some? ==> |region.value| == Size(shape)
      modifies this, llField
      ensures Valid()
      ensures llField[..] == Refreshed(old(llField[..]), modelImage[..], image, mask, region, sigma, logNorm(sigma), nlogs)
      ensures state[..] == old(state[..]) && modelImage[..] == old(modelImage[..])
      ensures stack == old(stack) && collab == old(collab) && nbl == old(nbl) && sigma == old(sigma) && zscale == old(zscale) && logprior == old(logprior)
    {
      var n := Size(shape);
      var model := modelImage[..];
      var m: seq<bool>;
      var data: seq<real>;
      if region.None? {
        loglik := 0.0;
        ZeroField(llField);
        ZeroSum(n);
        data := MaskedModel(model, mask);
        m := FullMask(n);
      } else {
        data := model;
        m := region.value;
      }
      var f0 := llField[..];
      var oldll := SumWhere(f0, m);
      WriteField(llField, data, image, mask, m, sigma, logNorm(sigma), nlogs);
      var f1 := llField[..];
      var newll := SumWhere(f1, m);
      loglik := loglik + newll - oldll;
      SumReplace(f0, f1, m);
    }

    /** `_update_tile(otile, itile, ioslice, difference)`: write the inner
        tile of the model image, then refresh the log-likelihood there. The
        crop `ioslice` of the outer tile's rendering must select the inner
        tile, as `CropAligned` says; otherwise NumPy raises `ValueError`. */
    method UpdateTile(outer: Tile, inner: Tile, ioslice: seq<(int, int)>, diff: bool, before: Collab)
      requires Valid() && outer.Valid() && inner.Valid() && |outer.l| == 3 && |inner.l| == 3
      requires CropAligned(outer, inner, ioslice, shape)
      modifies this, modelImage, llField
      ensures Valid()
      ensures var m := SliceMask(inner.l, inner.r, shape);
        && modelImage[..] == Rendered(old(modelImage[..]), m, fullRender, diffRender, before, collab, outer, diff)
        && llField[..] == Refreshed(old(llField[..]), modelImage[..], image, mask, Some(m), sigma, logNorm(sigma), nlogs)
      ensures state[..] == old(state[..])
      ensures stack == old(stack) && collab == old(collab) && nbl == old(nbl) && sigma == old(sigma) && zscale == old(zscale) && logprior == old(logprior)
    {
      var m := SliceMask(inner.l, inner.r, shape);
      WriteModel(modelImage, m, fullRender, diffRender, before, collab, outer, diff);
      UpdateLLField(Some(m));
    }

    /** `_tile_global()`: the whole image, inside it the image less `pad / 2`
        on every side, and the crop `[pad/2 : -pad/2]` on every axis, with
        Python 2's floor division (`-pad/2` is `(-pad) / 2`). */
    function GlobalTiles(): (t: (Tile, Tile, seq<(int, int)>))
      ensures t.0.Valid() && t.1.Valid() && |t.0.l| == 3 && |t.1.l| == 3
      ensures t.0 == Tile([0, 0, 0], ShapeVec(shape))
      ensures forall k :: 0 <= k < 3 ==> t.1.l[k] == pad / 2 && t.1.r[k] == ShapeVec(shape)[k] - pad / 2
      ensures t.2 == seq(3, _ => (pad / 2, (-pad) / 2))
    {
      var sh := ShapeVec(shape);
      var h := pad / 2;
      var outer := NewTile(Scalar(0), Some(Vector(sh)), None, None);
      var inner := NewTile(Scalar(h), Some(Vector(seq(3, k requires 0 <= k < 3 => sh[k] - h))), None, None);
      (outer.value, inner.value, seq(3, _ => (h, (-pad) / 2)))
    }

    /** On an image at least one voxel wide on each axis, the global crop
        selects the inner global tile exactly when the padding is even, at
        least 2, and no wider than the image: an odd padding crops one voxel
        too many at the end, a zero padding gives the empty crop `[0:-0]`. */
    lemma GlobalCropAligned()
      requires shape.nz >= 1 && shape.ny >= 1 && shape.nx >= 1
      ensures var t := GlobalTiles(); CropAligned(t.0, t.1, t.2, shape) <==> PadFits()
    {
      var t := GlobalTiles();
      var sh := ShapeVec(shape);
      if CropAligned(t.0, t.1, t.2, shape) {
        assert Voxels.SliceBound((-pad) / 2, sh[0]) == sh[0] - pad / 2;
        assert t.1.l[0] <= t.1.r[0] && t.1.l[1] <= t.1.r[1] && t.1.l[2] <= t.1.r[2];
      }
    }

    /** What a global redraw leaves in the model image and the
        log-likelihood field: with `redraw`, the whole image rendered from
        the current collaborators over the inner global tile and the field
        refreshed there from `f0`; otherwise the image `m0` and the field
        `f0`. */
    ghost predicate GloballyDrawn(redraw: bool, m0: seq<real>, f0: seq<real>)
      reads this, modelImage, llField
      requires |m0| == Size(shape) && |f0| == Size(shape)
      requires |image| == Size(shape) && |mask| == Size(shape) && modelImage.Length == Size(shape) && sigma != 0.0
    {
      var gm := SliceMask(GlobalTiles().1.l, GlobalTiles().1.r, shape);
      if redraw then
        && modelImage[..] == Rendered(m0, gm, fullRender, diffRender, collab, collab, GlobalTiles().0, false)
        && llField[..] == Refreshed(f0, modelImage[..], image, mask, Some(gm), sigma, logNorm(sigma), nlogs)
      else
        modelImage[..] == m0 && llField[..] == f0
    }

    /** The collaborators after the PSF, ILM and offset assignments of the
        global branch for the write `s` of `block`. */
    function SetCollab(c: Collab, block: Block, s: seq<real>): Collab
      requires |block| == NParams(L) && |s| == NParams(L)
    {
      c.(psf := if Touched(L, block, 3) then PsfOf(L, s) else c.psf,
         ilm := if Touched(L, block, 4) then IlmOf(L, s) else c.ilm,
         offset := if Touched(L, block, 5) then ScalarOf(L, s, 5) else c.offset)
    }

    /** Whether the z-scale step rejects the write `s`: the z-scale was
        touched, the prior is on and the rebuilt cell's prior is below
        `PRIORCUT`. */
    predicate ZScaleCut(c: Collab, block: Block, s: seq<real>)
      requires |block| == NParams(L) && |s| == NParams(L)
    {
      Touched(L, block, 6) && doprior && cellPrior(Cell(c.parts, ScalarOf(L, s, 6))) < priorCut
    }

    /** `_update_global()`. */
    method UpdateGlobal()
      requires Valid()
      modifies this, modelImage, llField
      ensures Valid()
      ensures GloballyDrawn(true, old(modelImage[..]), old(llField[..]))
      ensures state[..] == old(state[..])
      ensures stack == old(stack) && collab == old(collab) && nbl == old(nbl) && sigma == old(sigma) && zscale == old(zscale) && logprior == old(logprior)
    {
      var (outer, inner, ioslice) := GlobalTiles();
      GlobalCropAligned();
      UpdateTile(outer, inner, ioslice, false, collab);
    }

    /** The tiles `_tile_from_particle_change` gives for particle `i`
        moving from the parameters `prev` to `s`. */
    function ChangeTiles(c: Collab, z: real, prev: seq<real>, s: seq<real>, i: nat): (tc: TileChange)
      requires |prev| == NParams(L) && |s| == NParams(L) && i < L.n
      requires TileFnValid() && z != 0.0 && |psfSupport(c.psf)| == 3 && |objSupport(c.parts)| == 3
      ensures tc.outer.Valid() && tc.inner.Valid() && |tc.outer.l| == 3 && |tc.inner.l| == 3
      ensures SupportPositive(c.psf) && tc.outer.NonNegative() && tc.inner.NonNegative() ==>
        CropAligned(tc.outer, tc.inner, tc.ioslice, shape)
    {
      var ctx := TileContext(psfSupport(c.psf), Half(objSupport(c.parts)), z, difference, shape);
      tileChange(ctx, PosOf(L, prev, i), RadOf(L, prev, i), TypOf(L, prev, i), PosOf(L, s, i), RadOf(L, s, i), TypOf(L, s, i))
    }

    /** `nbl.logprior() + ZEROLOGPRIOR * (state[b_rad] < 0).any()`. */
    function PriorOf(c: Cell, s: seq<real>): real
      requires |s| == NParams(L)
    {
      cellPrior(c) + zeroLogPrior * (if RadiusNegative(L, s) then 1.0 else 0.0)
    }

    /** Particle `i` set to its values in `s`, as `nbl.update` and
        `obj.update` do for one particle. */
    function PartsWith(ps: Particles, s: seq<real>, i: nat): (ps': Particles)
      requires |s| == NParams(L) && i < L.n && ps.Sized(L.n)
      ensures ps'.Sized(L.n)
    {
      SetParticle(ps, i, PosOf(L, s, i), RadOf(L, s, i), TypOf(L, s, i))
    }

    function CellWith(c: Cell, s: seq<real>, i: nat): (c': Cell)
      requires |s| == NParams(L) && i < L.n && c.parts.Sized(L.n)
      ensures c'.parts.Sized(L.n) && c'.zscale == c.zscale
    {
      Cell(PartsWith(c.parts, s, i), c.zscale)
    }

    /** `state[block] = prev[block]`: the rollback of a write that overwrote `prev`. */
    method Rollback(block: Block, prev: seq<real>, ghost data: seq<real>)
      requires Valid() && |block| == NParams(L) && |prev| == NParams(L) && |data| == Blocks.Count(block)
      requires state[..] == Scatter(prev, block, data)
      modifies state
      ensures Valid() && state[..] == prev
    {
      ScatterInto(state, block, Gather(prev, block));
      ScatterRestore(prev, block, data);
    }

    /** The overlap-prior check of the particle branch: move particle `i` of
        the cell to its new values and compute the prior; below `PRIORCUT`,
        move it back to its old values, recompute the prior (still against
        the new radii) and roll the state back. */
    method PriorCheck(block: Block, prev: seq<real>, ghost data: seq<real>, i: nat) returns (cut: bool)
      requires Valid() && |block| == NParams(L) && |prev| == NParams(L) && |data| == Blocks.Count(block)
      requires state[..] == Scatter(prev, block, data) && i < L.n
      modifies this, state
      ensures Valid()
      ensures var s := old(state[..]);
        && (cut <==> PriorOf(CellWith(old(nbl), s, i), s) < priorCut)
        && nbl == (if cut then CellWith(CellWith(old(nbl), s, i), prev, i) else CellWith(old(nbl), s, i))
        && logprior == PriorOf(nbl, s)
        && state[..] == (if cut then prev else s)
      ensures stack == old(stack) && collab == old(collab) && sigma == old(sigma) && zscale == old(zscale) && loglik == old(loglik)
    {
      var s := state[..];
      nbl := CellWith(nbl, s, i);
      logprior := PriorOf(nbl, s);
      cut := logprior < priorCut;
      if cut {
        nbl := CellWith(nbl, prev, i);
        logprior := PriorOf(nbl, s);
        Rollback(block, prev, data);
      }
    }

    /** The outcome of the particle branch of `update` for the write `prev`
        to `s` touching `ps`, judged in the source's order: any new position
        out of the image, more than one particle, a negative tile extent, the
        overlap prior below `PRIORCUT`, an inactive particle. */
    function ParticleOutcome(c: Collab, nb: Cell, z: real, prev: seq<real>, s: seq<real>, ps: seq<nat>): Outcome
      requires |prev| == NParams(L) && |s| == NParams(L)
      requires |ps| > 0 && forall k :: 0 <= k < |ps| ==> ps[k] < L.n
      requires TileFnValid() && z != 0.0 && |psfSupport(c.psf)| == 3 && |objSupport(c.parts)| == 3 && nb.parts.Sized(L.n)
    {
      if AnyOutOfDomain(L, s, ps, shape) then OutOfBounds
      else if |ps| >= 2 then Unsupported
      else OneOutcome(c, nb, z, prev, s, ps[0])
    }

    /** The outcome for a single touched particle inside the image. */
    function OneOutcome(c: Collab, nb: Cell, z: real, prev: seq<real>, s: seq<real>, i: nat): Outcome
      requires |prev| == NParams(L) && |s| == NParams(L) && i < L.n
      requires TileFnValid() && z != 0.0 && |psfSupport(c.psf)| == 3 && |objSupport(c.parts)| == 3 && nb.parts.Sized(L.n)
    {
      var tc := ChangeTiles(c, z, prev, s, i);
      if !(tc.outer.NonNegative() && tc.inner.NonNegative()) then NegativeTile
      else TailOutcome(nb, prev, s, i)
    }

    /** The outcome once the tiles have passed: the prior check, then the
        inactive case. */
    function TailOutcome(nb: Cell, prev: seq<real>, s: seq<real>, i: nat): Outcome
      requires |prev| == NParams(L) && |s| == NParams(L) && i < L.n && nb.parts.Sized(L.n)
    {
      if doprior && PriorOf(CellWith(nb, s, i), s) < priorCut then PriorCut
      else if TypOf(L, prev, i) == 0.0 && TypOf(L, s, i) == 0.0 then Inactive
      else Accepted
    }

    /** What the particle branch leaves in the state vector, the overlap
        cell, the prior term and the collaborators. */
    function ParticleEffect(c: Collab, nb: Cell, z: real, lp: real, prev: seq<real>, s: seq<real>, ps: seq<nat>): (e: Effect)
      requires |prev| == NParams(L) && |s| == NParams(L)
      requires |ps| > 0 && forall k :: 0 <= k < |ps| ==> ps[k] < L.n
      requires TileFnValid() && z != 0.0 && |psfSupport(c.psf)| == 3 && |objSupport(c.parts)| == 3 && nb.parts.Sized(L.n) && c.parts.Sized(L.n)
      ensures e.outcome == ParticleOutcome(c, nb, z, prev, s, ps)
    {
      var o := ParticleOutcome(c, nb, z, prev, s, ps);
      if o == OutOfBounds then Effect(o, prev, nb, lp, c)
      else if o == Unsupported then Effect(o, s, nb, lp, c)
      else OneEffect(c, nb, z, lp, prev, s, ps[0])
    }

    function OneEffect(c: Collab, nb: Cell, z: real, lp: real, prev: seq<real>, s: seq<real>, i: nat): (e: Effect)
      requires |prev| == NParams(L) && |s| == NParams(L) && i < L.n
      requires TileFnValid() && z != 0.0 && |psfSupport(c.psf)| == 3 && |objSupport(c.parts)| == 3 && nb.parts.Sized(L.n) && c.parts.Sized(L.n)
      ensures e.outcome == OneOutcome(c, nb, z, prev, s, i)
    {
      if OneOutcome(c, nb, z, prev, s, i) == NegativeTile then Effect(NegativeTile, prev, nb, lp, c)
      else TailEffect(c, nb, lp, prev, s, i)
    }

    /** The effect once the tiles have passed. A prior cut puts the cell's
        particle back to its old values and recomputes the prior; otherwise
        the cell keeps the new values, and only an accepted change moves the
        object's particle. */
    function TailEffect(c: Collab, nb: Cell, lp: real, prev: seq<real>, s: seq<real>, i: nat): (e: Effect)
      requires |prev| == NParams(L) && |s| == NParams(L) && i < L.n && nb.parts.Sized(L.n) && c.parts.Sized(L.n)
      ensures e.outcome == TailOutcome(nb, prev, s, i)
    {
      var o := TailOutcome(nb, prev, s, i);
      if o == PriorCut then
        var back := CellWith(CellWith(nb, s, i), prev, i);
        Effect(o, prev, back, PriorOf(back, s), c)
      else
        var nb' := if doprior then CellWith(nb, s, i) else nb;
        var lp' := if doprior then PriorOf(nb', s) else lp;
        Effect(o, s, nb', lp', if o == Accepted then c.(parts := PartsWith(c.parts, s, i)) else c)
    }

    /** An accepted particle change passed every check: each new position is
        in the image, one particle was touched, both tiles have nonnegative
        extents, the prior (when used) is at least `PRIORCUT`, and the
        particle is active before or after. */
    lemma AcceptedPassesChecks(c: Collab, nb: Cell, z: real, prev: seq<real>, s: seq<real>, ps: seq<nat>)
      requires |prev| == NParams(L) && |s| == NParams(L)
      requires |ps| > 0 && forall k :: 0 <= k < |ps| ==> ps[k] < L.n
      requires TileFnValid() && z != 0.0 && |psfSupport(c.psf)| == 3 && |objSupport(c.parts)| == 3 && nb.parts.Sized(L.n)
      ensures ParticleOutcome(c, nb, z, prev, s, ps) == Accepted <==>
        && (forall k :: 0 <= k < |ps| ==> forall a :: 0 <= a < 3 ==> 0.0 <= PosOf(L, s, ps[k])[a] <= ShapeVec(shape)[a] as real)
        && |ps| == 1
        && (forall a :: 0 <= a < 3 ==> ChangeTiles(c, z, prev, s, ps[0]).outer.l[a] <= ChangeTiles(c, z, prev, s, ps[0]).outer.r[a])
        && (forall a :: 0 <= a < 3 ==> ChangeTiles(c, z, prev, s, ps[0]).inner.l[a] <= ChangeTiles(c, z, prev, s, ps[0]).inner.r[a])
        && (doprior ==> PriorOf(CellWith(nb, s, ps[0]), s) >= priorCut)
        && (TypOf(L, prev, ps[0]) != 0.0 || TypOf(L, s, ps[0]) != 0.0)
    {
      var tc := ChangeTiles(c, z, prev, s, ps[0]);
      assert |tc.outer.l| == 3 && |tc.inner.l| == 3;
    }

    /** The rejections roll the state vector back; an inactive or
        unsupported change keeps the write. A prior cut leaves the cell as
        it was whenever the cell held the particle's old values. */
    lemma ParticleRollback(c: Collab, nb: Cell, z: real, lp: real, prev: seq<real>, s: seq<real>, ps: seq<nat>)
      requires |prev| == NParams(L) && |s| == NParams(L)
      requires |ps| > 0 && forall k :: 0 <= k < |ps| ==> ps[k] < L.n
      requires TileFnValid() && z != 0.0 && |psfSupport(c.psf)| == 3 && |objSupport(c.parts)| == 3 && nb.parts.Sized(L.n) && c.parts.Sized(L.n)
      ensures var e := ParticleEffect(c, nb, z, lp, prev, s, ps);
        && (e.outcome.Restores() ==> e.state == prev)
        && (!e.outcome.Restores() ==> e.state == s)
        && (e.outcome != Accepted ==> e.collab == c)
        && ((e.outcome == PriorCut && nb.parts.pos[ps[0]] == PosOf(L, prev, ps[0]) && nb.parts.rad[ps[0]] == RadOf(L, prev, ps[0])
             && nb.parts.typ[ps[0]] == TypOf(L, prev, ps[0])) ==> e.nbl == nb)
    {
      var i := ps[0];
      var e := ParticleEffect(c, nb, z, lp, prev, s, ps);
      if e.outcome == PriorCut && nb.parts.pos[i] == PosOf(L, prev, i) && nb.parts.rad[i] == RadOf(L, prev, i)
         && nb.parts.typ[i] == TypOf(L, prev, i) {
        SetParticleRestore(nb.parts, i, PosOf(L, s, i), RadOf(L, s, i), TypOf(L, s, i));
      }
    }

    /** Whether the fields the particle branch sets hold the effect `e`. */
    predicate Holds(e: Effect)
      reads this, state
    {
      state[..] == e.state && nbl == e.nbl && logprior == e.logprior && collab == e.collab
    }

    /** What the particle branch leaves in the model image and the
        log-likelihood field: the tile redrawn over `m` when the change was
        accepted, otherwise both fields and the cached total as they were. */
    ghost predicate Drawn(accepted: bool, m0: seq<real>, ll0: seq<real>, lg0: real, c0: Collab, outer: Tile, m: seq<bool>)
      reads this, modelImage, llField
      requires |m0| == Size(shape) && |ll0| == Size(shape) && |m| == Size(shape)
      requires |image| == Size(shape) && |mask| == Size(shape) && modelImage.Length == Size(shape) && sigma != 0.0
    {
      if accepted then
        && modelImage[..] == Rendered(m0, m, fullRender, diffRender, c0, collab, outer, difference)
        && llField[..] == Refreshed(ll0, modelImage[..], image, mask, Some(m), sigma, logNorm(sigma), nlogs)
      else
        modelImage[..] == m0 && llField[..] == ll0 && loglik == lg0
    }

    /** The single-particle tail of the particle branch, after the tiles
        passed: the prior check, the inactive case, then moving the object's
        particle and redrawing the tile. */
    method UpdateParticle(block: Block, prev: seq<real>, ghost data: seq<real>, i: nat, tc: TileChange) returns (o: Outcome)
      requires Valid() && |block| == NParams(L) && |prev| == NParams(L) && |data| == Blocks.Count(block)
      requires state[..] == Scatter(prev, block, data) && i < L.n
      requires tc.outer.Valid() && tc.inner.Valid() && |tc.outer.l| == 3 && |tc.inner.l| == 3
      requires CropAligned(tc.outer, tc.inner, tc.ioslice, shape)
      modifies this, state, modelImage, llField
      ensures Valid()
      ensures var e := TailEffect(old(collab), old(nbl), old(logprior), prev, old(state[..]), i);
        o == e.outcome && Holds(e)
      ensures Drawn(o == Accepted, old(modelImage[..]), old(llField[..]), old(loglik), old(collab), tc.outer, SliceMask(tc.inner.l, tc.inner.r, shape))
      ensures stack == old(stack) && sigma == old(sigma) && zscale == old(zscale)
    {
      var s := state[..];
      if doprior {
        var cut := PriorCheck(block, prev, data, i);
        if cut {
          return PriorCut;
        }
      }
      if TypOf(L, prev, i) == 0.0 && TypOf(L, s, i) == 0.0 {
        return Inactive;
      }
      var before := collab;
      collab := collab.(parts := PartsWith(collab.parts, s, i));
      UpdateTile(tc.outer, tc.inner, tc.ioslice, difference, before);
      o := Accepted;
    }

    /** The particle branch for the one touched particle `i`, inside the
        image: a negative tile extent rolls the state back; the rest is
        `UpdateParticle`. */
    method UpdateOne(block: Block, prev: seq<real>, ghost data: seq<real>, i: nat) returns (o: Outcome)
      requires Valid() && |block| == NParams(L) && |prev| == NParams(L) && |data| == Blocks.Count(block)
      requires state[..] == Scatter(prev, block, data) && i < L.n
      modifies this, state, modelImage, llField
      ensures Valid()
      ensures var e := OneEffect(old(collab), old(nbl), zscale, old(logprior), prev, old(state[..]), i);
        o == e.outcome && Holds(e)
      ensures var tc := ChangeTiles(old(collab), zscale, prev, old(state[..]), i);
        Drawn(o == Accepted, old(modelImage[..]), old(llField[..]), old(loglik), old(collab), tc.outer, SliceMask(tc.inner.l, tc.inner.r, shape))
      ensures stack == old(stack) && sigma == old(sigma) && zscale == old(zscale)
    {
      var tc := ChangeTiles(collab, zscale, prev, state[..], i);
      if !(tc.outer.NonNegative() && tc.inner.NonNegative()) {
        Rollback(block, prev, data);
        return NegativeTile;
      }
      o := UpdateParticle(block, prev, data, i, tc);
    }

    /** The particle branch of `update`, entered after the write `s` of the
        block that touched the particles `ps`: a new position outside the
        image rolls the state back, more than one particle is not supported,
        and one particle is `UpdateOne`. */
    method UpdateParticles(block: Block, prev: seq<real>, ghost data: seq<real>, ps: seq<nat>) returns (o: Outcome)
      requires Valid() && |block| == NParams(L) && |prev| == NParams(L) && |data| == Blocks.Count(block)
      requires state[..] == Scatter(prev, block, data)
      requires |ps| > 0 && forall k :: 0 <= k < |ps| ==> ps[k] < L.n
      modifies this, state, modelImage, llField
      ensures Valid()
      ensures var e := ParticleEffect(old(collab), old(nbl), zscale, old(logprior), prev, old(state[..]), ps);
        o == e.outcome && Holds(e)
      ensures var tc := ChangeTiles(old(collab), zscale, prev, old(state[..]), ps[0]);
        Drawn(o == Accepted, old(modelImage[..]), old(llField[..]), old(loglik), old(collab), tc.outer, SliceMask(tc.inner.l, tc.inner.r, shape))
      ensures stack == old(stack) && sigma == old(sigma) && zscale == old(zscale)
    {
      var s := state[..];
      ghost var e := ParticleEffect(collab, nbl, zscale, logprior, prev, s, ps);
      if AnyOutOfDomain(L, s, ps, shape) {
        assert e == Effect(OutOfBounds, prev, nbl, logprior, collab);
        Rollback(block, prev, data);
        return OutOfBounds;
      }
      if |ps| >= 2 {
        assert e == Effect(Unsupported, s, nbl, logprior, collab);
        return Unsupported;
      }
      assert e == OneEffect(collab, nbl, zscale, logprior, prev, s, ps[0]);
      o := UpdateOne(block, prev, data, ps[0]);
    }

    /** What the global branch leaves after the write `prev` to `s`, from the
        collaborators `c0`, cell `nb0`, z-scale `z0`, sigma `sg0`, prior term
        `lp0`, model image `m0` and field `f0`: a z-scale prior cut is the
        only rejection and rolls the state back; PSF, ILM and offset take
        their new values either way; a new sigma recomputes the whole field;
        a redraw happens when something besides sigma changed and nothing
        was cut. */
    ghost predicate GlobalEffect(o: Outcome, block: Block, prev: seq<real>, s: seq<real>, c0: Collab, nb0: Cell,
                                 z0: real, sg0: real, lp0: real, m0: seq<real>, f0: seq<real>)
      reads this, state, modelImage, llField
      requires |block| == NParams(L) && |prev| == NParams(L) && |s| == NParams(L)
      requires ScalesNonzero(L, block, s) && sg0 != 0.0
      requires |m0| == Size(shape) && |f0| == Size(shape)
      requires |image| == Size(shape) && |mask| == Size(shape) && modelImage.Length == Size(shape) && sigma != 0.0
    {
      OffsetValues(L);
      var t6 := Touched(L, block, 6);
      var t7 := Touched(L, block, 7);
      var zs := ScalarOf(L, s, 6);
      var cut := ZScaleCut(c0, block, s);
      var c1 := SetCollab(c0, block, s);
      var redraw := !cut && (Touched(L, block, 3) || Touched(L, block, 4) || Touched(L, block, 5) || t6);
      var sg := if t7 then ScalarOf(L, s, 7) else sg0;
      var f1 := if t7 then Refreshed(f0, m0, image, mask, None, sg, logNorm(sg), nlogs) else f0;
      && o == (if cut then ZScalePriorCut else Accepted)
      && state[..] == (if cut then prev else s)
      && collab == (if t6 && !cut then c1.(zscale := zs) else c1)
      && zscale == (if t6 then zs else z0)
      && sigma == sg
      && nbl == (if t6 && doprior && !cut then Cell(c0.parts, zs) else nb0)
      && logprior == (if t6 && doprior && !cut then PriorOf(nbl, s) else lp0)
      && GloballyDrawn(redraw, m0, f1)
    }

    /** The global branch of `update`, entered after the write `s` of a block
        that touches no particle. PSF, ILM and offset take their new values
        and ask for a redraw; a new sigma recomputes the whole
        log-likelihood field; a new z-scale rebuilds the overlap cell and,
        when its prior is below `PRIORCUT`, rolls the state back and returns
        before any redraw, keeping the other collaborator changes made so
        far. */
    method UpdateGlobals(block: Block, prev: seq<real>, ghost data: seq<real>) returns (o: Outcome)
      requires Valid() && |block| == NParams(L) && |prev| == NParams(L) && |data| == Blocks.Count(block)
      requires state[..] == Scatter(prev, block, data)
      requires ScalesNonzero(L, block, state[..])
      modifies this, state, modelImage, llField
      ensures Valid()
      ensures GlobalEffect(o, block, prev, old(state[..]), old(collab), old(nbl), old(zscale), old(sigma), old(logprior),
                           old(modelImage[..]), old(llField[..]))
      ensures stack == old(stack)
    {
      var s := state[..];
      OffsetValues(L);
      var docalc := SetCollaborators(block);
      if Touched(L, block, 7) {
        sigma := s[Offset(L, 7)];
        UpdateLLField(None);
      }
      if Touched(L, block, 6) {
        var cut := ZScaleStep(block, prev, data);
        if cut {
          return ZScalePriorCut;
        }
      }
      if docalc {
        ghost var gm := SliceMask(GlobalTiles().1.l, GlobalTiles().1.r, shape);
        ghost var m1 := modelImage[..];
        ghost var f1 := llField[..];
        UpdateGlobal();
        if Touched(L, block, 6) {
          RenderedTwice(old(modelImage[..]), gm, fullRender, diffRender, collab, GlobalTiles().0);
          assert modelImage[..] == m1;
          ghost var f0 := if Touched(L, block, 7) then Refreshed(old(llField[..]), old(modelImage[..]), image, mask, None, sigma, logNorm(sigma), nlogs)
                          else old(llField[..]);
          RefreshedTwice(f0, m1, image, mask, gm, sigma, logNorm(sigma), nlogs);
        }
      }
      o := Accepted;
    }

    /** The PSF, ILM and offset assignments of the global branch, and whether
        any of them asks for a redraw. */
    method SetCollaborators(block: Block) returns (docalc: bool)
      requires Valid() && |block| == NParams(L)
      modifies this
      ensures Valid()
      ensures var s := state[..];
        && docalc == (Touched(L, block, 3) || Touched(L, block, 4) || Touched(L, block, 5))
        && collab == SetCollab(old(collab), block, s)
      ensures stack == old(stack) && nbl == old(nbl) && sigma == old(sigma) && zscale == old(zscale)
      ensures logprior == old(logprior) && loglik == old(loglik)
    {
      var s := state[..];
      docalc := false;
      if Touched(L, block, 3) {
        collab := collab.(psf := PsfOf(L, s));
        docalc := true;
      }
      if Touched(L, block, 4) {
        collab := collab.(ilm := IlmOf(L, s));
        docalc := true;
      }
      if Touched(L, block, 5) {
        collab := collab.(offset := ScalarOf(L, s, 5));
        docalc := true;
      }
    }

    /** The z-scale step of the global branch: take the new z-scale; with
        the prior on, rebuild the cell from the object's particles and reject
        when its prior is below `PRIORCUT`, rolling the state back; otherwise
        keep the cell, give the object the new z-scale and redraw. */
    method ZScaleStep(block: Block, prev: seq<real>, ghost data: seq<real>) returns (cut: bool)
      requires Valid() && |block| == NParams(L) && |prev| == NParams(L) && |data| == Blocks.Count(block)
      requires state[..] == Scatter(prev, block, data)
      requires ScalarOf(L, state[..], 6) != 0.0
      modifies this, state, modelImage, llField
      ensures Valid()
      ensures var s := old(state[..]);
        var zs := ScalarOf(L, s, 6);
        && cut == (doprior && cellPrior(Cell(old(collab).parts, zs)) < priorCut)
        && zscale == zs
        && state[..] == (if cut then prev else s)
        && collab == (if cut then old(collab) else old(collab).(zscale := zs))
        && nbl == (if doprior && !cut then Cell(old(collab).parts, zs) else old(nbl))
        && logprior == (if doprior && !cut then PriorOf(nbl, s) else old(logprior))
        && GloballyDrawn(!cut, old(modelImage[..]), old(llField[..]))
      ensures stack == old(stack) && sigma == old(sigma)
    {
      var s := state[..];
      zscale := ScalarOf(L, s, 6);
      cut := false;
      if doprior {
        var tnbl := Cell(collab.parts, zscale);
        if cellPrior(tnbl) < priorCut {
          Rollback(block, prev, data);
          return true;
        }
        nbl := tnbl;
        logprior := PriorOf(nbl, s);
      }
      collab := collab.(zscale := zscale);
      UpdateGlobal();
    }

    /** The first steps of `update`: write `data` into the block of the
        state vector and clear the prior term. */
    method WriteBlock(block: Block, data: seq<real>)
      requires Valid() && |block| == NParams(L) && |data| == Blocks.Count(block)
      modifies this, state
      ensures Valid()
      ensures state[..] == Scatter(old(state[..]), block, data) && logprior == 0.0
      ensures stack == old(stack) && collab == old(collab) && nbl == old(nbl)
      ensures sigma == old(sigma) && zscale == old(zscale) && loglik == old(loglik)
    {
      ScatterInto(state, block, data);
      logprior := 0.0;
    }

    /** Everything `update(block, data)` leaves, from the state vector `s0`,
        collaborators `c0`, cell `nb0`, z-scale `z0`, sigma `sg0`, model image
        `m0`, field `f0` and total `lg0` it started from. The prior term is
        cleared by the write, so both branches start from 0. With particles
        touched: the outcome, state, cell, prior and collaborators of
        `ParticleEffect`, sigma and z-scale unchanged, and the tile redrawn
        exactly when the change is accepted. Otherwise: `GlobalEffect`. */
    ghost predicate Updated(o: Outcome, block: Block, data: seq<real>, s0: seq<real>, c0: Collab, nb0: Cell,
                            z0: real, sg0: real, m0: seq<real>, f0: seq<real>, lg0: real)
      reads this, state, modelImage, llField
      requires |block| == NParams(L) && |s0| == NParams(L) && |data| == Blocks.Count(block)
      requires ScalesNonzero(L, block, Scatter(s0, block, data))
      requires TileFnValid() && z0 != 0.0 && sg0 != 0.0 && |psfSupport(c0.psf)| == 3 && |objSupport(c0.parts)| == 3
      requires nb0.parts.Sized(L.n) && c0.parts.Sized(L.n)
      requires |m0| == Size(shape) && |f0| == Size(shape)
      requires |image| == Size(shape) && |mask| == Size(shape) && modelImage.Length == Size(shape) && sigma != 0.0
    {
      var s := Scatter(s0, block, data);
      var ps := AffectedParticles(L, block);
      if |ps| > 0 then
        var e := ParticleEffect(c0, nb0, z0, 0.0, s0, s, ps);
        var tc := ChangeTiles(c0, z0, s0, s, ps[0]);
        && o == e.outcome && Holds(e) && sigma == sg0 && zscale == z0
        && Drawn(o == Accepted, m0, f0, lg0, c0, tc.outer, SliceMask(tc.inner.l, tc.inner.r, shape))
      else
        GlobalEffect(o, block, s0, s, c0, nb0, z0, sg0, 0.0, m0, f0)
    }

    /** `update(block, data)`: write the block, then take the particle
        branch when it touches a particle and the global branch otherwise.
        The prior term is cleared first and only recomputed where a branch
        says so. The rejections that roll back restore the whole state;
        `Inactive` and `Unsupported` keep the write. */
    method Update(block: Block, data: seq<real>) returns (o: Outcome)
      requires Valid() && |block| == NParams(L) && |data| == Blocks.Count(block)
      requires ScalesNonzero(L, block, Scatter(state[..], block, data))
      modifies this, state, modelImage, llField
      ensures Valid()
      ensures Updated(o, block, data, old(state[..]), old(collab), old(nbl), old(zscale), old(sigma),
                      old(modelImage[..]), old(llField[..]), old(loglik))
      ensures var ps := AffectedParticles(L, block);
        |ps| > 0 ==> o == ParticleOutcome(old(collab), old(nbl), old(zscale), old(state[..]), Scatter(old(state[..]), block, data), ps)
      ensures |AffectedParticles(L, block)| == 0 ==> o == Accepted || o == ZScalePriorCut
      ensures state[..] == (if o.Restores() then old(state[..]) else Scatter(old(state[..]), block, data))
      ensures o != Accepted ==> modelImage[..] == old(modelImage[..])
      ensures |AffectedParticles(L, block)| > 0 && o != Accepted ==>
        collab == old(collab) && llField[..] == old(llField[..]) && loglik == old(loglik)
      ensures |AffectedParticles(L, block)| > 0 && (!doprior || o == OutOfBounds || o == Unsupported || o == NegativeTile) ==>
        logprior == 0.0 && nbl == old(nbl)
      ensures stack == old(stack)
    {
      var prev := state[..];
      WriteBlock(block, data);
      var ps := AffectedParticles(L, block);
      assert forall k :: 0 <= k < |ps| ==> ps[k] in ps;
      if |ps| > 0 {
        ghost var s := state[..];
        ghost var c0, nb0, lp0 := collab, nbl, logprior;
        o := UpdateParticles(block, prev, data, ps);
        ParticleRollback(c0, nb0, zscale, lp0, prev, s, ps);
      } else {
        o := UpdateGlobals(block, prev, data);
      }
    }

    /** `push_update(block, data)`: remember the block's current values,
        then update. */
    method PushUpdate(block: Block, data: seq<real>) returns (o: Outcome)
      requires Valid() && |block| == NParams(L) && |data| == Blocks.Count(block)
      requires ScalesNonzero(L, block, Scatter(state[..], block, data))
      modifies this, state, modelImage, llField
      ensures Valid()
      ensures stack == old(stack) + [(block, Gather(old(state[..]), block))]
      ensures Updated(o, block, data, old(state[..]), old(collab), old(nbl), old(zscale), old(sigma),
                      old(modelImage[..]), old(llField[..]), old(loglik))
      ensures state[..] == (if o.Restores() then old(state[..]) else Scatter(old(state[..]), block, data))
    {
      stack := stack + [(block, Gather(state[..], block))];
      o := Update(block, data);
    }

    /** `pop_update()`: update with the most recently remembered values,
        which raises `IndexError` on an empty stack. */
    method PopUpdate() returns (r: Option<Outcome>)
      requires Valid()
      requires |stack| > 0 ==> ScalesNonzero(L, stack[|stack| - 1].0, Scatter(state[..], stack[|stack| - 1].0, stack[|stack| - 1].1))
      modifies this, state, modelImage, llField
      ensures Valid()
      ensures r.None? <==> |old(stack)| == 0
      ensures r.None? ==> stack == old(stack) && state[..] == old(state[..])
      ensures r.None? ==> collab == old(collab) && nbl == old(nbl) && sigma == old(sigma) && zscale == old(zscale)
      ensures r.None? ==> logprior == old(logprior) && loglik == old(loglik)
      ensures r.None? ==> modelImage[..] == old(modelImage[..]) && llField[..] == old(llField[..])
      ensures r.Some? ==>
        var top := old(stack)[|old(stack)| - 1];
        && stack == old(stack)[..|old(stack)| - 1]
        && state[..] == (if r.value.Restores() then old(state[..]) else Scatter(old(state[..]), top.0, top.1))
        && Updated(r.value, top.0, top.1, old(state[..]), old(collab), old(nbl), old(zscale), old(sigma),
                   old(modelImage[..]), old(llField[..]), old(loglik))
    {
      if |stack| == 0 {
        return None;
      }
      var top := stack[|stack| - 1];
      assert top in stack;
      stack := stack[..|stack| - 1];
      var o := Update(top.0, top.1);
      r := Some(o);
    }

    /** `loglikelihood()`: the prior term plus the cached log-likelihood,
        which is the sum of the per-voxel field. */
    function LogLikelihood(): (r: real)
      requires Valid()
      reads this, state, modelImage, llField
      ensures r == logprior + Sum(llField[..])
    {
      logprior + loglik
    }

    /** `__init__` followed by `_build_state` and `set_image(raw)`: the
        parameters stacked from the collaborators, the image masked where it
        exceeds the padding value, the caches zeroed, then `_initialize`:
        the overlap cell and its prior (with the prior on), the PSF, object
        and ILM set up, and the whole image drawn. */
    constructor (L: Layout, shape: Shape, raw: seq<real>, padVal: real, pad: int,
                 doprior: bool, difference: bool, nlogs: bool, zeroLogPrior: real, priorCut: real,
                 cellPrior: Cell -> real, logNorm: real -> real,
                 psfSupport: seq<real> -> seq<real>, objSupport: Particles -> seq<real>,
                 fullRender: (Collab, Tile, nat) -> real, diffRender: (Collab, Collab, Tile, nat) -> real,
                 parts: Particles, psf: seq<real>, ilm: seq<real>, zscale: real, offset: real, sigma: real)
      requires |raw| == Size(shape) && parts.Sized(L.n) && |psf| == L.npsf && |ilm| == L.nilm
      requires zscale != 0.0 && sigma != 0.0
      requires pad % 2 == 0 && pad >= 2 && shape.nz >= pad && shape.ny >= pad && shape.nx >= pad
      requires forall ps :: |psfSupport(ps)| == 3 && (difference || forall k :: 0 <= k < 3 ==> psfSupport(ps)[k] > 0.0)
      requires forall ps :: |objSupport(ps)| == 3
      ensures Valid() && fresh(this.state) && fresh(this.modelImage) && fresh(this.llField)
      ensures this.tileChange == TileFromParticleChange
      ensures this.state[..] == Concat(StatePieces(L, Concat(parts.pos), parts.rad, parts.typ, psf, ilm, offset, zscale, sigma))
      ensures this.mask == ImageMask(raw, padVal) && this.image == MaskedModel(raw, this.mask)
      ensures this.stack == [] && this.sigma == sigma && this.zscale == zscale
      ensures this.collab == Collab(parts, zscale, psf, ilm, offset) && this.nbl == Cell(parts, zscale)
      ensures this.logprior == (if doprior then PriorOf(Cell(parts, zscale), this.state[..]) else 0.0)
      ensures GloballyDrawn(true, Zeros(Size(shape)), Zeros(Size(shape)))
    {
      var n := Size(shape);
      var m := ImageMask(raw, padVal);
      var st := NewState(L, parts, psf, ilm, offset, zscale, sigma);
      var mi := NewArray(Zeros(n));
      var lf := NewArray(Zeros(n));
      this.L := L;
      this.shape := shape;
      this.mask := m;
      this.image := MaskedModel(raw, m);
      this.pad := pad;
      this.doprior := doprior;
      this.difference := difference;
      this.nlogs := nlogs;
      this.zeroLogPrior := zeroLogPrior;
      this.priorCut := priorCut;
      this.cellPrior := cellPrior;
      this.logNorm := logNorm;
      this.psfSupport := psfSupport;
      this.objSupport := objSupport;
      this.fullRender := fullRender;
      this.diffRender := diffRender;
      this.tileChange := TileFromParticleChange;
      this.state := st;
      this.stack := [];
      this.sigma := sigma;
      this.zscale := zscale;
      this.modelImage := mi;
      this.llField := lf;
      this.loglik := 0.0;
      this.logprior := 0.0;
      this.nbl := Cell(parts, zscale);
      this.collab := Collab(parts, zscale, psf, ilm, offset);
      new;
      TileFnOkHolds();
      ZeroSum(n);
      if doprior {
        logprior := PriorOf(nbl, state[..]);
      }
      UpdateGlobal();
    }
  }

  /** The state vector `_build_state` stacks from the collaborators. */
  method NewState(L: Layout, parts: Particles, psf: seq<real>, ilm: seq<real>, offset: real, zscale: real, sigma: real)
    returns (st: array<real>)
    requires parts.Sized(L.n) && |psf| == L.npsf && |ilm| == L.nilm
    ensures fresh(st) && st.Length == NParams(L)
    ensures st[..] == Concat(StatePieces(L, Concat(parts.pos), parts.rad, parts.typ, psf, ilm, offset, zscale, sigma))
  {
    StateLength(L, parts, psf, ilm, offset, zscale, sigma);
    var s := BuildState(L, Concat(parts.pos), parts.rad, parts.typ, psf, ilm, offset, zscale, sigma);
    st := NewArray(s);
  }

  lemma {:induction false} ZeroSum(n: nat)
    ensures Sum(Zeros(n)) == 0.0
  {
    if n > 0 {
      assert Zeros(n)[..n - 1] == Zeros(n - 1);
      ZeroSum(n - 1);
    }
  }

  /** After `push_update` and `pop_update` of the same block the parameters
      are back where they started, unless the pop's own update rolled back
      a push that had been kept. */
  lemma PushPopRestores(s: seq<real>, b: Block, d: seq<real>, pushed: Outcome, popped: Outcome)
    requires |s| == |b| && |d| == Blocks.Count(b)
    requires !popped.Restores() || pushed.Restores()
    ensures var s1 := if pushed.Restores() then s else Scatter(s, b, d);
      var s2 := if popped.Restores() then s1 else Scatter(s1, b, Gather(s, b));
      s2 == s
  {
    if pushed.Restores() {
      if !popped.Restores() {
        ScatterGather(s, b);
      }
    } else {
      ScatterRestore(s, b, d);
    }
  }

  /** Flattening `n` positions of three coordinates gives `3n` numbers. */
  lemma {:induction false} PositionsFlatten(pos: seq<seq<real>>)
    requires forall j :: 0 <= j < |pos| ==> |pos[j]| == 3
    ensures |Concat(pos)| == 3 * |pos|
  {
    if |pos| > 0 {
      PositionsFlatten(pos[..|pos| - 1]);
    }
  }

  /** The stacked parameters of a collaborator set that fits the layout
      fill the vector, and the PSF block reads back the PSF parameters. */
  lemma StateLength(L: Layout, parts: Particles, psf: seq<real>, ilm: seq<real>, offset: real, zscale: real, sigma: real)
    requires parts.Sized(L.n) && |psf| == L.npsf && |ilm| == L.nilm
    ensures var s := Concat(StatePieces(L, Concat(parts.pos), parts.rad, parts.typ, psf, ilm, offset, zscale, sigma));
      |s| == NParams(L) && PsfOf(L, s) == psf
  {
    var pieces := StatePieces(L, Concat(parts.pos), parts.rad, parts.typ, psf, ilm, offset, zscale, sigma);
    PositionsFlatten(parts.pos);
    OffsetValues(L);
    assert PiecesFit(L, pieces);
    StateLayout(L, pieces, 3);
    CreateBlockSpec(L, 3);
    GatherRange(Concat(pieces), Offset(L, 3), Offset(L, 4));
  }
}
