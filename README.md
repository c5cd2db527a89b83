# A verified model of the cbamf / peri parameter-state core

This project models the core of a microscopy image-fitting engine. The engine
fits a generative model of a confocal image to data. It holds the
parameters of that model (particle positions and radii, point-spread
function, illumination, background) in a *state* object. It changes them in
small steps that can be undone, and it builds finite-difference gradients and
Hessians of the log-likelihood from those steps.

The code comes in two generations, and both are modelled:

- **cbamf** (the first generation). The state is one flat vector of reals.
  A *block* is a Boolean mask over that vector, and every update writes
  through such a mask. `ConfocalImagePython` lays out its parameters in
  named contiguous blocks. Its `update` changes one group of parameters,
  re-renders only the image tile that the change touches, rejects moves
  that break the overlap prior or the bounds, and rolls those moves back.
- **peri** (the second generation). Parameters are named and live in
  ordered `ParameterGroup` dictionaries. Undo records `(names, old values)`.
  The illumination components are polynomial parameter groups whose field
  is kept equal to the sum of their basis terms.

Modules, one per source concern:

- `Wrappers`: `Option` and `Result` for the error paths.
- `Voxels`: flat 3-D images in C order, box slicing and masked sums. These
  stand in for the NumPy operations.
- `CbamfUtil` (`cbamf/util.py`): `amin`/`amax`, `Tile` and `cdd`
  (conditional key deletion).
- `Names`: the `'%i'`-formatted parameter names, and the proof that distinct
  indices give distinct names.
- `Comp` (`peri/comp/comp.py`): `ParameterGroup` as a class over an ordered
  dictionary.
- `Blocks` and `CbamfState` (`cbamf/states.py`): masks, the block
  constructors, `explode`, and the base `State` with its undo stack and
  finite differences.
- `ConfocalLayout` and `Confocal` (`cbamf/states.py`): the parameter layout
  of `ConfocalImagePython`, the tile computation, and `update` with its
  rejection paths and rollback.
- `PeriStates` (`peri/states.py`): the named-parameter `State`, its
  differences, `PolyFitState`'s layout and `ConfocalImageState`'s model
  selection.
- `Objs` (`cbamf/comp/objs.py`): the sphere collection, whose occupancy
  field is kept equal to the sum of its particles' contributions.
- `Ilms` (`peri/comp/ilms.py`): `Polynomial3D`, `Polynomial2P1D` (including
  its use of `order[1::-1]` and `order[0]`, so `order[2]` is never read) and
  the Barnes parameter layout.
- `Runner`: `_calc_ilm_order` from `peri/runner.py`.

Collaborators the code calls but does not define are parameters of the
model, written as abstract functions: PSF execution, particle rendering, the
overlap prior's energy, the log-likelihood of a state vector and the
polynomial basis terms. Stateful objects in the source are Dafny classes:
`State`, `ParameterGroup`, `ConfocalImagePython`, `SphereCollectionRealSpace`,
`Polynomial3D` and `Polynomial2P1D`. Their methods are proved against
functions of the old state. Real numbers stand for floating point.

## Model

| member | source | states |
|---|---|---|
| Voxels.SliceBound | cbamf/util.py:37 | a slice bound is counted from the end when negative and clipped into the axis; a bound inside the axis is kept |
| Voxels.SliceMask | cbamf/util.py:37 | the mask of a box slicer selects exactly the voxels inside the normalised bounds on all three axes |
| Voxels.SumWhereFull | cbamf/states.py:425 | summing over the default slicer `np.s_[:]` is summing the whole field |
| Voxels.SumReplace | cbamf/states.py:430-439 | rewriting a field inside a region changes its total by the new regional sum minus the old one, the differencing rule of the cached log-likelihood |
| CbamfUtil.AMin | cbamf/util.py:4-5 | defined exactly for vectors of equal length; each entry is the smaller of the two |
| CbamfUtil.AMax | cbamf/util.py:7-8 | defined exactly for vectors of equal length; each entry is the larger of the two |
| CbamfUtil.Broadcast | cbamf/util.py:16-20 | a scalar becomes three equal entries, a vector is kept |
| CbamfUtil.Tile.Shape | cbamf/util.py:36 | the extent `r - l` along each axis |
| CbamfUtil.NewTile | cbamf/util.py:11-37 | a constructed tile has equal-length corners of at least three axes, its left corner is at least `mins` and its right corner at most `maxs` |
| CbamfUtil.TileFromExtent | cbamf/util.py:12-14 | `Tile(x)` is the box from the origin to `x`, so its shape is `x` |
| CbamfUtil.TileScalarCorners | cbamf/util.py:16-20 | scalar corners are broadcast to three axes |
| CbamfUtil.TileClamp | cbamf/util.py:22-30 | the left corner is clamped up by `mins` and the right corner down by `maxs`, entry by entry; an absent bound leaves its corner alone |
| CbamfUtil.TileNegativeExtent | cbamf/util.py:32-36 | the constructor accepts inverted corners and then reports a negative shape |
| CbamfUtil.Cdd | cbamf/util.py:39-45 | exactly the listed keys the dictionary had are removed (one key is a list of one), and the other entries keep their values |
| Names.NatStr | peri/comp/ilms.py:49 | `'%i'` of a nonnegative number is a nonempty string of decimal digits |
| Names.NatStrRoundTrip | peri/comp/ilms.py:49 | reading the digits of `'%i' % n` back gives `n` |
| Names.NatStrInjective | peri/comp/ilms.py:49 | different numbers format to different strings |
| Names.PairInjective | peri/comp/ilms.py:196 | two numbers joined with a dash determine the numbers |
| Names.Ilm3NameInjective | peri/comp/ilms.py:49 | `'ilm-%i-%i-%i'` names different orders differently, so no coefficient of the 3-D polynomial overwrites another |
| Names.IlmXYNameInjective | peri/comp/ilms.py:196 | `'ilm-xy-%i-%i'` names different orders differently |
| Names.IlmZNameInjective | peri/comp/ilms.py:203 | `'ilm-z-%i'` names different orders differently |
| Names.XYNameIsNotZName | peri/comp/ilms.py:196-203 | the `xy` and `z` families of the 2+1-D polynomial never share a name |
| Names.CoeffNameInjective | peri/states.py:182 | `'c-%i'` names different coefficients differently |
| Names.CoeffNameIsNotSigma | peri/states.py:182-185 | no coefficient name is `sigma`, so the noise parameter appended after them is a new key |
| Comp.InsertProps | peri/comp/comp.py:35-41 | one `d[p] = v` keeps the dictionary well formed, overwrites in place for a known key and appends an unknown key at the end |
| Comp.InsertAllWellFormed | peri/comp/comp.py:35-41 | `set_values` keeps the ordered dictionary well formed and the old key order is a prefix of the new one |
| Comp.InsertAllFrame | peri/comp/comp.py:35-41 | a name not written keeps its presence and its value |
| Comp.InsertAllGet | peri/comp/comp.py:35-41 | after writing distinct names each holds the value zipped with it |
| Comp.InsertAllHas | peri/comp/comp.py:35-41 | every written name is present afterwards |
| Comp.InsertAllKeysGrow | peri/comp/comp.py:35-41 | writing never removes a key |
| Comp.InsertAllFreshKeys | peri/comp/comp.py:14-17 | fresh distinct names are appended in the order given, as many as `zip` pairs |
| Comp.InsertAllSnoc | peri/comp/comp.py:39-41 | writing one more zipped pair is one more insertion after the prefix |
| Comp.InsertAllZipped | peri/comp/comp.py:39-41 | `zip` stops at the shorter list: the pairs past it are never written |
| Comp.InsertAllKnown | peri/comp/comp.py:35-41 | writing only names already present adds no key and keeps the key order |
| Comp.Get | peri/comp/comp.py:30-33 | succeeds exactly when every asked name is present (otherwise the `KeyError`) and returns their values in the order asked |
| Comp.ParameterGroup.constructor | peri/comp/comp.py:8-21 | zipped names and values are inserted in order; an ordered dictionary given alone is taken as is; no parameters give an empty group |
| Comp.ParameterGroup.SetValues | peri/comp/comp.py:35-41 | the new dictionary is the old one with the zipped pairs inserted in order, and stays well formed |
| Comp.ParameterGroup.Update | peri/comp/comp.py:23-28 | `update` has the effect of `set_values` |
| Comp.ParameterGroup.GetValues | peri/comp/comp.py:30-33 | the lookup succeeds exactly when every name is a key (otherwise the `KeyError`), and then gives each name's value in the order asked |
| Comp.ParameterGroup.Params | peri/comp/comp.py:43-45 | for a well-formed group, the keys listed once each, and exactly the parameter names |
| Comp.ParameterGroup.Values | peri/comp/comp.py:47-49 | the values listed in key order, one per parameter |
| Comp.SetThenGet | peri/comp/comp.py:30-41 | reading back distinct names just written returns the values written |
| Comp.ConstructFromPairs | peri/comp/comp.py:14-17 | a group built from distinct names has exactly those keys, in the order given, each mapped to its value |
| Blocks.Gather | cbamf/states.py:22 | `state[block]` has one entry per set bit |
| Blocks.GatherAt | cbamf/states.py:22 | the entry of `state[block]` at the rank of set bit `i` is `state[i]` |
| Blocks.ScatterInto | cbamf/states.py:17-19 | the in-place write on the state array leaves exactly the pointwise `Scatter` of the old contents |
| Blocks.ScatterOff | cbamf/states.py:18 | a write leaves every entry outside the block unchanged |
| Blocks.ScatterGather | cbamf/states.py:18-22 | writing back the block's own entries changes nothing |
| Blocks.ScatterScatter | cbamf/states.py:18 | a second write on the same block overrides the first |
| Blocks.ScatterRestore | cbamf/states.py:21-28 | writing the snapshot `push_update` took undoes the write: the restore that `pop_update` relies on |
| Blocks.GatherScatter | cbamf/states.py:18-22 | reading a block just written returns the data written |
| Blocks.RankedIndex | cbamf/states.py:18 | every rank below the bit count belongs to one set bit |
| Blocks.PerturbAt | cbamf/states.py:58 | `state[block] + dl` written back moves exactly the block's entries, each by `dl` |
| Blocks.PerturbCommute | cbamf/states.py:69-70 | the two steps of `_hess_two_param` commute |
| Blocks.PerturbTwice | cbamf/states.py:69-70 | stepping one block twice (a diagonal Hessian entry) steps it by `2 dl` |
| Blocks.BlockAll | cbamf/states.py:33-34 | all-true of length `nparams` |
| Blocks.BlockNone | cbamf/states.py:36-37 | all-false of length `nparams` |
| Blocks.BlockRangeAsWritten | cbamf/states.py:39-44 | `block_range` as written keeps length `nparams` (its slice follows Python's rules for a negative end) |
| Blocks.BlockRangeNegativeUpper | cbamf/states.py:39-44 | `block_range(0, -1)` on three parameters selects the first two |
| Blocks.BlockRange | cbamf/states.py:39-44 | true exactly on `[max(lo, 0), min(hi, nparams))` |
| Blocks.BlockRangeAgrees | cbamf/states.py:39-44 | for every nonnegative upper bound the code as written and the intended range agree |
| Blocks.CountRun | cbamf/states.py:39-44 | a block true exactly on `[lo, hi)` selects `hi - lo` entries |
| Blocks.GatherRange | cbamf/states.py:615-622 | reading a range block is taking the slice `state[lo:hi]` |
| Blocks.GatherRangeAt | cbamf/states.py:615-622 | entry `k` of a range block's read is `state[lo + k]` |
| Blocks.Singleton | cbamf/states.py:52-53 | the block with the single bit `i` |
| Blocks.SetIndices | cbamf/states.py:47-48 | `np.arange(len(block))[block]` lists one set index per set bit |
| Blocks.SetIndicesSpec | cbamf/states.py:47-48 | the set indices are strictly ascending and include every set bit |
| Blocks.Explode | cbamf/states.py:46-55 | the loop returns `Exploded`, one singleton per set index in ascending order |
| Blocks.ExplodedProps | cbamf/states.py:46-55 | each exploded block has exactly one bit, the bits ascend, and their union is the block (both directions) |
| Blocks.SingletonCount | cbamf/states.py:52-53 | a singleton block selects one entry |
| CbamfState.Push | cbamf/states.py:21-24 | a push writes the block and grows the stack by one entry |
| CbamfState.Pop | cbamf/states.py:26-28 | a pop succeeds exactly on a nonempty stack, shrinks it by one and keeps every entry well-formed |
| CbamfState.PopPush | cbamf/states.py:17-28 | a push followed by a pop gives back the state vector and the stack exactly |
| CbamfState.PushAllPopN | cbamf/states.py:21-28 | nested pushes unwind last-in first-out: as many pops as pushes restore the vector and the stack |
| CbamfState.CentralDiffEven | cbamf/states.py:57-66 | the central difference does not depend on the sign of the step |
| CbamfState.MixedDiffSymmetric | cbamf/states.py:68-85 | the mixed difference is symmetric in its two blocks |
| CbamfState.MixedDiffDiagonal | cbamf/states.py:68-85 | on the diagonal the mixed difference is the forward second difference with steps `dl` and `2 dl` |
| CbamfState.HessEntrySymmetric | cbamf/states.py:115-120 | the stored Hessian entry at `(i, j)` equals the one at `(j, i)` and is the mixed difference of blocks `i` and `j` |
| CbamfState.HessMatrix | cbamf/states.py:113-120 | the Hessian is `n x n` with the entries above |
| CbamfState.ChosenBlocksDefault | cbamf/states.py:97-98 | with no blocks given there is one block per parameter and block `k` holds parameter `k` alone |
| CbamfState.State.constructor | cbamf/states.py:11-15 | the given vector or zeros, an empty stack, and the given `logpriors` kept beside the model's likelihood |
| CbamfState.State.LogLikelihood | cbamf/states.py:89-93 | `loglikelihood(state)` of the current vector: the model's `dologlikelihood`, with the `logpriors` term added exactly when one was given |
| CbamfState.State.UpdateState | cbamf/states.py:17-19 | `state[block] = data` and the result is True |
| CbamfState.State.Update | cbamf/states.py:30-31 | `update` is the write of `_update_state` |
| CbamfState.State.PushUpdate | cbamf/states.py:21-24 | the new vector and stack are `Push` of the old ones |
| CbamfState.State.PopUpdate | cbamf/states.py:26-28 | on a nonempty stack the new vector and stack are `Pop` of the old; on an empty one the call fails (Python's IndexError) and nothing changes |
| CbamfState.State.GradSingleParam | cbamf/states.py:57-66 | returns the central difference over the block and leaves the vector and the stack as they were |
| CbamfState.State.HessTwoParam | cbamf/states.py:68-85 | returns the mixed difference of the two blocks and leaves the vector and the stack as they were |
| CbamfState.State.GradLogLikelihood | cbamf/states.py:96-104 | one central difference per chosen block, in order, with the state unchanged |
| CbamfState.State.HessLogLikelihood | cbamf/states.py:106-122 | with `jtj` the outer product of the gradient, otherwise the symmetric matrix of mixed differences; the state is unchanged |
| CbamfState.State.HessMixed | cbamf/states.py:113-122 | the double loop fills every entry with `HessEntry` although it computes only `j >= i` |
| CbamfState.State.HessRow | cbamf/states.py:116-120 | one pass of the inner loop fills row and column `i` from the diagonal on and keeps the filled part |
| ConfocalLayout.OffsetStep | cbamf/states.py:618-622 | each parameter's block ends where the next one starts: `off + param_lengths[index]` |
| ConfocalLayout.OffsetValues | cbamf/states.py:282-297 | the offsets of `pos`, `rad`, `typ`, `psf`, `ilm`, `off`, `zscale`, `sigma` are `0`, `3N`, `4N`, `4N` plus `N` when `varyn`, and so on, and the total is the sum of all the lengths |
| ConfocalLayout.OffsetMono | cbamf/states.py:618-622 | a later parameter never starts before an earlier one |
| ConfocalLayout.IndexOf | cbamf/states.py:619 | `list.index`: the first position holding the name, or none when the name is absent (the `ValueError`) |
| ConfocalLayout.BlockOffsetEnd | cbamf/states.py:615-622 | a name has an offset range exactly when it is in the parameter order, and the range lies inside the state vector |
| ConfocalLayout.CreateBlock | cbamf/states.py:615-622 | a block exists exactly when the name is a parameter (otherwise the `ValueError` of `index`), and it has the state vector's length |
| ConfocalLayout.CreateBlockSpec | cbamf/states.py:615-622 | `create_block(name)` selects exactly the indices from the parameter's offset up to its end; the default `'all'` is not a parameter name and raises |
| ConfocalLayout.ParamOrderIndex | cbamf/states.py:293 | the parameter names are distinct, so `index` finds each at its own position |
| ConfocalLayout.AllIsNotAParameter | cbamf/states.py:615 | `'all'` is not in the parameter order |
| ConfocalLayout.NamedBlocksPartition | cbamf/states.py:299-306 | every state index lies in exactly one of the eight named blocks |
| ConfocalLayout.TypBlockEmpty | cbamf/states.py:285 | without `varyn` the `typ` block selects nothing |
| ConfocalLayout.BuildState | cbamf/states.py:339-359 | the state vector is the parameter pieces concatenated in the fixed order, `typ` only when `varyn` |
| ConfocalLayout.ConcatLen | cbamf/states.py:339-359 | the first `j` pieces fill exactly up to the offset of parameter `j` |
| ConfocalLayout.StateLayout | cbamf/states.py:299-359 | the built vector has the total length and each named block of it reads back that parameter's own piece |
| ConfocalLayout.ParticleBlocksInside | cbamf/states.py:600-613 | a particle's position block holds its three coordinates, all inside the `pos` block; its radius lies in the `rad` block and, with `varyn`, its type in the `typ` block |
| ConfocalLayout.BlockParticlePos | cbamf/states.py:600-603 | a block over the whole state vector; `ParticleBlocksInside` states which entries it selects |
| ConfocalLayout.BlockParticleRad | cbamf/states.py:605-608 | a block exists exactly when `3N + i` is inside the state vector (otherwise the `IndexError`), and then it selects that one index and no other |
| ConfocalLayout.BlockParticleTyp | cbamf/states.py:610-613 | a block exists exactly when `4N + i` is inside the state vector (otherwise the `IndexError`), and then it selects that one index and no other |
| ConfocalLayout.BlocksParticle | cbamf/states.py:591-598 | four one-element ranges: the three coordinates, then the radius |
| ConfocalLayout.BlocksParticleSingletons | cbamf/states.py:591-608 | each of those ranges is the single index, and the radius range equals `block_particle_rad` |
| ConfocalLayout.AffectedParticles | cbamf/states.py:487-491 | the particles a block touches are listed once each, in increasing order, and are exactly those whose position or radius entries the block selects |
| ConfocalLayout.GlobalBlockTouchesNoParticle | cbamf/states.py:487-491 | a block of `psf`, `ilm`, `off`, `zscale` or `sigma` touches no particle, so it takes the global branch |
| ConfocalLayout.PrepareFilter | cbamf/states.py:179-198 | positions are shifted by the padding; a radius list of the wrong length is the error case; otherwise exactly the kept particles remain, in order, with their radii (a scalar radius is repeated for every particle) |
| ConfocalLayout.KeepMaskSpec | cbamf/states.py:188-198 | every kept particle is inside the padded image with a nonnegative radius, order is preserved, and no such particle is dropped |
| ConfocalLayout.OuterTileCovers | cbamf/states.py:381-409 | the outer tile lies inside the image and, for each active side of the change, covers that particle's reach (radius scaled by `zscale`, support sizes, one voxel of margin), clamped to the image |
| ConfocalLayout.CornersReach | cbamf/states.py:394-402 | the unclamped corners reach at least as far as each active particle's extent |
| ConfocalLayout.OuterTileInactive | cbamf/states.py:403-409 | when neither side of the change is an active particle the outer tile is the whole image |
| ConfocalLayout.TileIgnoresInactiveSide | cbamf/states.py:394-405 | the position and radius of an inactive side do not affect the tiles |
| ConfocalLayout.TileFromParticleChange | cbamf/states.py:380-417 | both tiles have three axes; the outer tile is the clamped particle box; the inner tile is the outer one shrunk by the crop width on each side (1 for a difference render, `ceil(psc)` otherwise); the slice is `[w:-w]` with that same width |
| ConfocalLayout.CropWidthPositive | cbamf/states.py:407-416 | the crop width is positive on every axis in difference mode, and also when every support size is positive |
| ConfocalLayout.ChangeCropAligned | cbamf/states.py:407-416 | with positive crop widths and tiles of nonnegative extent, reading the slice out of the outer tile gives exactly the inner tile, so the assignment into the inner tile has matching shapes |
| ConfocalLayout.ZeroSupportMisaligned | cbamf/states.py:414-416 | a full render with a support size whose ceiling is 0 gives the slice `[0:-0]`, which is empty, so it cannot fill a non-empty inner tile and NumPy would raise |
| ConfocalLayout.InnerWithinOuter | cbamf/states.py:407-416 | the inner tile lies inside the outer tile on every axis |
| Confocal.SetParticleRestore | cbamf/states.py:525-530 | setting the particle back to its old position, radius and type undoes the move, which is how a prior cut restores the overlap cell |
| Confocal.MaskedModel | cbamf/states.py:333-334 | the image multiplied voxel by voxel by the mask |
| Confocal.ImageMask | cbamf/states.py:316 | the mask is 1 where the raw image exceeds the padding value and 0 elsewhere |
| Confocal.Refresh | cbamf/states.py:432-437 | inside the region each voxel holds the Gaussian log-likelihood of the data against the image, outside it the field is unchanged |
| Confocal.WriteField | cbamf/states.py:434-437 | the field buffer becomes `Refresh` of its old contents |
| Confocal.ZeroField | cbamf/states.py:427-429 | the buffer is all zeros |
| Confocal.Rendered | cbamf/states.py:453-478 | inside the inner tile the model image is replaced by the rendered full field, or decreased by the rendered difference field; outside it is unchanged |
| Confocal.WriteModel | cbamf/states.py:475-478 | the model buffer becomes `Rendered` of its old contents |
| Confocal.Half | cbamf/states.py:383 | each entry is half the object's support size |
| Confocal.RenderedTwice | cbamf/states.py:578-582 | a second full redraw with the same collaborators changes nothing, so the z-scale redraw followed by the `docalc` redraw equals one redraw |
| Confocal.RefreshedTwice | cbamf/states.py:578-582 | refreshing the log-likelihood field twice over the same region with the same model equals refreshing it once |
| Confocal.ConfocalImage.UpdateLLField | cbamf/states.py:425-439 | the field is refreshed over the region (the whole image when no data is given) and the cached total stays the sum of the field; the parameters, stack and model image are unchanged |
| Confocal.ConfocalImage.UpdateTile | cbamf/states.py:444-479 | requires that `ioslice` cut out of the outer tile is the inner tile (else NumPy's shape error); the model image is re-rendered, or differenced, inside the inner tile, the field refreshed there, and the total kept equal to the field's sum; the parameters are unchanged |
| Confocal.ConfocalImage.GlobalTiles | cbamf/states.py:419-423 | the outer tile is the whole image, the inner one is the image less `pad / 2` (floor division) on every side, and the slice is `[pad/2:-pad/2]` on all three axes |
| Confocal.ConfocalImage.GlobalCropAligned | cbamf/states.py:419-423 | the global slice cuts exactly the inner tile out of the image if and only if `pad` is even, at least 2 and no larger than any side |
| Confocal.ConfocalImage.UpdateGlobal | cbamf/states.py:441-442 | a full redraw over the global tiles with the parameters unchanged |
| Confocal.ConfocalImage.Rollback | cbamf/states.py:514-516 | `state[block] = prev[block]` brings back exactly the vector before the write |
| Confocal.ConfocalImage.PriorCheck | cbamf/states.py:524-533 | the cell takes the new particle and the prior is recomputed; the change is cut exactly when the prior is below `PRIORCUT`, and then the cell takes the old particle back and the state is rolled back |
| Confocal.ConfocalImage.AcceptedPassesChecks | cbamf/states.py:514-540 | a particle change is accepted exactly when every new position is inside the image, one particle is touched, both tiles have nonnegative extent, the prior (when on) is at least `PRIORCUT`, and the particle is active before or after |
| Confocal.ConfocalImage.ParticleRollback | cbamf/states.py:514-536 | every rejection that restores leaves the old vector, the others keep the write; a rejection never moves the collaborators; a prior cut gives the cell back its old particle |
| Confocal.ConfocalImage.UpdateParticle | cbamf/states.py:524-540 | prior check, inactive case and accepted redraw: the new state is `TailEffect` and the images are redrawn over the tile exactly when accepted |
| Confocal.ConfocalImage.UpdateOne | cbamf/states.py:518-540 | the tile checks and then `UpdateParticle`; the new state is `OneEffect` |
| Confocal.ConfocalImage.UpdateParticles | cbamf/states.py:497-540 | the domain check, then one particle handled; the new state is `ParticleEffect` |
| Confocal.ConfocalImage.UpdateGlobals | cbamf/states.py:541-584 | psf, ilm and offset take their new values; a new sigma refreshes the whole field; a new z-scale rebuilds the cell and, when its prior is below `PRIORCUT`, rolls the state back and returns False without redrawing; otherwise the image is redrawn once when anything asked for it |
| Confocal.ConfocalImage.SetCollaborators | cbamf/states.py:542-557 | the PSF, ILM and offset collaborators take the values of the blocks touched, and a redraw is asked for exactly when one of them was touched |
| Confocal.ConfocalImage.ZScaleStep | cbamf/states.py:563-579 | the new z-scale is taken; with the prior on, the rebuilt cell's prior below `PRIORCUT` cuts the change and rolls the state back; otherwise the cell and prior are replaced and the object re-initialised and redrawn |
| Confocal.ConfocalImage.WriteBlock | cbamf/states.py:485-493 | the block is written into the state vector and the prior reset to 0 |
| Confocal.ConfocalImage.Update | cbamf/states.py:481-584 | with particles touched the outcome is `ParticleOutcome`; otherwise it is accepted or the z-scale prior cut; the state is the write unless the outcome restores; a rejected change leaves the model image alone, and a rejected particle change leaves the collaborators, field and total alone; the undo stack is untouched; the whole new state (collaborators, cell, z-scale, sigma, prior, model image, field, total) is `Updated` of the old one |
| Confocal.ConfocalImage.PushUpdate | cbamf/states.py:21-24 | the block's current values are pushed, then the update is made; the new state is `Updated` of the old one, as for `update` |
| Confocal.ConfocalImage.PopUpdate | cbamf/states.py:26-28 | on an empty stack the call fails and no field changes; otherwise the top entry is popped and written back by an update whose new state is `Updated` of the old one |
| Confocal.ConfocalImage.LogLikelihood | cbamf/states.py:651-652 | the prior plus the cached total, which equals the sum of the log-likelihood field |
| Confocal.ConfocalImage.constructor | cbamf/states.py:296-379 | the state vector stacks the collaborators' parameters in order; the image is masked above the padding value; the stack is empty; the cell and prior are built when the prior is on; the whole image is drawn from zeroed caches |
| Confocal.ZeroSum | cbamf/states.py:366 | a zeroed field sums to zero, so a fresh cached total is consistent with its field |
| Confocal.PushPopRestores | cbamf/states.py:21-28 | pushing then popping gives back the original vector, unless the pushed update went through and the popping update was rejected with a rollback |
| Confocal.PositionsFlatten | cbamf/states.py:343 | the flattened positions have three entries per particle |
| Confocal.NewState | cbamf/states.py:339-359 | a fresh array holding the stacked parameter vector, of the layout's length |
| Confocal.StateLength | cbamf/states.py:339-359 | the stacked vector has the layout's length and its `psf` block holds the PSF parameters |
| PeriStates.InsertAllPresent | peri/states.py:64-65 | updating only names already present keeps the key order and the key set |
| PeriStates.RestoreAll | peri/states.py:72-74 | writing back the saved values of the written names restores the dictionary, given that the other names kept their values |
| PeriStates.PushPopRestores | peri/states.py:67-74 | `push_update` followed by `pop_update` gives back the dictionary exactly |
| PeriStates.NestedPushPop | peri/states.py:67-74 | two nested pushes unwound in reverse order give back the dictionary |
| PeriStates.HessDiagonalAsWritten | peri/states.py:97-116 | as written, `_hess_two_param(p, p)` returns `(f0 - func()) / dl²`, because the second step starts from the value fetched before the first; with `f0` omitted or equal to `func()` at the current values (as `_hess` passes it) the result is 0 |
| PeriStates.MixedAsWrittenOffDiagonal | peri/states.py:97-116 | for two different names the code as written computes the mixed forward difference |
| PeriStates.MixedDiffDiagonal | peri/states.py:97-116 | the corrected diagonal entry is the forward second difference with steps `dl` and `2 dl` |
| PeriStates.MixedDiffSymmetric | peri/states.py:134-148 | the mixed difference is symmetric in its two names, so filling `hess[J][i]` with `hess[i][J]` is sound |
| PeriStates.WriteBackAsWritten | peri/states.py:112-114 | with `rts`, writing back both saved values restores the table after the steps as written |
| PeriStates.WriteBackSteps | peri/states.py:112-114 | with `rts`, writing back both saved values restores the table after the corrected steps |
| PeriStates.MixedSymmetric | peri/states.py:134-148 | both the as-written and the corrected mixed difference are symmetric in their two names |
| PeriStates.AsWrittenHessian | peri/states.py:134-148 | the Hessian the code as written returns has zeros on its diagonal and the mixed forward difference elsewhere |
| PeriStates.HessianDone | peri/states.py:141-148 | once every row is filled the matrix is the symmetric matrix of mixed differences |
| PeriStates.State.constructor | peri/states.py:20-25 | an empty stack and the group built as `ParameterGroup` builds it |
| PeriStates.State.PushUpdate | peri/states.py:67-70 | with every name present, the current values are pushed and the update made; a missing name is the `KeyError` and nothing changes |
| PeriStates.State.PopUpdate | peri/states.py:72-74 | on an empty stack the call fails (the `IndexError`) and nothing changes; otherwise the top entry is popped and written back |
| PeriStates.State.TempUpdate | peri/states.py:76-80 | a missing name is the `KeyError` and nothing changes; otherwise the body sees the updated table, and when it returns the dictionary and the stack are exactly as before, while when it raises (no `finally`) the written values and the pushed entry stay |
| PeriStates.State.SetOne | peri/states.py:89 | updating one present parameter changes its value only |
| PeriStates.State.GradOneParam | peri/states.py:85-95 | the forward difference of `func` in `p` against `f0` (or `func()` when not given); with `rts` the table is restored, otherwise `p` stays stepped; a missing name is the `KeyError` |
| PeriStates.State.ProbeAsWritten | peri/states.py:103-110 | the three evaluations of `_hess_two_param` on the tables the code as written visits |
| PeriStates.State.Probe | peri/states.py:103-110 | the three evaluations of the mixed forward difference, each step taken from the current value |
| PeriStates.State.HessTwoParamAsWritten | peri/states.py:97-116 | the code as written: returns `MixedAsWritten` and restores the table with `rts` |
| PeriStates.State.HessTwoParam | peri/states.py:97-116 | the corrected method: returns the mixed forward difference and restores the table with `rts`; a missing name is the `KeyError` |
| PeriStates.State.Grad | peri/states.py:118-128 | one forward difference per name (all names by default), all against the same `f0`, in order; it fails exactly when a name is missing, and the dictionary is unchanged |
| PeriStates.State.HessEntry | peri/states.py:144-147 | one entry and its mirror are filled with `_hess_two_param`, as written or corrected as selected, and the table is unchanged |
| PeriStates.State.HessRow | peri/states.py:143-147 | the inner loop fills row and column `i` from the diagonal on with the selected `_hess_two_param`; it fails exactly when a name from `i` on is missing |
| PeriStates.State.Hess | peri/states.py:134-148 | the symmetric matrix of `_hess_two_param` values over the names (all by default), as written (zero diagonal) or corrected, failing exactly when a name is missing; the dictionary is unchanged |
| PeriStates.GroupFromPairs | peri/comp/comp.py:8 | `ParameterGroup.__init__` rejects any extra keyword argument with a `TypeError` naming it, and otherwise builds the group from the pairs |
| PeriStates.PolyParams | peri/states.py:182-185 | `c-0`, ..., `c-(order-1)` followed by `sigma` |
| PeriStates.PolyValues | peri/states.py:183-186 | the given coefficients or `order` zeros, followed by 1.0 for sigma |
| PeriStates.PolyFitInit | peri/states.py:176-190 | without the stray keyword the constructor always succeeds; its contents are stated by `PolyFitLayout` and `PolyFitMismatched` |
| PeriStates.PolyFitInitAsWritten | peri/states.py:188-190 | as written the constructor always fails with the `TypeError` for the `ordered=False` keyword |
| PeriStates.PolyParamsDistinct | peri/states.py:182-185 | the parameter names of a polynomial fit are distinct |
| PeriStates.PolyFitLayout | peri/states.py:177-190 | without the keyword the group has the coefficient names then `sigma`, each coefficient its given value or 0, and `sigma` the value 1.0 (not the `sigma` argument) |
| PeriStates.PolyFitMismatched | peri/states.py:182-190 | with a coefficient list of the wrong length the names and values are zipped: extra coefficients leave `sigma` holding the coefficient at position `order`, too few leave `sigma` out and the first unmatched name holding 1.0 |
| PeriStates.InverseRoundTrip | peri/states.py:323 | inverting an injective category map gives back each key from its value |
| PeriStates.BuiltinsInjective | peri/states.py:296-312 | both built-in category maps are injective, so `mapcat` inverts them exactly |
| PeriStates.InvertMap | peri/states.py:323 | `mapcat = {v: k for k, v in catmap.iteritems()}` holds exactly the values of `catmap`, each mapped to a key holding it |
| PeriStates.SquaredResiduals | peri/states.py:469 | one scaled squared residual per voxel |
| PeriStates.WriteResiduals | peri/states.py:478 | `residuals[tile] = newmodel - data[tile]`, one entry per voxel |
| PeriStates.ModelChangeMatchesResiduals | peri/states.py:462-478 | when the stored residuals match the old model on the tile, the change in the residual log-likelihood after the write equals the new tile log-likelihood minus the old one |
| PeriStates.ConfocalImageState.constructor | peri/states.py:339-347 | the image kept, the residuals zeroed, the cached log-likelihood and prior 0, no model set; the cached likelihood starts equal to the residual log-likelihood of the stored residuals (`Tracks`) |
| PeriStates.ConfocalImageState.SetModelAsWritten | peri/states.py:286-323 | as written: two maps given are taken and `mapcat` inverts the category map; exactly one map is the `AttributeError`; no map at all is a `NameError` on the undefined `methodnum`; on an error nothing changes |
| PeriStates.ConfocalImageState.SetModel | peri/states.py:286-323 | corrected to index the built-ins by `modelnum`: with no map given, model `k` for `-2 <= k < 2` (negative numbers count from the end, as Python lists do), any other number the `IndexError`, no number the `TypeError`; two maps given are taken; `mapcat` inverts the category map on success and nothing changes on an error |
| PeriStates.ConfocalImageState.LogLikelihood | peri/states.py:480-481 | while the cache tracks the residuals (`Tracks`), the prior plus the residual log-likelihood `-0.5 * sum((res/sigma)**2)` of the stored residuals; `UpdateFromModelChange` states how a model change moves it |
| PeriStates.ConfocalImageState.UpdateFromModelChange | peri/states.py:471-478 | the cached total moves by the new tile log-likelihood minus the old one, so `loglikelihood()` does too, and the residuals are rewritten on the tile; when the cache tracked the residuals and the stored residuals on the tile were those of the old model, it still tracks them afterwards |
| Objs.RoundHalfEven | cbamf/comp/objs.py:19 | `np.round` gives the nearest integer, and an even one on a tie |
| Objs.BoxCorners | cbamf/comp/objs.py:19-22 | the drawing box runs `ceil(rad) + 1` either side of the rounded position on each axis |
| Objs.ContributionInBox | cbamf/comp/objs.py:22-29 | a particle adds nothing outside its box, and inside it adds the profile at the voxel's coordinates |
| Objs.FieldReplace | cbamf/comp/objs.py:31-37 | replacing one particle changes the summed field by its new contribution minus its old one |
| Objs.ParticleOutsideBox | cbamf/comp/objs.py:22-29 | drawing a particle leaves every voxel outside its box unchanged |
| Objs.PyIndex | cbamf/comp/objs.py:32 | NumPy's index rule: `n` names a row exactly when `-len <= n < len`, a negative one counting from the end; any other is the `IndexError` |
| Objs.UpdateOne | cbamf/comp/objs.py:31-37 | the `IndexError` exactly when `n` names no row of the positions or of the radii; otherwise the lengths are kept and only the named rows are overwritten |
| Objs.UpdateAll | cbamf/comp/objs.py:50-52 | an update keeps the number of particles, of radii and of voxels and keeps positions three-dimensional; it runs to the end exactly when every zipped index names a row |
| Objs.UpdateStops | cbamf/comp/objs.py:50-52 | an `IndexError` at triple `i` ends the update with the arrays as the first `i` triples left them |
| Objs.UpdateOneKeepsField | cbamf/comp/objs.py:31-37 | subtracting the old particle and adding the new one keeps the field equal to the sum over all particles, when the index names the same row of both arrays |
| Objs.UpdateKeepsField | cbamf/comp/objs.py:50-52 | a whole update, run to the end or stopped by an `IndexError`, keeps the field equal to the sum over all particles |
| Objs.UpdateFrame | cbamf/comp/objs.py:50-52 | a position row or radius row that no index names (after the negative-index rule) keeps its value |
| Objs.UpdateLastWrite | cbamf/comp/objs.py:50-52 | a row the update reaches and does not name again later ends with the position and radius given for it |
| Objs.Ravel | cbamf/comp/objs.py:61 | `pos.ravel()`: entry `3 i + k` is coordinate `k` of particle `i` |
| Objs.SphereCollection.constructor | cbamf/comp/objs.py:5-16 | the arrays kept as given (aliased, not copied), `N` the number of radii, and a zero field of the image's shape |
| Objs.SphereCollection.Particle | cbamf/comp/objs.py:18-29 | the field gains `sign` times the particle's contribution at every voxel |
| Objs.SphereCollection.UpdateParticle | cbamf/comp/objs.py:31-37 | an index that names no row is the `IndexError` and nothing changes; otherwise the old particle is subtracted, the new position and radius stored, and the new particle added |
| Objs.SphereCollection.Update | cbamf/comp/objs.py:50-52 | the particles named are updated in turn, as `zip` pairs them; the first index that names no row is the `IndexError`, with the earlier triples applied |
| Objs.SphereCollection.Initialize | cbamf/comp/objs.py:39-45 | a position array that is not two-dimensional is the `AttributeError` and nothing changes; otherwise the field is rebuilt as the sum over all particles |
| Objs.SphereCollection.GetParams | cbamf/comp/objs.py:57-58 | the flattened positions followed by the radii, four entries per particle |
| Objs.SphereCollection.GetParamsRad | cbamf/comp/objs.py:63-64 | the radii, one per particle in order |
| Objs.SphereCollection.GetParamsPos | cbamf/comp/objs.py:60-61 | the flattened positions, three per particle in order |
| Ilms.Emit3 | peri/comp/ilms.py:49 | emitting the current triple keeps the enumeration exactly the triples before the next one, in order |
| Ilms.Done3 | peri/comp/ilms.py:49 | when the outer index runs out, the emitted triples are exactly `product(range(a), range(b), range(c))` in lexicographic order |
| Ilms.Done2 | peri/comp/ilms.py:195 | likewise the emitted pairs are exactly `product(range(a), range(b))` in lexicographic order |
| Ilms.Product3First | peri/comp/ilms.py:49-57 | a nonempty product starts with `(0, 0, 0)`, so `values[0]` is the constant term |
| Ilms.Product2HasOrigin | peri/comp/ilms.py:195-216 | `(0, 0)` is among the pairs exactly when both orders are positive, so `ilm-xy-0-0` exists exactly then |
| Ilms.Ilm3NamesDistinct | peri/comp/ilms.py:49-54 | the names of strictly increasing triples are distinct |
| Ilms.SeriesReplace | peri/comp/ilms.py:100-102 | replacing one coefficient of a series over distinct names changes it by the new term minus the old one, and not at all when the name is not in the series |
| Ilms.ReplaceTerm | peri/comp/ilms.py:100-102 | subtracting `v0 * term` and adding `v1 * term` keeps the field equal to the series of the stored values |
| Ilms.OtherTerm | peri/comp/ilms.py:270-281 | a name whose term vanishes on a sub-field can change without that sub-field changing |
| Ilms.SnocTerm | peri/comp/ilms.py:105-106 | adding the next stored term extends the series by one name |
| Ilms.KnownPrefix | peri/comp/ilms.py:97-98 | the number of leading names that are parameters: all before it are, the one at it is not |
| Ilms.FullPathKeys | peri/comp/ilms.py:286 | `set_values` keeps the old keys as a prefix, and adds no key exactly when every written name was already a parameter |
| Ilms.FullPathAllKnown | peri/comp/ilms.py:286 | writing only existing parameters keeps the keys and their order |
| Ilms.FullPathSomeUnknown | peri/comp/ilms.py:286-287 | writing an unknown name adds a key, so `calc_field` then meets a name in neither dictionary |
| Ilms.Layout3 | peri/comp/ilms.py:47-54 | the triples are the product in lexicographic order, the names are `ilm-i-j-k` of them, distinct, each mapped to its triple with value 0.0 |
| Ilms.Polynomial3D.constructor | peri/comp/ilms.py:59-66 | the group holds the names in order with their values, and the field is the sum of each value times its term |
| Ilms.Polynomial3D.Create | peri/comp/ilms.py:20-60 | a truthy `constval` with an empty product is the `IndexError`; otherwise the keys are the names of the product in order, the first value is `constval` when truthy and the rest 0.0, and the field matches the values |
| Ilms.Polynomial3D.Rebuild | peri/comp/ilms.py:103-106 | the field is rebuilt from zeros as the sum of each stored value times its term |
| Ilms.Polynomial3D.Step | peri/comp/ilms.py:98-102 | one parameter takes its new value and the field moves by the change in its term |
| Ilms.Polynomial3D.ApplyPairs | peri/comp/ilms.py:97-102 | the pairs up to the first unknown name (the `KeyError`) are applied in order and the field stays consistent |
| Ilms.Polynomial3D.AdjustTerms | peri/comp/ilms.py:96-102 | the incremental path succeeds exactly when every zipped name is a parameter, and applies the pairs before the first unknown one |
| Ilms.Polynomial3D.UpdateAsWritten | peri/comp/ilms.py:95-106 | as written: the incremental path applies the pairs; the full path leaves the stored values as they were, dropping the passed ones |
| Ilms.Polynomial3D.Update | peri/comp/ilms.py:95-106 | corrected full path: on success the group is the old one with the pairs written, on both paths, and the field matches it |
| Ilms.FullPathDropsValues | peri/comp/ilms.py:103-106 | a concrete group where the full path is taken and writing the passed values would have changed the stored ones |
| Ilms.LayoutXY | peri/comp/ilms.py:195-200 | the pairs are the product of `order[1]` and `order[0]` in order, each named `ilm-xy-i-j` |
| Ilms.LayoutZ | peri/comp/ilms.py:202-207 | the names `ilm-z-0` to `ilm-z-(order[0]-1)` in order, each mapped to its index |
| Ilms.Names2P1DDistinct | peri/comp/ilms.py:195-207 | all the `xy` and `z` names together are distinct |
| Ilms.XYOrigin | peri/comp/ilms.py:214-219 | `ilm-xy-0-0` is an `xy` parameter exactly when `order[0]` and `order[1]` are positive, and no `z` name is one |
| Ilms.ZOrigin | peri/comp/ilms.py:214-219 | `ilm-z-0` is a `z` parameter exactly when `order[0]` is positive, and no `xy` name is one |
| Ilms.ZeroDict | peri/comp/ilms.py:191-210 | the group starts with every name in order, each with value 0.0 |
| Ilms.Combine | peri/comp/ilms.py:243-244 | voxel by voxel, the product or the sum of the two sub-fields |
| Ilms.ConstvalKnown | peri/comp/ilms.py:214-219 | the `constval` writes add a name outside both dictionaries exactly when `constval` is truthy and an order is 0; otherwise the keys are kept |
| Ilms.ConstvalValues | peri/comp/ilms.py:214-219 | after the writes `ilm-xy-0-0` holds `constval`, `ilm-z-0` holds 1.0 when the operation is `*`, and every other name 0.0 |
| Ilms.Polynomial2P1D.constructor | peri/comp/ilms.py:185-219 | the `xy` names then the `z` names, all 0.0, followed by the `constval` writes |
| Ilms.Polynomial2P1D.Create | peri/comp/ilms.py:156-227 | construction then `initialize` fail with the `KeyError` exactly when the operation is neither `*` nor `+`, or a truthy `constval` met a zero order; otherwise the keys are the `xy` then `z` names with their initial values and the field is the combination of the two sub-fields |
| Ilms.Polynomial2P1D.Initialize | peri/comp/ilms.py:223-227 | the full update of `initialize` leaves the values as they were and succeeds exactly when `calc_field` can |
| Ilms.Polynomial2P1D.CalcField | peri/comp/ilms.py:229-245 | the sub-fields sum the stored names up to the first name in neither dictionary; the call succeeds exactly when there is none and the operation is known, and only then sets the field |
| Ilms.Polynomial2P1D.Accumulate | peri/comp/ilms.py:233-241 | one more stored term is added to its own sub-field |
| Ilms.Polynomial2P1D.Step | peri/comp/ilms.py:271-281 | one parameter takes its new value and its own sub-field moves by the change in its term |
| Ilms.Polynomial2P1D.StepXY | peri/comp/ilms.py:271-281 | an `xy` parameter changes only the `xy` sub-field |
| Ilms.Polynomial2P1D.StepZ | peri/comp/ilms.py:274-281 | a `z` parameter changes only the `z` sub-field |
| Ilms.Polynomial2P1D.ApplyPairs | peri/comp/ilms.py:270-281 | the pairs up to the first unknown name (the `KeyError`) are applied in order with the sub-fields consistent |
| Ilms.Polynomial2P1D.AdjustTerms | peri/comp/ilms.py:269-284 | the incremental path applies the pairs before the first unknown name and recombines the field only when there is none |
| Ilms.Polynomial2P1D.Update | peri/comp/ilms.py:268-287 | the update succeeds exactly when every zipped name is a parameter, and then the group holds the pairs written and the field is recombined; on failure the field is kept; the full path stores every pair even then |
| Ilms.SumNatSnoc | peri/comp/ilms.py:581 | `sum(npts[:i+1]) = sum(npts[:i]) + npts[i]` |
| Ilms.BarnesInit | peri/comp/ilms.py:564-591 | `npoly = order[0]*order[1] + order[-1]`, `nparams = npoly + sum(npts)`, the slicers laid end to end from `npoly` ending at `nparams`, and the params zero except 1.0 at 0 and at `order[0]*order[1]`; the `IndexError` exactly when that index is out of range |
| Ilms.SlicesOrdered | peri/comp/ilms.py:585-587 | an earlier streak's slice ends before a later one starts |
| Ilms.SlicesPartition | peri/comp/ilms.py:585-587 | every streak parameter index lies in exactly one slice |
| Runner.FloorQuotient | peri/runner.py:328-335 | truncating an exact quotient of naturals is integer division |
| Runner.CalcIlmOrder | peri/runner.py:321-336 | `zorder = 4 s0 / 25 + 1`, `2 s1 / 85 + 1` streaks, and streak `a` gets `s2 c_a / 512 + 1` points |
| Runner.NptsNonIncreasing | peri/runner.py:331-335 | every streak gets at least one point and later streaks never get more than earlier ones |

## Left out

- Class inheritance (`ConfocalImagePython` extends `State`, `Polynomial3D` extends `ParameterGroup`) is modelled by composition: the subclass holds the base object as a field.
- Floating point: all values are reals. `_calc_ilm_order`'s float division followed by `int` is modelled as floor on exact reals, which agrees with truncation on nonnegative sizes, but rounding is not modelled.
- Confocal.ConfocalImage.Update: requires that the z-scale and sigma are nonzero afterwards (`ScalesNonzero`), and so do `PushUpdate` and `PopUpdate`. The source divides by them at cbamf/states.py:385, 434, 560 and 563; on NumPy floats a zero gives `inf` or `nan` with a `RuntimeWarning` rather than an exception, and those non-finite images and fields are not modelled, because the model's values are reals.
- Confocal.ConfocalImage.Update: a change that touches two or more particles ends as `Unsupported` with the values left written. In the source, `zsc*r0` at cbamf/states.py:386 multiplies a 3-vector by the `k` radii: for `k = 2` and `k >= 4` that broadcast raises `ValueError` after the write; for `k = 3` it broadcasts, each radius is scaled by a different axis factor, and `update` runs to the end over a tile mixing the three particles. Neither outcome is modelled.
- Confocal.ConfocalImage.Update: the z-scale rejection restores the z-scale only. PSF, illumination, offset or sigma changes applied earlier in the same call are not rolled back, as in the code.
- Objs.SphereCollection.UpdateParticle: requires the new position to be a `(z, y, x)` triple, and so does `Update` for each zipped position. NumPy would broadcast a scalar or raise `ValueError` after the old contribution is subtracted; neither is modelled.
- Objs.UpdateKeepsField: requires that each index names the same row of the positions and of the radii. That always holds for `n >= 0` or one radius per position; otherwise a negative index writes unrelated rows and the field no longer matches the `zip` sum.
- The `zscale` argument that `update` passes to the object collection is not modelled, because the particle contribution is an abstract function.
- The `data` property of `ConfocalImageState` returns `_data`, which that class never assigns (`set_image` stores `image`). The model's `data` field holds the image instead.
- PeriStates.ConfocalImageState.UpdateFromModelChange: in the source, `_calc_loglikelihood(oldmodel, tile)` reads `self.data` (peri/states.py:465), which raises `AttributeError` on the missing `_data` before the cached likelihood or the residuals change, so every call fails. The model takes `data` to be the image and states what the update does then.
- `ConfocalImageState` reads the noise level through `get_value('sigma')` of its component collection. The collection is not part of this model, so `sigma` is a field of the state.
- The `ConfocalImageState` constructor passes the undefined name `comps` to `ComponentCollection.__init__` (peri/states.py:282; its parameter is `comp`), so every construction raises `NameError` before `set_model` or `set_image` runs. The component collection is not modelled; the Dafny constructor starts from `set_image`, as a construction with `comps=comp` would reach it.
- PeriStates.ConfocalImageState.constructor: `set_image`'s padding of a `RawImage` and its multiplication of the image by the padding mask are not modelled; the image is kept as given.
- The `eval`'d update helpers and `get_io_tiles` of the peri image state are not modelled; they depend on rendering code that is not part of this model.
- CbamfState.State.GradSingleParam, CbamfState.State.HessTwoParam, PeriStates.State.GradOneParam, PeriStates.State.HessTwoParam and the other finite-difference members require a nonzero step `dl`. The source divides by it; with a zero step a plain Python float raises `ZeroDivisionError` and a NumPy float gives `inf` or `nan` with a `RuntimeWarning`. Neither outcome is modelled.
- The basis terms of the illumination polynomials, PSF, overlap prior and rendering are abstract functions, so the model proves bookkeeping rather than numerical values.
- The `_last_index` cache of polynomial terms is not modelled, because it only avoids recomputing terms the model treats as pure functions.
- Field buffers (illumination field, occupancy field, model image) are `seq` fields reassigned by the methods. Aliasing between those NumPy arrays and their callers is not modelled.
- NumPy negative indices are modelled only where they can arise: the upper bound of `block_range`, the particle box edges, `_tile_global`'s `[pad/2:-pad/2]` crop (`GlobalTiles`, `GlobalCropAligned`), `_tile_from_particle_change`'s `[w:-w]` crop (`TileFromParticleChange`, `ZeroSupportMisaligned`), the particle index of `_update_particle` (`PyIndex`) and `catmaps[modelnum]` for `-2 <= modelnum < 0` (`SetModel`).
- `PolyFitState` binds `values` to the caller's own `coeffs` list when one is given, so `values.append(1.0)` (peri/states.py:183-186) appends 1.0 to the caller's list. The model builds a new sequence, so that caller-side mutation is not captured.
- PeriStates.PolyFitLayout: requires a coefficient list of length `order`, which the source does not check. PeriStates.PolyFitMismatched states what the zip then builds for a list of any other length.
- Confocal.ConfocalImage.constructor: requires `pad` even, at least 2 and no larger than any side of the image. Otherwise `_tile_global`'s slice `[pad/2:-pad/2]` does not cut out the inner tile, and the first `_update_global` raises NumPy's `ValueError` for mismatched shapes; Confocal.ConfocalImage.GlobalCropAligned proves that this is exactly the condition.
- Confocal.ConfocalImage.constructor: requires a positive PSF support on every axis when `difference` is off. A support that rounds up to 0 makes the crop `[0:-0]`, which is empty, and the tile write raises `ValueError`; ConfocalLayout.ZeroSupportMisaligned shows the mismatch.
- Confocal.ConfocalImage.UpdateTile: `replacement[ioslice]` is modelled by its alignment (`CropAligned`: the crop read in the outer tile's coordinates selects exactly the inner tile), so the model image takes the rendering of each voxel directly rather than cutting a rendered outer array.
- Ilms.Polynomial3D.Update: the corrected full path rejects a batch with an unknown name before writing anything. The source's incremental path writes the known prefix first, and the model keeps that.
- Passing a single string instead of a list of names to the peri `update` and getters is not modelled.
- Block and tile rendering, the Barnes field evaluation, `legval`, `from_data` and `randomize` are not modelled: they are numerical rendering outside the bookkeeping core.
- `Polynomial2P1D.initialize` has no `set_values` call of its own: it reaches `Polynomial3D.initialize`, whose `self.update(self.params, self.values)` (peri/comp/ilms.py:66) takes the full path of `Polynomial2P1D.update`, `set_values` then `calc_field` (peri/comp/ilms.py:285-287). The model's `Initialize` is that full update.
- Saving, loading, `model_to_true_image` and graphical helpers are not modelled: they are I/O.
- `_jtj`, `fisher_information` and `_grad_image` are not modelled, because they are numerical linear algebra over rendered images.
- The base `State.loglikelihood(state)` takes an argument that `_grad_single_param` does not pass. The model evaluates it on the current parameter vector, with `dologlikelihood` an abstract function of that vector.
- Print statements in `prepare_for_state`, and the helpers it calls (`initializers.normalize`, `np.pad`, `remove_overlaps`), are not modelled; their results are parameters.

## Findings

| source | as written | input that shows it | evidently intended | confidence | as-written member | corrected member |
|---|---|---|---|---|---|---|
| cbamf/states.py:39-44 | `block_range(lo, hi)` slices `[lo:hi]` with Python's rules, so a negative `hi` counts from the end | `block_range(0, -1)` on three parameters selects the first two | an empty block for an upper bound below the lower bound | not executed | Blocks.BlockRangeAsWritten, Blocks.BlockRangeNegativeUpper | Blocks.BlockRange, Blocks.BlockRangeAgrees |
| peri/states.py:97-116 | `_hess_two_param` reads the second value before the first step, so on the diagonal both steps restore the same value | `p0 == p1` with `f0` omitted or equal to `func()` at the current values (as `_hess` passes it): the result is 0 | the forward second difference with steps `dl` and `2dl` | not executed | PeriStates.State.HessTwoParamAsWritten, PeriStates.HessDiagonalAsWritten, PeriStates.AsWrittenHessian, PeriStates.State.Hess | PeriStates.State.HessTwoParam, PeriStates.MixedDiffDiagonal, PeriStates.State.Hess |
| peri/comp/ilms.py:103-106 | the full path of `Polynomial3D.update` rebuilds the field from the stored values and drops the passed ones | order (1, 1, 2), updating both parameters to 1 and 2 | store the passed values, then rebuild, as `Polynomial2P1D.update` does | not executed | Ilms.Polynomial3D.UpdateAsWritten, Ilms.FullPathDropsValues | Ilms.Polynomial3D.Update |
| peri/states.py:188-190 | `PolyFitState` passes `ordered=False` to a constructor that has no such keyword | any arguments: the constructor raises | build the group from the names and values | not executed | PeriStates.PolyFitInitAsWritten | PeriStates.PolyFitLayout |
| peri/states.py:320 | `set_model` indexes with `methodnum`, which is not defined in that scope | any call that reaches line 320 raises `NameError` | index the built-in tables with the `modelnum` argument | not executed | PeriStates.ConfocalImageState.SetModelAsWritten | PeriStates.ConfocalImageState.SetModel |
