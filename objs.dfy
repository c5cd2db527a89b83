/**
  `SphereCollectionRealSpace` (`cbamf/comp/objs.py`): particle positions
  and radii held in arrays, and an occupancy field kept equal to the sum
  of one contribution per particle. A particle's contribution is added or
  subtracted only inside the box `round(p) ± (ceil(rad) + 1)`; its value
  there, the logistic profile, is a parameter of the model.
*/
module Objs {
  import opened Wrappers
  import opened Voxels
  import ConfocalLayout

  /** The value `1 / (1 + exp(5 (|zscale-scaled r - pos| - rad)))` of a
      particle at `pos` with radius `rad`, at a voxel's `(z, y, x)`
      coordinates. */
  type Profile = (seq<real>, real, real, seq<int>) -> real

  /** `np.round`: the nearest integer, ties to the even one. */
  function RoundHalfEven(x: real): (n: int)
    ensures (n as real) - 0.5 <= x <= (n as real) + 0.5
    ensures x - (x.Floor as real) == 0.5 ==> n % 2 == 0
  {
    var f := x.Floor;
    var d := x - f as real;
    if d < 0.5 then f else if d > 0.5 then f + 1 else if f % 2 == 0 then f else f + 1
  }

  /** The corners of `Tile(p - r, p + r)` with `p = round(pos)` and
      `r = ceil(rad) + 1`. */
  function BoxCorners(pos: seq<real>, rad: real): (c: (seq<int>, seq<int>))
    requires |pos| == 3
    ensures |c.0| == 3 && |c.1| == 3
    ensures forall k :: 0 <= k < 3 ==>
      && c.0[k] == RoundHalfEven(pos[k]) - (ConfocalLayout.Ceil(rad) + 1)
      && c.1[k] == RoundHalfEven(pos[k]) + (ConfocalLayout.Ceil(rad) + 1)
  {
    var r := ConfocalLayout.Ceil(rad) + 1;
    (seq(3, k requires 0 <= k < 3 => RoundHalfEven(pos[k]) - r),
     seq(3, k requires 0 <= k < 3 => RoundHalfEven(pos[k]) + r))
  }

  /** Whether `particles[tile.slicer]` covers voxel `v`; the slice bounds
      follow NumPy's basic slicing, so a negative corner counts from the
      far end of the axis. */
  predicate InBox(sh: Shape, pos: seq<real>, rad: real, v: nat)
    requires |pos| == 3
  {
    var c := BoxCorners(pos, rad);
    InSlice(c.0, c.1, sh, v)
  }

  /** One particle's contribution at voxel `v`: the profile inside its box, nothing outside. */
  function Contribution(prof: Profile, sh: Shape, pos: seq<real>, rad: real, zscale: real, v: nat): real
    requires |pos| == 3
  {
    if InBox(sh, pos, rad, v) then prof(pos, rad, zscale, Coords(sh, v)) else 0.0
  }

  /** A particle's contribution `(pos, rad, zscale, v)` as one function
      value; the field lemmas below hold for any such function. */
  type Contrib = (seq<real>, real, real, nat) -> real

  /** The contribution of the model: `Contribution` for a triple. */
  function ContributionFn(prof: Profile, sh: Shape): Contrib
  {
    (p: seq<real>, r: real, z: real, v: nat) => if |p| == 3 then Contribution(prof, sh, p, r, z, v) else 0.0
  }

  /** A particle changes the field only inside its box, and there by its profile. */
  lemma ContributionInBox(prof: Profile, sh: Shape, p: seq<real>, r: real, z: real, v: nat)
    requires |p| == 3
    ensures !InBox(sh, p, r, v) ==> ContributionFn(prof, sh)(p, r, z, v) == 0.0
    ensures InBox(sh, p, r, v) ==> ContributionFn(prof, sh)(p, r, z, v) == prof(p, r, z, Coords(sh, v))
  {
  }

  /** Every row of the position array is a `(z, y, x)` triple. */
  ghost predicate Triples(pos: seq<seq<real>>)
  {
    forall i :: 0 <= i < |pos| ==> |pos[i]| == 3
  }

  function MinLen(a: nat, b: nat): nat { if a <= b then a else b }

  /** The field of the first `n` particles at voxel `v`: the sum of their contributions. */
  function FieldAt(c: Contrib, zscale: real, pos: seq<seq<real>>, rad: seq<real>, n: nat, v: nat): real
    requires n <= |pos| && n <= |rad|
  {
    if n == 0 then 0.0
    else FieldAt(c, zscale, pos, rad, n - 1, v) + c(pos[n - 1], rad[n - 1], zscale, v)
  }

  /** Particle `k` is one term of the sum: replacing it replaces its term and nothing else. */
  lemma {:induction false} FieldReplace(c: Contrib, zscale: real, pos: seq<seq<real>>, rad: seq<real>,
                                        n: nat, k: nat, p: seq<real>, r: real, v: nat)
    requires n <= |pos| && n <= |rad| && k < |pos| && k < |rad|
    ensures FieldAt(c, zscale, pos[k := p], rad[k := r], n, v)
         == FieldAt(c, zscale, pos, rad, n, v) + (if k < n then c(p, r, zscale, v) - c(pos[k], rad[k], zscale, v) else 0.0)
  {
    if n > 0 {
      FieldReplace(c, zscale, pos, rad, n - 1, k, p, r, v);
    }
  }

  /** The part of the object the operations act on. */
  datatype Spheres = Spheres(pos: seq<seq<real>>, rad: seq<real>, field: seq<real>)

  /** The number of particles `zip(pos, rad)` visits. */
  function Visited(s: Spheres): nat { MinLen(|s.pos|, |s.rad|) }

  /** The occupancy field is the sum of the contributions of all particles. */
  ghost predicate FieldHolds(c: Contrib, zscale: real, s: Spheres)
  {
    forall v :: 0 <= v < |s.field| ==> s.field[v] == FieldAt(c, zscale, s.pos, s.rad, Visited(s), v)
  }

  /** `_particle(pos, rad, zscale, sign)`: add `sign` times the contribution. */
  function AddParticle(c: Contrib, field: seq<real>, pos: seq<real>, rad: real, zscale: real, sign: real): (f: seq<real>)
    ensures |f| == |field|
  {
    seq(|field|, v requires 0 <= v < |field| => field[v] + sign * c(pos, rad, zscale, v))
  }

  /** `_particle` writes only inside the box: every voxel outside keeps its value. */
  lemma ParticleOutsideBox(prof: Profile, sh: Shape, field: seq<real>, p: seq<real>, r: real, z: real, sign: real, v: nat)
    requires |p| == 3 && v < |field| && !InBox(sh, p, r, v)
    ensures AddParticle(ContributionFn(prof, sh), field, p, r, z, sign)[v] == field[v]
  {
    ContributionInBox(prof, sh, p, r, z, v);
  }

  /** NumPy's index `n` into an axis of length `len`: a negative `n`
      counts from the far end; `None` is the `IndexError`. */
  function PyIndex(n: int, len: nat): (k: Option<nat>)
    ensures k.Some? <==> 0 <= n + len && n < len
    ensures k.Some? ==> k.value < len && (k.value == n || k.value == n + len)
  {
    if 0 <= n < len then Some(n) else if n < 0 && 0 <= n + len then Some(n + len) else None
  }

  /** Whether `self.pos[n]` and `self.rad[n]` both exist. */
  predicate HasRow(s: Spheres, n: int)
  {
    PyIndex(n, |s.pos|).Some? && PyIndex(n, |s.rad|).Some?
  }

  /** Whether index `n`, where it names a particle, names the same row of
      both arrays (always so for `n >= 0`, or when there is one radius per
      position). */
  predicate SameRow(s: Spheres, n: int)
  {
    HasRow(s, n) ==> PyIndex(n, |s.pos|) == PyIndex(n, |s.rad|)
  }

  /** `_update_particle(n, p, r, zscale)`: reading `self.pos[n]` and
      `self.rad[n]` raises the `IndexError` (`None`) before anything is
      written; otherwise subtract the old contribution, write position
      and radius, add the new contribution. */
  function UpdateOne(c: Contrib, s: Spheres, n: int, p: seq<real>, r: real, zscale: real): (t: Option<Spheres>)
    ensures t.Some? <==> HasRow(s, n)
    ensures t.Some? ==> |t.value.pos| == |s.pos| && |t.value.rad| == |s.rad| && |t.value.field| == |s.field|
    ensures t.Some? ==> t.value.pos == s.pos[PyIndex(n, |s.pos|).value := p]
    ensures t.Some? ==> t.value.rad == s.rad[PyIndex(n, |s.rad|).value := r]
  {
    var i := PyIndex(n, |s.pos|);
    var j := PyIndex(n, |s.rad|);
    if i.None? || j.None? then None
    else
      var f1 := AddParticle(c, s.field, s.pos[i.value], s.rad[j.value], zscale, -1.0);
      Some(Spheres(s.pos[i.value := p], s.rad[j.value := r], AddParticle(c, f1, p, r, zscale, 1.0)))
  }

  /** The number of triples `zip(ns, pos, rad)` yields. */
  function Zipped(ns: seq<int>, ps: seq<seq<real>>, rs: seq<real>): nat
  {
    MinLen(MinLen(|ns|, |ps|), |rs|)
  }

  /** Each zipped position is a `(z, y, x)` triple. */
  ghost predicate ZippedTriples(ns: seq<int>, ps: seq<seq<real>>, rs: seq<real>)
  {
    forall i :: 0 <= i < Zipped(ns, ps, rs) ==> |ps[i]| == 3
  }

  /** `update(ns, pos, rad, zscale)`: `_update_particle` on each zipped
      triple, in order; `zip` stops at the shortest list. The result is
      the arrays afterwards and whether the loop ran to the end: an
      `IndexError` stops it with the earlier triples already applied. */
  function UpdateAll(c: Contrib, s: Spheres, ns: seq<int>, ps: seq<seq<real>>, rs: seq<real>, zscale: real)
    : (t: (Spheres, bool))
    ensures |t.0.pos| == |s.pos| && |t.0.rad| == |s.rad| && |t.0.field| == |s.field|
    ensures t.1 <==> forall i :: 0 <= i < Zipped(ns, ps, rs) ==> HasRow(s, ns[i])
    ensures Triples(s.pos) && ZippedTriples(ns, ps, rs) ==> Triples(t.0.pos)
    decreases |ns|
  {
    if |ns| == 0 || |ps| == 0 || |rs| == 0 then (s, true)
    else
      match UpdateOne(c, s, ns[0], ps[0], rs[0], zscale)
      case None => (s, false)
      case Some(s1) =>
        var t := UpdateAll(c, s1, ns[1..], ps[1..], rs[1..], zscale);
        assert forall i :: 1 <= i < Zipped(ns, ps, rs) ==> ns[i] == ns[1..][i - 1];
        t
  }

  /** An `IndexError` at triple `i` leaves the arrays as the first `i`
      triples made them. */
  lemma {:induction false} UpdateStops(c: Contrib, s: Spheres, ns: seq<int>, ps: seq<seq<real>>,
                                       rs: seq<real>, zscale: real, i: nat)
    requires i < Zipped(ns, ps, rs) && !HasRow(s, ns[i])
    requires forall j :: 0 <= j < i ==> HasRow(s, ns[j])
    ensures UpdateAll(c, s, ns, ps, rs, zscale) == (UpdateAll(c, s, ns[..i], ps[..i], rs[..i], zscale).0, false)
    decreases i
  {
    if i > 0 {
      var s1 := UpdateOne(c, s, ns[0], ps[0], rs[0], zscale).value;
      assert ns[1..][..i - 1] == ns[..i][1..] && ps[1..][..i - 1] == ps[..i][1..] && rs[1..][..i - 1] == rs[..i][1..];
      UpdateStops(c, s1, ns[1..], ps[1..], rs[1..], zscale, i - 1);
    }
  }

  /** `_update_particle` keeps the field equal to the sum of contributions. */
  lemma UpdateOneKeepsField(c: Contrib, s: Spheres, n: int, p: seq<real>, r: real, zscale: real)
    requires FieldHolds(c, zscale, s) && SameRow(s, n)
    ensures UpdateOne(c, s, n, p, r, zscale).Some? ==> FieldHolds(c, zscale, UpdateOne(c, s, n, p, r, zscale).value)
  {
    if HasRow(s, n) {
      var k := PyIndex(n, |s.pos|).value;
      var t := UpdateOne(c, s, n, p, r, zscale).value;
      forall v | 0 <= v < |t.field|
        ensures t.field[v] == FieldAt(c, zscale, t.pos, t.rad, Visited(t), v)
      {
        FieldReplace(c, zscale, s.pos, s.rad, Visited(s), k, p, r, v);
      }
    }
  }

  /** `update` keeps the field equal to the sum of contributions, whether
      it runs to the end or stops at an `IndexError`. */
  lemma {:induction false} UpdateKeepsField(c: Contrib, s: Spheres, ns: seq<int>, ps: seq<seq<real>>,
                                            rs: seq<real>, zscale: real)
    requires FieldHolds(c, zscale, s)
    requires forall i :: 0 <= i < Zipped(ns, ps, rs) ==> SameRow(s, ns[i])
    ensures FieldHolds(c, zscale, UpdateAll(c, s, ns, ps, rs, zscale).0)
    decreases |ns|
  {
    if |ns| > 0 && |ps| > 0 && |rs| > 0 && HasRow(s, ns[0]) {
      UpdateOneKeepsField(c, s, ns[0], ps[0], rs[0], zscale);
      var s1 := UpdateOne(c, s, ns[0], ps[0], rs[0], zscale).value;
      assert forall i :: 0 <= i < Zipped(ns[1..], ps[1..], rs[1..]) ==> ns[1..][i] == ns[i + 1];
      UpdateKeepsField(c, s1, ns[1..], ps[1..], rs[1..], zscale);
    }
  }

  /** A position row `kp` and a radius row `kr` that no processed index
      names keep their values. */
  lemma {:induction false} UpdateFrame(c: Contrib, s: Spheres, ns: seq<int>, ps: seq<seq<real>>,
                                       rs: seq<real>, zscale: real, kp: nat, kr: nat)
    requires kp < |s.pos| && kr < |s.rad|
    requires forall i :: 0 <= i < Zipped(ns, ps, rs) ==> PyIndex(ns[i], |s.pos|) != Some(kp)
    requires forall i :: 0 <= i < Zipped(ns, ps, rs) ==> PyIndex(ns[i], |s.rad|) != Some(kr)
    ensures UpdateAll(c, s, ns, ps, rs, zscale).0.pos[kp] == s.pos[kp]
    ensures UpdateAll(c, s, ns, ps, rs, zscale).0.rad[kr] == s.rad[kr]
    decreases |ns|
  {
    if |ns| > 0 && |ps| > 0 && |rs| > 0 && HasRow(s, ns[0]) {
      var s1 := UpdateOne(c, s, ns[0], ps[0], rs[0], zscale).value;
      assert forall i :: 0 <= i < Zipped(ns[1..], ps[1..], rs[1..]) ==> ns[1..][i] == ns[i + 1];
      UpdateFrame(c, s1, ns[1..], ps[1..], rs[1..], zscale, kp, kr);
    }
  }

  /** The last write to a row decides it: when triple `i` is reached and
      its rows are not named again later, they end at `ps[i]` and `rs[i]`. */
  lemma {:induction false} UpdateLastWrite(c: Contrib, s: Spheres, ns: seq<int>, ps: seq<seq<real>>,
                                           rs: seq<real>, zscale: real, i: nat)
    requires i < Zipped(ns, ps, rs)
    requires forall j :: 0 <= j <= i ==> HasRow(s, ns[j])
    requires forall j :: i < j < Zipped(ns, ps, rs) ==> PyIndex(ns[j], |s.pos|) != PyIndex(ns[i], |s.pos|)
    requires forall j :: i < j < Zipped(ns, ps, rs) ==> PyIndex(ns[j], |s.rad|) != PyIndex(ns[i], |s.rad|)
    ensures UpdateAll(c, s, ns, ps, rs, zscale).0.pos[PyIndex(ns[i], |s.pos|).value] == ps[i]
    ensures UpdateAll(c, s, ns, ps, rs, zscale).0.rad[PyIndex(ns[i], |s.rad|).value] == rs[i]
    decreases |ns|
  {
    var s1 := UpdateOne(c, s, ns[0], ps[0], rs[0], zscale).value;
    assert forall j :: 0 <= j < Zipped(ns[1..], ps[1..], rs[1..]) ==> ns[1..][j] == ns[j + 1];
    if i == 0 {
      UpdateFrame(c, s1, ns[1..], ps[1..], rs[1..], zscale, PyIndex(ns[0], |s.pos|).value, PyIndex(ns[0], |s.rad|).value);
    } else {
      UpdateLastWrite(c, s1, ns[1..], ps[1..], rs[1..], zscale, i - 1);
    }
  }

  /** The flattened positions: `pos.ravel()`. */
  function Ravel(pos: seq<seq<real>>): (r: seq<real>)
    requires Triples(pos)
    ensures |r| == 3 * |pos|
    ensures forall i, k :: 0 <= i < |pos| && 0 <= k < 3 ==> r[3 * i + k] == pos[i][k]
  {
    if |pos| == 0 then [] else
      var r0 := Ravel(pos[..|pos| - 1]);
      assert forall i, k :: 0 <= i < |pos| - 1 && 0 <= k < 3 ==> r0[3 * i + k] == pos[i][k];
      r0 + pos[|pos| - 1]
  }

  /** `initialize` raises `AttributeError` unless the positions are a 2-D
      array; `_update_particle` raises `IndexError` for an index that names
      no row. */
  datatype ObjError = NotTwoDimensional | IndexOutOfRange

  class SphereCollection {
    const shape: Shape
    const prof: Profile
    /** The contribution function of `prof` on this shape; the operations
        are stated with it, and `ContributionInBox` says what it is. */
    const contrib: Contrib
    /** The number of dimensions of the position array as given. */
    const posDims: nat
    const pos: array<seq<real>>
    const rad: array<real>
    /** `N`: the number of radii. */
    const count: nat
    const particles: array<real>

    ghost predicate Valid()
      reads this, pos
    {
      Triples(pos[..]) && particles.Length == Size(shape) && count == rad.Length && rad != particles
    }

    function Snapshot(): Spheres
      reads this, pos, rad, particles
    {
      Spheres(pos[..], rad[..], particles[..])
    }

    /** `__init__(pos, rad, shape)`: keep the arrays, `N = len(rad)`, and a zero field. */
    constructor (pos: array<seq<real>>, rad: array<real>, posDims: nat, shape: Shape, prof: Profile)
      requires Triples(pos[..])
      ensures Valid() && fresh(particles)
      ensures this.pos == pos && this.rad == rad && this.posDims == posDims && this.shape == shape && this.prof == prof
      ensures contrib == ContributionFn(prof, shape)
      ensures count == rad.Length
      ensures particles[..] == seq(Size(shape), _ => 0.0)
    {
      this.pos, this.rad, this.posDims, this.shape, this.prof := pos, rad, posDims, shape, prof;
      this.contrib := ContributionFn(prof, shape);
      this.count := rad.Length;
      this.particles := new real[Size(shape)](_ => 0.0);
    }

    /** `_particle(pos, rad, zscale, sign)`: `particles[tile.slicer] += sign * profile`. */
    method Particle(p: seq<real>, r: real, zscale: real, sign: real)
      requires Valid() && |p| == 3
      modifies particles
      ensures particles[..] == AddParticle(contrib, old(particles[..]), p, r, zscale, sign)
    {
      ghost var f0 := particles[..];
      forall v | 0 <= v < particles.Length {
        particles[v] := particles[v] + sign * contrib(p, r, zscale, v);
      }
      assert forall v :: 0 <= v < particles.Length ==> particles[v] == AddParticle(contrib, f0, p, r, zscale, sign)[v];
      assert particles[..] == AddParticle(contrib, f0, p, r, zscale, sign);
    }

    /** `_update_particle(n, p, r, zscale)`: an index that names no row of
        `pos` or of `rad` is the `IndexError`, and nothing changes. */
    method UpdateParticle(n: int, p: seq<real>, r: real, zscale: real) returns (res: Result<(), ObjError>)
      requires Valid() && |p| == 3
      modifies pos, rad, particles
      ensures Valid()
      ensures res.Ok? <==> HasRow(old(Snapshot()), n)
      ensures res.Err? ==> res.error == IndexOutOfRange && Snapshot() == old(Snapshot())
      ensures res.Ok? ==> Snapshot() == UpdateOne(contrib, old(Snapshot()), n, p, r, zscale).value
    {
      ghost var s := Snapshot();
      var i := PyIndex(n, pos.Length);
      var j := PyIndex(n, rad.Length);
      if i.None? || j.None? {
        return Err(IndexOutOfRange);
      }
      Particle(pos[i.value], rad[j.value], zscale, -1.0);
      pos[i.value] := p;
      rad[j.value] := r;
      Particle(pos[i.value], rad[j.value], zscale, 1.0);
      assert pos[..] == s.pos[i.value := p] && rad[..] == s.rad[j.value := r];
      res := Ok(());
    }

    /** `update(ns, pos, rad, zscale)`: the triples in turn; the first
        `IndexError` ends the loop with the earlier triples applied. */
    method Update(ns: seq<int>, ps: seq<seq<real>>, rs: seq<real>, zscale: real) returns (res: Result<(), ObjError>)
      requires Valid() && ZippedTriples(ns, ps, rs)
      modifies pos, rad, particles
      ensures Valid()
      ensures Snapshot() == UpdateAll(contrib, old(Snapshot()), ns, ps, rs, zscale).0
      ensures res.Ok? <==> UpdateAll(contrib, old(Snapshot()), ns, ps, rs, zscale).1
      ensures res.Err? ==> res.error == IndexOutOfRange
    {
      var i := 0;
      var m := Zipped(ns, ps, rs);
      while i < m
        invariant 0 <= i <= m
        invariant Valid()
        invariant UpdateAll(contrib, Snapshot(), ns[i..], ps[i..], rs[i..], zscale)
               == UpdateAll(contrib, old(Snapshot()), ns, ps, rs, zscale)
      {
        assert ns[i..][1..] == ns[i + 1..] && ps[i..][1..] == ps[i + 1..] && rs[i..][1..] == rs[i + 1..];
        res := UpdateParticle(ns[i], ps[i], rs[i], zscale);
        if res.Err? {
          return;
        }
        i := i + 1;
      }
      res := Ok(());
    }

    /** `initialize(zscale)`: reject positions that are not a 2-D array;
        otherwise zero the field and add one contribution per particle. */
    method Initialize(zscale: real) returns (r: Result<(), ObjError>)
      requires Valid()
      modifies particles
      ensures Valid()
      ensures posDims != 2 ==> r == Err(NotTwoDimensional) && particles[..] == old(particles[..])
      ensures posDims == 2 ==> r.Ok? && FieldHolds(contrib, zscale, Snapshot())
    {
      if posDims != 2 {
        return Err(NotTwoDimensional);
      }
      forall v | 0 <= v < particles.Length {
        particles[v] := 0.0;
      }
      var n := MinLen(pos.Length, rad.Length);
      var i := 0;
      while i < n
        invariant 0 <= i <= n
        invariant Valid()
        invariant forall v :: 0 <= v < particles.Length ==>
          particles[v] == FieldAt(contrib, zscale, pos[..], rad[..], i, v)
      {
        Particle(pos[i], rad[i], zscale, 1.0);
        i := i + 1;
      }
      r := Ok(());
    }

    /** `get_params()`: the flattened positions followed by the radii. */
    function GetParams(): (r: seq<real>)
      reads this, pos, rad
      requires Valid()
      ensures |r| == 3 * pos.Length + rad.Length
      ensures r == GetParamsPos() + GetParamsRad()
      ensures pos.Length == count ==> |r| == 4 * count
    {
      Ravel(pos[..]) + rad[..]
    }

    /** `get_params_pos()`: `pos.ravel()`, `z, y, x` of each particle in turn. */
    function GetParamsPos(): (r: seq<real>)
      reads this, pos
      requires Valid()
      ensures |r| == 3 * pos.Length
      ensures forall i, k :: 0 <= i < pos.Length && 0 <= k < 3 ==> r[3 * i + k] == pos[i][k]
    {
      Ravel(pos[..])
    }

    /** `get_params_rad()`: the radii, one per particle in order. */
    function GetParamsRad(): (r: seq<real>)
      reads this, pos, rad
      requires Valid()
      ensures |r| == count && forall i :: 0 <= i < count ==> r[i] == rad[i]
    {
      rad[..]
    }
  }
}
