/**
  Integer box geometry of the first-generation engine: elementwise minimum and
  maximum of two vectors, the `Tile` constructor with its optional clamping
  bounds, and the conditional deletion of dictionary keys.
*/
module CbamfUtil {
  import opened Wrappers

  /** The exceptions NumPy or Python raise in this file. */
  datatype UtilError =
    | ShapeMismatch   // `np.vstack` / broadcasting of vectors of different lengths
    | NotIterable     // `len()` of a scalar
    | IndexError      // `l[2]` of a vector with fewer than three entries

  function Min(a: int, b: int): int { if a <= b then a else b }
  function Max(a: int, b: int): int { if a >= b then a else b }

  /** `amin(a, b)`: `np.vstack([a, b]).min(axis=0)`, defined for equal lengths. */
  function AMin(a: seq<int>, b: seq<int>): (r: Result<seq<int>, UtilError>)
    ensures r.Ok? <==> |a| == |b|
    ensures r.Ok? ==> |r.value| == |a|
    ensures r.Ok? ==> forall i :: 0 <= i < |a| ==>
      r.value[i] <= a[i] && r.value[i] <= b[i] && (r.value[i] == a[i] || r.value[i] == b[i])
  {
    if |a| != |b| then Err(ShapeMismatch) else Ok(seq(|a|, i requires 0 <= i < |a| => Min(a[i], b[i])))
  }

  /** `amax(a, b)`: `np.vstack([a, b]).max(axis=0)`, defined for equal lengths. */
  function AMax(a: seq<int>, b: seq<int>): (r: Result<seq<int>, UtilError>)
    ensures r.Ok? <==> |a| == |b|
    ensures r.Ok? ==> |r.value| == |a|
    ensures r.Ok? ==> forall i :: 0 <= i < |a| ==>
      r.value[i] >= a[i] && r.value[i] >= b[i] && (r.value[i] == a[i] || r.value[i] == b[i])
  {
    if |a| != |b| then Err(ShapeMismatch) else Ok(seq(|a|, i requires 0 <= i < |a| => Max(a[i], b[i])))
  }

  /** An argument of `Tile`: a scalar or an iterable of integers. */
  datatype Arg = Scalar(n: int) | Vector(xs: seq<int>)

  /** A scalar is repeated three times (`np.array([x]*3)`). */
  function Broadcast(a: Arg): (v: seq<int>)
    ensures a.Scalar? ==> v == [a.n, a.n, a.n]
    ensures a.Vector? ==> v == a.xs
  {
    match a
    case Scalar(n) => [n, n, n]
    case Vector(xs) => xs
  }

  /** The box `[l, r)`; `bounds` is the pair `(l, r)`. */
  datatype Tile = Tile(l: seq<int>, r: seq<int>) {
    /** The form every constructed tile has: equal lengths, at least three axes. */
    predicate Valid() { |l| == |r| && |l| >= 3 }

    /** `shape = r - l`; negative entries are not rejected. */
    function Shape(): (s: seq<int>)
      requires Valid()
      ensures |s| == |l| && forall i :: 0 <= i < |l| ==> s[i] == r[i] - l[i]
    {
      seq(|l|, i requires 0 <= i < |l| => r[i] - l[i])
    }

    /** Whether every extent is nonnegative (callers refuse a tile with a negative extent). */
    predicate NonNegative()
      requires Valid()
    {
      forall i :: 0 <= i < |l| ==> l[i] <= r[i]
    }
  }

  /** `left` and `right` after the defaulting and broadcasting of lines 12-20,
      before the clamping. */
  function Corners(left: Arg, right: Option<Arg>): Result<(seq<int>, seq<int>), UtilError>
  {
    if right.None? then
      (match left
       case Scalar(_) => Err(NotIterable)
       case Vector(xs) => Ok((seq(|xs|, _ => 0), xs)))
    else Ok((Broadcast(left), Broadcast(right.value)))
  }

  /** `Tile(left, right, mins, maxs)`. */
  function NewTile(left: Arg, right: Option<Arg>, mins: Option<Arg>, maxs: Option<Arg>): (t: Result<Tile, UtilError>)
    ensures t.Ok? ==> t.value.Valid()
    ensures t.Ok? && mins.Some? ==>
      |Broadcast(mins.value)| == |t.value.l| &&
      forall i :: 0 <= i < |t.value.l| ==> t.value.l[i] >= Broadcast(mins.value)[i]
    ensures t.Ok? && maxs.Some? ==>
      |Broadcast(maxs.value)| == |t.value.r| &&
      forall i :: 0 <= i < |t.value.r| ==> t.value.r[i] <= Broadcast(maxs.value)[i]
  {
    var (l0, r0) :- Corners(left, right);
    var l1 :- if mins.Some? then AMax(l0, Broadcast(mins.value)) else Ok(l0);
    var r1 :- if maxs.Some? then AMin(r0, Broadcast(maxs.value)) else Ok(r0);
    if |l1| != |r1| && |l1| != 1 && |r1| != 1 then Err(ShapeMismatch)
    else if |l1| < 3 || |r1| < 3 then Err(IndexError)
    else if |l1| != |r1| then Err(ShapeMismatch)
    else Ok(Tile(l1, r1))
  }

  /** `Tile(x)` spans `[0, x)`. */
  lemma TileFromExtent(x: seq<int>)
    requires |x| >= 3
    ensures NewTile(Vector(x), None, None, None) == Ok(Tile(seq(|x|, _ => 0), x))
    ensures forall i :: 0 <= i < |x| ==> NewTile(Vector(x), None, None, None).value.Shape()[i] == x[i]
  {
  }

  /** Scalar corners are broadcast to three axes. */
  lemma TileScalarCorners(a: int, b: int)
    ensures NewTile(Scalar(a), Some(Scalar(b)), None, None) == Ok(Tile([a, a, a], [b, b, b]))
  {
  }

  /** With `mins` the left corner is the elementwise maximum, with `maxs` the
      right corner the elementwise minimum; an absent bound leaves its corner alone. */
  lemma TileClamp(left: seq<int>, right: seq<int>, mins: Option<Arg>, maxs: Option<Arg>)
    requires |left| == |right| >= 3
    requires mins.Some? ==> |Broadcast(mins.value)| == |left|
    requires maxs.Some? ==> |Broadcast(maxs.value)| == |right|
    ensures NewTile(Vector(left), Some(Vector(right)), mins, maxs).Ok?
    ensures var t := NewTile(Vector(left), Some(Vector(right)), mins, maxs).value;
      && |t.l| == |left| && |t.r| == |right|
      && (forall i :: 0 <= i < |left| ==>
            t.l[i] == (if mins.Some? then Max(left[i], Broadcast(mins.value)[i]) else left[i]))
      && (forall i :: 0 <= i < |right| ==>
            t.r[i] == (if maxs.Some? then Min(right[i], Broadcast(maxs.value)[i]) else right[i]))
  {
  }

  /** The constructor accepts inverted corners: the shape is then negative. */
  lemma TileNegativeExtent()
    ensures NewTile(Vector([5, 5, 5]), Some(Vector([2, 2, 2])), None, None).Ok?
    ensures NewTile(Vector([5, 5, 5]), Some(Vector([2, 2, 2])), None, None).value.Shape() == [-3, -3, -3]
  {
  }

  /** The argument of `cdd`: one key, or a list of keys. */
  datatype KeyArg<K> = OneKey(k: K) | KeyList(ks: seq<K>)

  function Listify<K>(k: KeyArg<K>): seq<K>
  {
    match k
    case OneKey(x) => [x]
    case KeyList(ks) => ks
  }

  /** `cdd(d, k)`: pops every listed key that `d` has; the dictionary is
      modelled as a value, returned updated. */
  method Cdd<K, V>(d: map<K, V>, k: KeyArg<K>) returns (d': map<K, V>)
    ensures d'.Keys == d.Keys - set x | x in Listify(k)
    ensures forall x :: x in d' ==> d'[x] == d[x]
  {
    var ks := Listify(k);
    d' := d;
    var i := 0;
    while i < |ks|
      invariant 0 <= i <= |ks|
      invariant d'.Keys == d.Keys - set x | x in ks[..i]
      invariant forall x :: x in d' ==> d'[x] == d[x]
    {
      if ks[i] in d' {
        d' := d' - {ks[i]};
      }
      assert ks[..i + 1] == ks[..i] + [ks[i]];
      i := i + 1;
    }
    assert ks[..i] == ks;
  }
}
