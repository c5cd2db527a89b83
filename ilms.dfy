/**
  Illumination fields (`peri/comp/ilms.py`). A polynomial illumination is
  a parameter group whose names enumerate index tuples, plus a field kept
  equal to the sum of each value times the basis term of its index. An
  update of few parameters adjusts the field term by term; an update of
  many rebuilds it. The basis terms are functions of the model: nothing
  below depends on which polynomials they are.
*/
module Ilms {
  import opened Wrappers
  import opened Comp
  import opened Names

  /** `if constval:` — neither `None` nor `0` passes. */
  predicate Truthy(c: Option<real>)
  {
    c.Some? && c.value != 0.0
  }

  /** The errors a constructor can raise before an object exists. */
  datatype IlmError = IndexError | KeyError

  // ---------------------------------------------------------------------
  // Enumeration of index tuples by `itertools.product`
  // ---------------------------------------------------------------------

  type Index2 = (nat, nat)
  type Index3 = (nat, nat, nat)

  predicate Less2(x: Index2, y: Index2)
  {
    x.0 < y.0 || (x.0 == y.0 && x.1 < y.1)
  }

  predicate Less3(x: Index3, y: Index3)
  {
    x.0 < y.0 || (x.0 == y.0 && Less2((x.1, x.2), (y.1, y.2)))
  }

  predicate In2(x: Index2, a: nat, b: nat)
  {
    x.0 < a && x.1 < b
  }

  predicate In3(x: Index3, a: nat, b: nat, c: nat)
  {
    x.0 < a && x.1 < b && x.2 < c
  }

  /** `list(product(range(a), range(b)))`: `a * b` pairs, each in range,
      every pair in range present, in strictly increasing lexicographic order. */
  ghost predicate Product2(s: seq<Index2>, a: nat, b: nat)
  {
    && |s| == a * b
    && (forall n :: 0 <= n < |s| ==> In2(s[n], a, b))
    && (forall n, m :: 0 <= n < m < |s| ==> Less2(s[n], s[m]))
    && (forall x: Index2 :: In2(x, a, b) ==> x in s)
  }

  /** `list(product(range(a), range(b), range(c)))`, likewise. */
  ghost predicate Product3(s: seq<Index3>, a: nat, b: nat, c: nat)
  {
    && |s| == a * b * c
    && (forall n :: 0 <= n < |s| ==> In3(s[n], a, b, c))
    && (forall n, m :: 0 <= n < m < |s| ==> Less3(s[n], s[m]))
    && (forall x: Index3 :: In3(x, a, b, c) ==> x in s)
  }

  /** What a nested loop has produced when it is about to emit `cur`:
      exactly the in-range tuples before `cur`, in order. */
  ghost predicate Before3(s: seq<Index3>, a: nat, b: nat, c: nat, cur: Index3)
  {
    && |s| == (cur.0 * b + cur.1) * c + cur.2
    && (forall n :: 0 <= n < |s| ==> In3(s[n], a, b, c) && Less3(s[n], cur))
    && (forall n, m :: 0 <= n < m < |s| ==> Less3(s[n], s[m]))
    && (forall x: Index3 :: In3(x, a, b, c) && Less3(x, cur) ==> x in s)
  }

  ghost predicate Before2(s: seq<Index2>, a: nat, b: nat, cur: Index2)
  {
    && |s| == cur.0 * b + cur.1
    && (forall n :: 0 <= n < |s| ==> In2(s[n], a, b) && Less2(s[n], cur))
    && (forall n, m :: 0 <= n < m < |s| ==> Less2(s[n], s[m]))
    && (forall x: Index2 :: In2(x, a, b) && Less2(x, cur) ==> x in s)
  }

  lemma Emit3(s: seq<Index3>, a: nat, b: nat, c: nat, cur: Index3)
    requires Before3(s, a, b, c, cur) && In3(cur, a, b, c)
    ensures Before3(s + [cur], a, b, c, (cur.0, cur.1, cur.2 + 1))
  {
    var s' := s + [cur];
    var next := (cur.0, cur.1, cur.2 + 1);
    forall x: Index3 | In3(x, a, b, c) && Less3(x, next)
      ensures x in s'
    {
      if x != cur {
        assert Less3(x, cur);
        assert x in s;
      } else {
        assert s'[|s|] == x;
      }
    }
  }

  lemma NextRow3(s: seq<Index3>, a: nat, b: nat, c: nat, i: nat, j: nat)
    requires Before3(s, a, b, c, (i, j, c))
    ensures Before3(s, a, b, c, (i, j + 1, 0))
  {
    assert (i * b + j) * c + c == (i * b + (j + 1)) * c;
    forall x: Index3 | In3(x, a, b, c) && Less3(x, (i, j + 1, 0))
      ensures x in s
    {
      assert Less3(x, (i, j, c));
    }
  }

  lemma NextPlane3(s: seq<Index3>, a: nat, b: nat, c: nat, i: nat)
    requires Before3(s, a, b, c, (i, b, 0))
    ensures Before3(s, a, b, c, (i + 1, 0, 0))
  {
    assert (i * b + b) * c == ((i + 1) * b + 0) * c + 0;
    forall x: Index3 | In3(x, a, b, c) && Less3(x, (i + 1, 0, 0))
      ensures x in s
    {
      assert Less3(x, (i, b, 0));
    }
  }

  lemma Done3(s: seq<Index3>, a: nat, b: nat, c: nat)
    requires Before3(s, a, b, c, (a, 0, 0))
    ensures Product3(s, a, b, c)
  {
    assert (a * b + 0) * c + 0 == a * b * c;
  }

  lemma Emit2(s: seq<Index2>, a: nat, b: nat, cur: Index2)
    requires Before2(s, a, b, cur) && In2(cur, a, b)
    ensures Before2(s + [cur], a, b, (cur.0, cur.1 + 1))
  {
    var s' := s + [cur];
    forall x: Index2 | In2(x, a, b) && Less2(x, (cur.0, cur.1 + 1))
      ensures x in s'
    {
      if x != cur {
        assert x in s;
      } else {
        assert s'[|s|] == x;
      }
    }
  }

  lemma NextRow2(s: seq<Index2>, a: nat, b: nat, i: nat)
    requires Before2(s, a, b, (i, b))
    ensures Before2(s, a, b, (i + 1, 0))
  {
    assert i * b + b == (i + 1) * b + 0;
    forall x: Index2 | In2(x, a, b) && Less2(x, (i + 1, 0))
      ensures x in s
    {
      assert Less2(x, (i, b));
    }
  }

  lemma Done2(s: seq<Index2>, a: nat, b: nat)
    requires Before2(s, a, b, (a, 0))
    ensures Product2(s, a, b)
  {
  }

  /** The first tuple of a nonempty product is all zeros: the constant term. */
  lemma {:induction false} Product3First(s: seq<Index3>, a: nat, b: nat, c: nat)
    requires Product3(s, a, b, c) && |s| > 0
    ensures s[0] == (0, 0, 0)
  {
    assert In3(s[0], a, b, c);
    var z: Index3 := (0, 0, 0);
    assert In3(z, a, b, c);
    var n :| 0 <= n < |s| && s[n] == z;
    assert n > 0 ==> Less3(s[0], s[n]);
  }

  /** The first pair of a nonempty product is `(0, 0)`. */
  lemma {:induction false} Product2First(s: seq<Index2>, a: nat, b: nat)
    requires Product2(s, a, b) && |s| > 0
    ensures s[0] == (0, 0)
  {
    assert In2(s[0], a, b);
    var z: Index2 := (0, 0);
    assert In2(z, a, b);
    var n :| 0 <= n < |s| && s[n] == z;
    assert n > 0 ==> Less2(s[0], s[n]);
  }

  /** The pair `(0, 0)` is enumerated exactly when both ranges are nonempty. */
  lemma Product2HasOrigin(s: seq<Index2>, a: nat, b: nat)
    requires Product2(s, a, b)
    ensures ((0, 0) in s) <==> a > 0 && b > 0
  {
    if (0, 0) in s {
      var n :| 0 <= n < |s| && s[n] == (0, 0);
      assert In2(s[n], a, b);
    } else if a > 0 && b > 0 {
      assert In2((0, 0), a, b);
    }
  }

  /** Names of distinct triples are distinct. */
  lemma Ilm3NamesDistinct(s: seq<Index3>, names: seq<string>)
    requires forall n, m :: 0 <= n < m < |s| ==> Less3(s[n], s[m])
    requires |names| == |s|
    requires forall n :: 0 <= n < |s| ==> names[n] == Ilm3Name(s[n].0, s[n].1, s[n].2)
    ensures Distinct(names)
  {
    forall n, m | 0 <= n < m < |names|
      ensures names[n] != names[m]
    {
      assert Less3(s[n], s[m]);
      if names[n] == names[m] {
        Ilm3NameInjective(s[n].0, s[n].1, s[n].2, s[m].0, s[m].1, s[m].2);
      }
    }
  }

  // ---------------------------------------------------------------------
  // Fields as sums of value times term
  // ---------------------------------------------------------------------

  /** The basis term of the parameter named `p` at voxel `v`. */
  type Basis = (string, nat) -> real

  /** The value a parameter contributes with; names without a value contribute nothing. */
  function Coef(vals: map<string, real>, p: string): real
  {
    if p in vals then vals[p] else 0.0
  }

  /** `sum(v * term(p) for p, v in zip(params, values))` at voxel `v`, in key order. */
  function Series(ks: seq<string>, vals: map<string, real>, t: Basis, v: nat): real
    decreases |ks|
  {
    if |ks| == 0 then 0.0
    else Series(ks[..|ks| - 1], vals, t, v) + Coef(vals, ks[|ks| - 1]) * t(ks[|ks| - 1], v)
  }

  /** Replacing the value of a name that occurs once in the keys moves the
      sum by exactly the old and the new value times its term; a name that
      does not occur leaves the sum alone. */
  lemma {:induction false} SeriesReplace(ks: seq<string>, vals: map<string, real>, t: Basis, v: nat, p: string, w: real)
    requires Distinct(ks)
    ensures p in ks ==>
      Series(ks, vals[p := w], t, v) == Series(ks, vals, t, v) - Coef(vals, p) * t(p, v) + w * t(p, v)
    ensures p !in ks ==> Series(ks, vals[p := w], t, v) == Series(ks, vals, t, v)
    decreases |ks|
  {
    if |ks| > 0 {
      var init := ks[..|ks| - 1];
      var last := ks[|ks| - 1];
      assert Distinct(init);
      SeriesReplace(init, vals, t, v, p, w);
      var s0, s1 := Series(init, vals, t, v), Series(init, vals[p := w], t, v);
      var c0, c1 := Coef(vals, last) * t(last, v), Coef(vals[p := w], last) * t(last, v);
      assert Series(ks, vals, t, v) == s0 + c0;
      assert Series(ks, vals[p := w], t, v) == s1 + c1;
      if last == p {
        assert p !in init by {
          assert forall i :: 0 <= i < |init| ==> init[i] == ks[i] && ks[i] != p;
        }
        assert s1 == s0;
        assert c1 == w * t(p, v);
        assert c0 == Coef(vals, p) * t(p, v);
      } else {
        assert c1 == c0;
        assert p in ks <==> p in init by {
          if p in ks {
            var i :| 0 <= i < |ks| && ks[i] == p;
            assert init[i] == p;
          }
        }
      }
    }
  }

  /** The sum over a key prefix one longer. */
  lemma SeriesSnoc(ks: seq<string>, i: nat, vals: map<string, real>, t: Basis, v: nat)
    requires i < |ks|
    ensures Series(ks[..i + 1], vals, t, v) == Series(ks[..i], vals, t, v) + Coef(vals, ks[i]) * t(ks[i], v)
  {
    assert ks[..i + 1][..i] == ks[..i];
  }

  /** `f + c * term(p)`, voxel by voxel (`field += c * term` in place). */
  function AddTerm(f: seq<real>, c: real, t: Basis, p: string): (g: seq<real>)
    ensures |g| == |f|
    ensures forall v :: 0 <= v < |f| ==> g[v] == f[v] + c * t(p, v)
  {
    seq(|f|, v requires 0 <= v < |f| => f[v] + c * t(p, v))
  }

  /** A field of `size` voxels equal to the series of `ks` at every voxel. */
  ghost predicate SumField(f: seq<real>, ks: seq<string>, vals: map<string, real>, t: Basis, size: nat)
  {
    |f| == size && forall v :: 0 <= v < size ==> f[v] == Series(ks, vals, t, v)
  }

  /** Subtracting the old value's term and adding the new value's term
      keeps the field equal to the series of the updated values. */
  lemma ReplaceTerm(f: seq<real>, ks: seq<string>, vals: map<string, real>, t: Basis, size: nat, p: string, w: real)
    requires SumField(f, ks, vals, t, size) && Distinct(ks) && p in vals && p in ks
    ensures SumField(AddTerm(AddTerm(f, -vals[p], t, p), w, t, p), ks, vals[p := w], t, size)
  {
    var g := AddTerm(AddTerm(f, -vals[p], t, p), w, t, p);
    forall v | 0 <= v < size
      ensures g[v] == Series(ks, vals[p := w], t, v)
    {
      SeriesReplace(ks, vals, t, v, p, w);
    }
  }

  /** Adding a term whose name does not occur in `ks` leaves the series of
      `ks` in place when its value changes. */
  lemma OtherTerm(f: seq<real>, ks: seq<string>, vals: map<string, real>, t: Basis, size: nat, p: string, w: real)
    requires SumField(f, ks, vals, t, size) && Distinct(ks) && p in vals && p in ks
    requires forall v :: 0 <= v < size ==> t(p, v) == 0.0
    ensures SumField(f, ks, vals[p := w], t, size)
  {
    forall v | 0 <= v < size
      ensures f[v] == Series(ks, vals[p := w], t, v)
    {
      SeriesReplace(ks, vals, t, v, p, w);
    }
  }

  /** One more key of the full-path loop. */
  lemma SnocTerm(f: seq<real>, ks: seq<string>, i: nat, vals: map<string, real>, t: Basis, size: nat)
    requires i < |ks| && SumField(f, ks[..i], vals, t, size)
    ensures SumField(AddTerm(f, Coef(vals, ks[i]), t, ks[i]), ks[..i + 1], vals, t, size)
  {
    forall v | 0 <= v < size
      ensures AddTerm(f, Coef(vals, ks[i]), t, ks[i])[v] == Series(ks[..i + 1], vals, t, v)
    {
      SeriesSnoc(ks, i, vals, t, v);
    }
  }

  /** The zero field, `np.zeros(shape)`. */
  function Zeros(size: nat): (f: seq<real>)
    ensures |f| == size && forall v :: 0 <= v < size ==> f[v] == 0.0
  {
    seq(size, _ => 0.0)
  }

  /** How many leading names are known: the first unknown one is where a
      loop over the names raises `KeyError`. */
  function KnownPrefix(ps: seq<string>, known: set<string>): (k: nat)
    ensures k <= |ps|
    ensures forall i :: 0 <= i < k ==> ps[i] in known
    ensures k < |ps| ==> ps[k] !in known
    decreases |ps|
  {
    if |ps| == 0 || ps[0] !in known then 0 else 1 + KnownPrefix(ps[1..], known)
  }

  /** The known prefix is determined by its two defining facts. */
  lemma KnownPrefixIs(ps: seq<string>, known: set<string>, k: nat)
    requires k <= |ps|
    requires forall i :: 0 <= i < k ==> ps[i] in known
    requires k < |ps| ==> ps[k] !in known
    ensures KnownPrefix(ps, known) == k
  {
  }

  /** `len(params) < len(self.params)/2`, with Python 2's integer division. */
  predicate Incremental(n: nat, total: nat)
  {
    n < total / 2
  }

  /** A full-path update loop raises `KeyError` at the first name it
      cannot look up: after `set_values` every old key comes first, and a
      name written that was not a key is appended after them. */
  lemma FullPathKeys(d: ODict, ps: seq<string>, vs: seq<real>)
    requires WellFormed(d)
    ensures KnownPrefix(InsertAll(d, ps, vs).keys, d.table.Keys) == |d.keys|
    ensures var m := MinLen(|ps|, |vs|);
      (|InsertAll(d, ps, vs).keys| == |d.keys|) == (KnownPrefix(ps[..m], d.table.Keys) == m)
    ensures var m := MinLen(|ps|, |vs|);
      KnownPrefix(ps[..m], d.table.Keys) == m ==>
        && InsertAll(d, ps, vs).keys == d.keys
        && (forall q :: q in InsertAll(d, ps, vs).table <==> q in d.table)
  {
    var m := MinLen(|ps|, |vs|);
    if KnownPrefix(ps[..m], d.table.Keys) == m {
      FullPathAllKnown(d, ps, vs);
    } else {
      FullPathSomeUnknown(d, ps, vs);
    }
  }

  /** Only known names were written: the key order is unchanged. */
  lemma FullPathAllKnown(d: ODict, ps: seq<string>, vs: seq<real>)
    requires WellFormed(d)
    requires var m := MinLen(|ps|, |vs|); KnownPrefix(ps[..m], d.table.Keys) == m
    ensures InsertAll(d, ps, vs).keys == d.keys
    ensures forall q :: q in InsertAll(d, ps, vs).table <==> q in d.table
    ensures KnownPrefix(InsertAll(d, ps, vs).keys, d.table.Keys) == |d.keys|
  {
    var m := MinLen(|ps|, |vs|);
    forall i | 0 <= i < m
      ensures ps[i] in d.table
    {
      assert ps[..m][i] == ps[i] && ps[..m][i] in d.table.Keys;
    }
    InsertAllKnown(d, ps, vs);
    KnownPrefixIs(d.keys, d.table.Keys, |d.keys|);
  }

  /** Some name was not a key: it was appended right after the old keys. */
  lemma FullPathSomeUnknown(d: ODict, ps: seq<string>, vs: seq<real>)
    requires WellFormed(d)
    requires var m := MinLen(|ps|, |vs|); KnownPrefix(ps[..m], d.table.Keys) < m
    ensures |InsertAll(d, ps, vs).keys| != |d.keys|
    ensures KnownPrefix(InsertAll(d, ps, vs).keys, d.table.Keys) == |d.keys|
  {
    var d' := InsertAll(d, ps, vs);
    var m := MinLen(|ps|, |vs|);
    var known := d.table.Keys;
    var k := KnownPrefix(ps[..m], known);
    InsertAllWellFormed(d, ps, vs);
    var K := |d.keys|;
    assert forall i :: 0 <= i < K ==> d'.keys[i] == d.keys[i] && d.keys[i] in known;
    assert ps[..m][k] == ps[k];
    InsertAllHas(d, ps, vs, k);
    assert ps[k] in d'.keys;
    var j :| 0 <= j < |d'.keys| && d'.keys[j] == ps[k];
    assert j >= K;
    assert forall i :: 0 <= i < K ==> d'.keys[K] != d'.keys[i];
    assert d'.keys[K] !in d.keys;
    KnownPrefixIs(d'.keys, known, K);
  }

  // ---------------------------------------------------------------------
  // Polynomial3D
  // ---------------------------------------------------------------------

  /** The relation between the enumerated triples and the parameter lists
      and the `param_term` dictionary built from them. */
  ghost predicate Named3(idx: seq<Index3>, params: seq<string>, values: seq<real>, pt: map<string, Index3>)
  {
    && |params| == |idx| && |values| == |idx|
    && (forall n :: 0 <= n < |idx| ==> params[n] == Ilm3Name(idx[n].0, idx[n].1, idx[n].2) && values[n] == 0.0)
    && (forall p :: p in pt <==> p in params)
    && (forall n :: 0 <= n < |idx| ==> params[n] in pt && pt[params[n]] == idx[n])
  }

  lemma Name3Step(idx: seq<Index3>, params: seq<string>, values: seq<real>, pt: map<string, Index3>, cur: Index3)
    requires Named3(idx, params, values, pt)
    requires forall n :: 0 <= n < |idx| ==> Less3(idx[n], cur)
    ensures Named3(idx + [cur], params + [Ilm3Name(cur.0, cur.1, cur.2)], values + [0.0],
                   pt[Ilm3Name(cur.0, cur.1, cur.2) := cur])
  {
    var name := Ilm3Name(cur.0, cur.1, cur.2);
    forall n | 0 <= n < |idx|
      ensures params[n] != name
    {
      assert Less3(idx[n], cur);
      if params[n] == name {
        Ilm3NameInjective(idx[n].0, idx[n].1, idx[n].2, cur.0, cur.1, cur.2);
      }
    }
  }

  /** The loop of `Polynomial3D.__init__`: for each triple of
      `product(range(order[0]), range(order[1]), range(order[2]))` the
      name `ilm-i-j-k`, the value `0.0` and the `param_term` entry. */
  method Layout3(order: Index3) returns (idx: seq<Index3>, params: seq<string>, values: seq<real>, pt: map<string, Index3>)
    ensures Product3(idx, order.0, order.1, order.2)
    ensures Named3(idx, params, values, pt)
    ensures Distinct(params)
  {
    var a, b, c := order.0, order.1, order.2;
    idx, params, values, pt := [], [], [], map[];
    var i := 0;
    while i < a
      invariant i <= a
      invariant Before3(idx, a, b, c, (i, 0, 0))
      invariant Named3(idx, params, values, pt)
    {
      var j := 0;
      while j < b
        invariant j <= b
        invariant Before3(idx, a, b, c, (i, j, 0))
        invariant Named3(idx, params, values, pt)
      {
        var k := 0;
        while k < c
          invariant k <= c
          invariant Before3(idx, a, b, c, (i, j, k))
          invariant Named3(idx, params, values, pt)
        {
          Emit3(idx, a, b, c, (i, j, k));
          Name3Step(idx, params, values, pt, (i, j, k));
          var p := Ilm3Name(i, j, k);
          pt := pt[p := (i, j, k)];
          params := params + [p];
          values := values + [0.0];
          idx := idx + [(i, j, k)];
          k := k + 1;
        }
        NextRow3(idx, a, b, c, i, j);
        j := j + 1;
      }
      NextPlane3(idx, a, b, c, i);
      i := i + 1;
    }
    Done3(idx, a, b, c);
    Ilm3NamesDistinct(idx, params);
  }

  /** `self.term(self.param_term[p])` as a term of the name `p`. */
  function Lift3(pt: map<string, Index3>, term: (Index3, nat) -> real): Basis
  {
    (p: string, v: nat) => if p in pt then term(pt[p], v) else 0.0
  }

  /** The value `Polynomial3D.__init__` gives the `n`-th parameter. */
  function Initial3(n: nat, constval: Option<real>): real
  {
    if n == 0 && Truthy(constval) then constval.value else 0.0
  }

  class Polynomial3D {
    const order: Index3
    /** The number of voxels of `shape`. */
    const size: nat
    /** `term_ijk`: the basis term of an index triple at a voxel. */
    const term: (Index3, nat) -> real
    const paramTerm: map<string, Index3>
    /** `self.term(self.param_term[p])` for each name `p`. */
    const basis: Basis
    const group: ParameterGroup
    ghost const indices: seq<Index3>
    var field: seq<real>

    /** `field` is the sum of each stored value times its term. */
    ghost predicate FieldHolds()
      reads this, group
    {
      SumField(field, group.keys, group.table, basis, size)
    }

    ghost predicate Valid()
      reads this, group
    {
      && group.Valid()
      && (forall p :: p in group.table <==> p in paramTerm)
      && FieldHolds()
    }

    /** `Component.__init__(params, values)` followed by `initialize()`. */
    constructor (size: nat, order: Index3, term: (Index3, nat) -> real, ghost idx: seq<Index3>,
                 params: seq<string>, values: seq<real>, pt: map<string, Index3>)
      requires Distinct(params) && |values| == |params|
      requires forall p :: p in pt <==> p in params
      ensures Valid() && fresh(group)
      ensures this.size == size && this.order == order && this.term == term && paramTerm == pt && indices == idx
      ensures basis == Lift3(pt, term)
      ensures group.keys == params
      ensures forall n :: 0 <= n < |params| ==> group.table[params[n]] == values[n]
    {
      this.size, this.order, this.term, paramTerm, indices := size, order, term, pt, idx;
      basis := Lift3(pt, term);
      ConstructFromPairs(params, values);
      group := new ParameterGroup(Pairs(params, values));
      field := [];
      new;
      Rebuild();
    }

    /** `Polynomial3D(shape, order, constval=constval)`: the layout loop,
        then `values[0] = constval` when `constval` is truthy, which raises
        `IndexError` on an empty parameter list. */
    static method Create(size: nat, order: Index3, constval: Option<real>, term: (Index3, nat) -> real)
      returns (r: Result<Polynomial3D, IlmError>)
      ensures r.Err? <==> Truthy(constval) && order.0 * order.1 * order.2 == 0
      ensures r.Err? ==> r.error == IndexError
      ensures r.Ok? ==> fresh(r.value) && fresh(r.value.group) && r.value.Valid()
      ensures r.Ok? ==> r.value.size == size && r.value.order == order && r.value.term == term
      ensures r.Ok? ==> r.value.basis == Lift3(r.value.paramTerm, term)
      ensures r.Ok? ==> var o := r.value; var ks := o.group.keys;
        && Product3(o.indices, order.0, order.1, order.2)
        && |ks| == |o.indices|
        && (forall n :: 0 <= n < |ks| ==> ks[n] == Ilm3Name(o.indices[n].0, o.indices[n].1, o.indices[n].2))
        && (forall n :: 0 <= n < |ks| ==> o.paramTerm[ks[n]] == o.indices[n])
        && (forall n :: 0 <= n < |ks| ==> o.group.table[ks[n]] == Initial3(n, constval))
    {
      var idx, params, values, pt := Layout3(order);
      if Truthy(constval) {
        if |values| == 0 {
          return Err(IndexError);
        }
        values := values[0 := constval.value];
      }
      var o := new Polynomial3D(size, order, term, idx, params, values, pt);
      r := Ok(o);
    }

    /** The full path: `field = zeros`, then
        `field += v * term(param_term[p])` for every stored pair. */
    method Rebuild()
      requires group.Valid() && (forall p :: p in group.table <==> p in paramTerm)
      modifies this
      ensures Valid()
    {
      var ks := group.Params();
      var vals := group.Values();
      field := Zeros(size);
      assert ks[..0] == [];
      var i := 0;
      while i < |ks|
        invariant 0 <= i <= |ks|
        invariant SumField(field, ks[..i], group.table, basis, size)
      {
        assert Coef(group.table, ks[i]) == vals[i];
        SnocTerm(field, ks, i, group.table, basis, size);
        field := AddTerm(field, vals[i], basis, ks[i]);
        i := i + 1;
      }
      assert ks[..|ks|] == ks;
    }

    /** One pair of the incremental path: subtract the old value's term,
        store the new value, add the new value's term. */
    method Step(p: string, v1: real)
      requires Valid() && p in group.table
      modifies this, group
      ensures Valid()
      ensures group.keys == old(group.keys) && group.table == old(group.table)[p := v1]
    {
      ReplaceTerm(field, group.keys, group.table, basis, size, p, v1);
      var v0 := group.table[p];
      field := AddTerm(field, -v0, basis, p);
      group.SetValues([p], [v1]);
      assert [p][1..] == [] && [v1][1..] == [];
      field := AddTerm(field, v1, basis, p);
    }

    /** The loop of the incremental path: each zipped pair in turn, until
        the first name that is not a parameter, which raises `KeyError`
        after the pairs before it took effect. Returns how many were written. */
    method ApplyPairs(ps: seq<string>, vs: seq<real>) returns (n: nat)
      requires Valid()
      modifies this, group
      ensures Valid()
      ensures n <= MinLen(|ps|, |vs|)
      ensures forall i :: 0 <= i < n ==> ps[i] in old(group.table)
      ensures n < MinLen(|ps|, |vs|) ==> ps[n] !in old(group.table)
      ensures group.Contents() == InsertAll(old(group.Contents()), ps[..n], vs[..n])
    {
      var m := MinLen(|ps|, |vs|);
      ghost var d0 := group.Contents();
      n := 0;
      while n < m
        invariant Written(d0, ps, vs, n)
      {
        var known := Advance(ps, vs, n, d0);
        if !known {
          break;
        }
        n := n + 1;
      }
      InsertAllKnown(d0, ps[..n], vs[..n]);
    }

    /** The state after the first `n` pairs of that loop were written. */
    ghost predicate Written(d0: ODict, ps: seq<string>, vs: seq<real>, n: nat)
      reads this, group
    {
      && n <= MinLen(|ps|, |vs|)
      && Valid()
      && (forall p :: p in d0.table <==> p in paramTerm)
      && (forall i :: 0 <= i < n ==> ps[i] in d0.table)
      && group.keys == d0.keys
      && group.table == InsertAll(d0, ps[..n], vs[..n]).table
    }

    /** One round of that loop: the `n`-th pair is written when its name
        is a parameter. */
    method Advance(ps: seq<string>, vs: seq<real>, n: nat, ghost d0: ODict) returns (known: bool)
      requires Written(d0, ps, vs, n) && n < MinLen(|ps|, |vs|)
      modifies this, group
      ensures known == (ps[n] in d0.table)
      ensures known ==> Written(d0, ps, vs, n + 1)
      ensures !known ==> Written(d0, ps, vs, n)
    {
      if ps[n] !in group.table {
        return false;
      }
      InsertAllSnoc(d0, ps, vs, n);
      Step(ps[n], vs[n]);
      known := true;
    }

    /** The incremental path of `update`: `ok` is whether every zipped
        name was a parameter. */
    method AdjustTerms(ps: seq<string>, vs: seq<real>) returns (ok: bool)
      requires Valid()
      modifies this, group
      ensures Valid()
      ensures var m := MinLen(|ps|, |vs|);
        var k := KnownPrefix(ps[..m], old(group.table).Keys);
        && ok == (k == m)
        && group.Contents() == InsertAll(old(group.Contents()), ps[..k], vs[..k])
    {
      var m := MinLen(|ps|, |vs|);
      ghost var known := group.table.Keys;
      var n := ApplyPairs(ps, vs);
      KnownPrefixIs(ps[..m], known, n);
      ok := n == m;
    }

    /** `update(params, values)` as written: fewer than half the
        parameters take the incremental path; otherwise the field is
        rebuilt from the STORED values and the passed ones are dropped. */
    method UpdateAsWritten(ps: seq<string>, vs: seq<real>) returns (ok: bool)
      requires Valid()
      modifies this, group
      ensures Valid()
      ensures var m := MinLen(|ps|, |vs|);
        var k := KnownPrefix(ps[..m], old(group.table).Keys);
        Incremental(|ps|, |old(group.keys)|) ==>
          && ok == (k == m)
          && group.Contents() == InsertAll(old(group.Contents()), ps[..k], vs[..k])
      ensures !Incremental(|ps|, |old(group.keys)|) ==> ok && group.Contents() == old(group.Contents())
    {
      if |ps| < |group.keys| / 2 {
        ok := AdjustTerms(ps, vs);
      } else {
        Rebuild();
        ok := true;
      }
    }

    /** `update(params, values)` with the full path storing the passed
        values before rebuilding, as `Polynomial2P1D.update` does. A name
        that is not a parameter is rejected before anything is written. */
    method Update(ps: seq<string>, vs: seq<real>) returns (ok: bool)
      requires Valid()
      modifies this, group
      ensures Valid()
      ensures var m := MinLen(|ps|, |vs|);
        var k := KnownPrefix(ps[..m], old(group.table).Keys);
        && ok == (k == m)
        && (ok ==> group.Contents() == InsertAll(old(group.Contents()), ps, vs))
        && (Incremental(|ps|, |old(group.keys)|) ==>
              group.Contents() == InsertAll(old(group.Contents()), ps[..k], vs[..k]))
        && (!Incremental(|ps|, |old(group.keys)|) && !ok ==> group.Contents() == old(group.Contents()))
    {
      InsertAllZipped(group.Contents(), ps, vs);
      if |ps| < |group.keys| / 2 {
        ok := AdjustTerms(ps, vs);
      } else {
        var m := MinLen(|ps|, |vs|);
        if KnownPrefix(ps[..m], group.table.Keys) < m {
          return false;
        }
        InsertAllKnown(group.Contents(), ps, vs);
        group.SetValues(ps, vs);
        Rebuild();
        ok := true;
      }
    }
  }

  /** An input on which `UpdateAsWritten` and the intended update differ:
      order (1, 1, 2) has the two parameters `ilm-0-0-0` and `ilm-0-0-1`;
      updating both is not incremental (2 < 2/2 fails), so the passed
      values 1 and 2 are dropped, while storing them changes the dictionary. */
  lemma FullPathDropsValues()
    ensures var ps := [Ilm3Name(0, 0, 0), Ilm3Name(0, 0, 1)];
      var d := InsertAll(Empty, ps, [0.0, 0.0]);
      && d.keys == ps
      && !Incremental(|ps|, |d.keys|)
      && InsertAll(d, ps, [1.0, 2.0]) != d
  {
    var ps := [Ilm3Name(0, 0, 0), Ilm3Name(0, 0, 1)];
    if ps[0] == ps[1] {
      Ilm3NameInjective(0, 0, 0, 0, 0, 1);
    }
    ConstructFromPairs(ps, [0.0, 0.0]);
    var d := InsertAll(Empty, ps, [0.0, 0.0]);
    InsertAllGet(d, ps, [1.0, 2.0], 0);
    assert d.table[ps[0]] == 0.0;
  }

  // ---------------------------------------------------------------------
  // Polynomial2P1D
  // ---------------------------------------------------------------------

  /** The relation between the enumerated pairs, the `ilm-xy-i-j` names
      and the `xy_param` dictionary. */
  ghost predicate Named2(idx: seq<Index2>, names: seq<string>, m: map<string, Index2>)
  {
    && |names| == |idx|
    && (forall n :: 0 <= n < |idx| ==> names[n] == IlmXYName(idx[n].0, idx[n].1))
    && (forall p :: p in m <==> p in names)
    && (forall n :: 0 <= n < |idx| ==> names[n] in m && m[names[n]] == idx[n])
  }

  lemma Name2Step(idx: seq<Index2>, names: seq<string>, m: map<string, Index2>, cur: Index2)
    requires Named2(idx, names, m)
    requires forall n :: 0 <= n < |idx| ==> Less2(idx[n], cur)
    ensures Named2(idx + [cur], names + [IlmXYName(cur.0, cur.1)], m[IlmXYName(cur.0, cur.1) := cur])
  {
    var name := IlmXYName(cur.0, cur.1);
    forall n | 0 <= n < |idx|
      ensures names[n] != name
    {
      assert Less2(idx[n], cur);
      if names[n] == name {
        IlmXYNameInjective(idx[n].0, idx[n].1, cur.0, cur.1);
      }
    }
  }

  /** The first loop of `Polynomial2P1D.__init__`, over
      `product(range(a), range(b))` with `(a, b) = order[1::-1]`. */
  method LayoutXY(a: nat, b: nat) returns (idx: seq<Index2>, names: seq<string>, m: map<string, Index2>)
    ensures Product2(idx, a, b)
    ensures Named2(idx, names, m)
  {
    idx, names, m := [], [], map[];
    var i := 0;
    while i < a
      invariant i <= a
      invariant Before2(idx, a, b, (i, 0))
      invariant Named2(idx, names, m)
    {
      var j := 0;
      while j < b
        invariant j <= b
        invariant Before2(idx, a, b, (i, j))
        invariant Named2(idx, names, m)
      {
        Emit2(idx, a, b, (i, j));
        Name2Step(idx, names, m, (i, j));
        var p := IlmXYName(i, j);
        m := m[p := (i, j)];
        names := names + [p];
        idx := idx + [(i, j)];
        j := j + 1;
      }
      NextRow2(idx, a, b, i);
      i := i + 1;
    }
    Done2(idx, a, b);
  }

  /** The relation between `range(n)`, the `ilm-z-k` names and `z_param`. */
  ghost predicate NamedZ(names: seq<string>, m: map<string, nat>, n: nat)
  {
    && |names| == n
    && (forall k :: 0 <= k < n ==> names[k] == IlmZName(k))
    && (forall p :: p in m <==> p in names)
    && (forall k :: 0 <= k < n ==> names[k] in m && m[names[k]] == k)
  }

  /** The second loop: `ilm-z-k` for `k` in `range(n)`, and `z_param`. */
  method LayoutZ(n: nat) returns (names: seq<string>, m: map<string, nat>)
    ensures NamedZ(names, m, n)
  {
    names, m := [], map[];
    var k := 0;
    while k < n
      invariant k <= n && |names| == k
      invariant forall i :: 0 <= i < k ==> names[i] == IlmZName(i)
      invariant forall p :: p in m <==> p in names
      invariant forall i :: 0 <= i < k ==> names[i] in m && m[names[i]] == i
    {
      var p := IlmZName(k);
      forall i | 0 <= i < k
        ensures names[i] != p
      {
        if names[i] == p {
          IlmZNameInjective(i, k);
        }
      }
      m := m[p := k];
      names := names + [p];
      k := k + 1;
    }
  }

  /** The parameter names of a `Polynomial2P1D` are distinct. */
  lemma Names2P1DDistinct(idx: seq<Index2>, xy: seq<string>, z: seq<string>)
    requires forall n, m :: 0 <= n < m < |idx| ==> Less2(idx[n], idx[m])
    requires |xy| == |idx|
    requires forall n :: 0 <= n < |idx| ==> xy[n] == IlmXYName(idx[n].0, idx[n].1)
    requires forall k :: 0 <= k < |z| ==> z[k] == IlmZName(k)
    ensures Distinct(xy + z)
  {
    var s := xy + z;
    forall n, m | 0 <= n < m < |s|
      ensures s[n] != s[m]
    {
      if m < |xy| {
        assert Less2(idx[n], idx[m]);
        if s[n] == s[m] {
          IlmXYNameInjective(idx[n].0, idx[n].1, idx[m].0, idx[m].1);
        }
      } else if n < |xy| {
        XYNameIsNotZName(idx[n].0, idx[n].1, m - |xy|);
      } else if s[n] == s[m] {
        IlmZNameInjective(n - |xy|, m - |xy|);
      }
    }
  }

  /** `ilm-xy-0-0` is a parameter exactly when both xy ranges are
      nonempty, and no `ilm-z-k` name is an xy parameter. */
  lemma XYOrigin(idx: seq<Index2>, names: seq<string>, m: map<string, Index2>, a: nat, b: nat)
    requires Product2(idx, a, b) && Named2(idx, names, m)
    ensures (IlmXYName(0, 0) in m) <==> a > 0 && b > 0
    ensures forall k :: IlmZName(k) !in m
  {
    Product2HasOrigin(idx, a, b);
    if IlmXYName(0, 0) in m {
      var n :| 0 <= n < |names| && names[n] == IlmXYName(0, 0);
      IlmXYNameInjective(idx[n].0, idx[n].1, 0, 0);
      assert idx[n] in idx;
    }
    if a > 0 && b > 0 {
      var n :| 0 <= n < |idx| && idx[n] == (0, 0);
      assert names[n] in m;
    }
    forall k, n | 0 <= n < |names|
      ensures names[n] != IlmZName(k)
    {
      XYNameIsNotZName(idx[n].0, idx[n].1, k);
    }
  }

  /** `ilm-z-0` is a parameter exactly when the z range is nonempty, and
      no `ilm-xy-i-j` name is a z parameter. */
  lemma ZOrigin(names: seq<string>, m: map<string, nat>, n: nat)
    requires NamedZ(names, m, n)
    ensures (IlmZName(0) in m) <==> n > 0
    ensures forall i, j :: IlmXYName(i, j) !in m
  {
    if n > 0 {
      assert names[0] in names;
    }
    forall i, j, k | 0 <= k < n
      ensures names[k] != IlmXYName(i, j)
    {
      XYNameIsNotZName(i, j, k);
    }
  }

  /** `Component.__init__(params, zeros)` on distinct names. */
  lemma ZeroDict(params: seq<string>)
    requires Distinct(params)
    ensures var d := InsertAll(Empty, params, Zeros(|params|));
      && d.keys == params
      && (forall p :: p in d.table <==> p in params)
      && (forall p :: p in d.table ==> d.table[p] == 0.0)
  {
    var d := InsertAll(Empty, params, Zeros(|params|));
    ConstructFromPairs(params, Zeros(|params|));
    InsertAllWellFormed(Empty, params, Zeros(|params|));
    forall p | p in d.table
      ensures d.table[p] == 0.0
    {
      var i :| 0 <= i < |params| && params[i] == p;
    }
  }

  /** The facts `initialize()` relies on about the dictionary the
      constructor leaves: which names it holds, in which order, and with
      which values. */
  lemma InitialContents(d: ODict, d0: ODict, idx: seq<Index2>, xyNames: seq<string>, xy: map<string, Index2>,
                        zNames: seq<string>, z: map<string, nat>, o0: nat, o1: nat,
                        constval: Option<real>, op: string)
    requires Product2(idx, o1, o0) && Named2(idx, xyNames, xy) && NamedZ(zNames, z, o0)
    requires d0 == InsertAll(Empty, xyNames + zNames, Zeros(|xyNames + zNames|))
    requires d == ConstvalWrites(d0, constval, op)
    ensures (forall p :: p in d.table ==> p in xy || p in z) <==> !(Truthy(constval) && (o0 == 0 || o1 == 0))
    ensures forall p :: p in xy || p in z ==> p in d.table
    ensures !(Truthy(constval) && (o0 == 0 || o1 == 0)) ==> d.keys == xyNames + zNames
    ensures forall p :: p in d.table ==> d.table[p] == Initial2P1D(p, constval, op)
  {
    Names2P1DDistinct(idx, xyNames, zNames);
    ZeroDict(xyNames + zNames);
    assert forall p :: p in d0.table <==> p in xy || p in z;
    XYOrigin(idx, xyNames, xy, o1, o0);
    ZOrigin(zNames, z, o0);
    ConstvalKnown(d0, constval, op, xy, z, o0, o1);
    ConstvalValues(d0, constval, op);
  }

  /** `term_xy(xy_param[p])` and `term_z(z_param[p])` as terms of the name. */
  function Lift2(m: map<string, Index2>, term: (Index2, nat) -> real): Basis
  {
    (p: string, v: nat) => if p in m then term(m[p], v) else 0.0
  }

  function LiftZ(m: map<string, nat>, term: (nat, nat) -> real): Basis
  {
    (p: string, v: nat) => if p in m then term(m[p], v) else 0.0
  }

  /** The joining operations `{'*': mul, '+': add}`. */
  predicate ValidOp(op: string)
  {
    op == "*" || op == "+"
  }

  function Join(op: string, a: real, b: real): real
  {
    if op == "*" then a * b else a + b
  }

  /** `op(field_xy, field_z)`, voxel by voxel. */
  function Combine(op: string, fxy: seq<real>, fz: seq<real>): (f: seq<real>)
    requires |fxy| == |fz|
    ensures |f| == |fxy|
    ensures forall v :: 0 <= v < |f| ==> f[v] == Join(op, fxy[v], fz[v])
  {
    seq(|fxy|, v requires 0 <= v < |fxy| => Join(op, fxy[v], fz[v]))
  }

  /** The `constval` writes of `Polynomial2P1D.__init__`: with operation
      `'*'` the constant goes to `ilm-xy-0-0` and `ilm-z-0` becomes 1;
      with any other operation only `ilm-xy-0-0` is written. */
  function ConstvalWrites(d: ODict, constval: Option<real>, op: string): ODict
  {
    if !Truthy(constval) then d
    else if op == "*" then Insert(Insert(d, IlmXYName(0, 0), constval.value), IlmZName(0), 1.0)
    else Insert(d, IlmXYName(0, 0), constval.value)
  }

  /** After the `constval` writes every key is an xy or z parameter exactly
      when no write had to add a name, which is when `constval` is falsy or
      both `order[0]` and `order[1]` are positive. */
  lemma ConstvalKnown(d: ODict, constval: Option<real>, op: string, xy: map<string, Index2>, z: map<string, nat>,
                      o0: nat, o1: nat)
    requires forall p :: p in d.table <==> p in xy || p in z
    requires (IlmXYName(0, 0) in xy) <==> o1 > 0 && o0 > 0
    requires (IlmZName(0) in z) <==> o0 > 0
    requires IlmXYName(0, 0) !in z && IlmZName(0) !in xy
    ensures (forall p :: p in ConstvalWrites(d, constval, op).table ==> p in xy || p in z)
      <==> !(Truthy(constval) && (o0 == 0 || o1 == 0))
    ensures forall p :: p in xy || p in z ==> p in ConstvalWrites(d, constval, op).table
    ensures !(Truthy(constval) && (o0 == 0 || o1 == 0)) ==> ConstvalWrites(d, constval, op).keys == d.keys
  {
    XYNameIsNotZName(0, 0, 0);
  }

  /** The value `Polynomial2P1D.__init__` leaves in parameter `p`. */
  function Initial2P1D(p: string, constval: Option<real>, op: string): real
  {
    if Truthy(constval) && p == IlmXYName(0, 0) then constval.value
    else if Truthy(constval) && op == "*" && p == IlmZName(0) then 1.0
    else 0.0
  }

  lemma ConstvalValues(d: ODict, constval: Option<real>, op: string)
    requires forall p :: p in d.table ==> d.table[p] == 0.0
    ensures forall p :: p in ConstvalWrites(d, constval, op).table ==>
      ConstvalWrites(d, constval, op).table[p] == Initial2P1D(p, constval, op)
  {
    XYNameIsNotZName(0, 0, 0);
  }

  lemma InsertAllOne(d: ODict, p: string, v: real)
    ensures InsertAll(d, [p], [v]) == Insert(d, p, v)
  {
    assert [p][1..] == [] && [v][1..] == [];
  }

  /** A term that is zero at every voxel leaves the series of one more key unchanged. */
  lemma SnocZero(f: seq<real>, ks: seq<string>, i: nat, vals: map<string, real>, t: Basis, size: nat)
    requires i < |ks| && SumField(f, ks[..i], vals, t, size)
    requires forall v :: 0 <= v < size ==> t(ks[i], v) == 0.0
    ensures SumField(f, ks[..i + 1], vals, t, size)
  {
    forall v | 0 <= v < size
      ensures f[v] == Series(ks[..i + 1], vals, t, v)
    {
      SeriesSnoc(ks, i, vals, t, v);
    }
  }

  class Polynomial2P1D {
    const order: Index3
    const size: nat
    const operation: string
    const termXY: (Index2, nat) -> real
    const termZ: (nat, nat) -> real
    const xyParam: map<string, Index2>
    const zParam: map<string, nat>
    /** `term_xy(xy_param[p])` and `term_z(z_param[p])` for each name `p`. */
    const basisXY: Basis
    const basisZ: Basis
    const group: ParameterGroup
    ghost const xyIndices: seq<Index2>
    ghost const xyNames: seq<string>
    ghost const zNames: seq<string>
    var fieldXY: seq<real>
    var fieldZ: seq<real>
    var field: seq<real>

    /** The two parameter dictionaries are disjoint, and each basis
        vanishes off its own dictionary. */
    ghost predicate Layout()
      reads this
    {
      && (forall p :: p in xyParam ==> p !in zParam)
      && (forall p, v :: p !in xyParam ==> basisXY(p, v) == 0.0)
      && (forall p, v :: p !in zParam ==> basisZ(p, v) == 0.0)
    }

    ghost predicate Valid()
      reads this, group
    {
      && group.Valid()
      && Layout()
      && (forall p :: p in group.table <==> p in xyParam || p in zParam)
      && ValidOp(operation)
      && SumField(fieldXY, group.keys, group.table, basisXY, size)
      && SumField(fieldZ, group.keys, group.table, basisZ, size)
    }

    /** `field = op(field_xy, field_z)`. */
    ghost predicate Combined()
      reads this
    {
      |fieldXY| == size && |fieldZ| == size && field == Combine(operation, fieldXY, fieldZ)
    }

    /** What the constructor leaves in the dictionary: all names of the
        layout, no other name unless a `constval` write had to add one,
        the layout's order when it did not, and the initial values. */
    ghost predicate Initial(constval: Option<real>)
      reads this, group
    {
      && ((forall p :: p in group.table ==> p in xyParam || p in zParam)
            <==> !(Truthy(constval) && (order.0 == 0 || order.1 == 0)))
      && (forall p :: p in xyParam || p in zParam ==> p in group.table)
      && (!(Truthy(constval) && (order.0 == 0 || order.1 == 0)) ==> group.keys == xyNames + zNames)
      && (forall p :: p in group.table ==> group.table[p] == Initial2P1D(p, constval, operation))
    }

    /** The names of both layout loops, with their dictionaries. */
    ghost predicate Named()
      reads this
    {
      Product2(xyIndices, order.1, order.0) && Named2(xyIndices, xyNames, xyParam) && NamedZ(zNames, zParam, order.0)
    }

    /** `Polynomial2P1D.__init__` up to `initialize()`: both layout loops,
        `Component.__init__(params, values)` with zero values, and the
        `constval` writes. */
    constructor (size: nat, order: Index3, operation: string, constval: Option<real>,
                 termXY: (Index2, nat) -> real, termZ: (nat, nat) -> real)
      ensures fresh(group) && group.Valid() && Layout() && Named()
      ensures this.size == size && this.order == order && this.operation == operation
      ensures basisXY == Lift2(xyParam, termXY) && basisZ == LiftZ(zParam, termZ)
      ensures group.Contents()
        == ConstvalWrites(InsertAll(Empty, xyNames + zNames, Zeros(|xyNames + zNames|)), constval, operation)
      ensures Initial(constval)
    {
      this.size, this.order, this.operation, this.termXY, this.termZ := size, order, operation, termXY, termZ;
      var idx, xyN, xy := LayoutXY(order.1, order.0);
      var zN, z := LayoutZ(order.0);
      xyIndices, xyNames, zNames, xyParam, zParam := idx, xyN, zN, xy, z;
      basisXY, basisZ := Lift2(xy, termXY), LiftZ(z, termZ);
      XYOrigin(idx, xyN, xy, order.1, order.0);
      ZOrigin(zN, z, order.0);
      forall p | p in xy
        ensures p !in z
      {
        var n :| 0 <= n < |xyN| && xyN[n] == p;
        assert p == IlmXYName(idx[n].0, idx[n].1);
      }
      var g := InitialGroup(xyN + zN, constval, operation);
      group := g;
      InitialContents(g.Contents(), InsertAll(Empty, xyN + zN, Zeros(|xyN + zN|)), idx, xyN, xy, zN, z,
                      order.0, order.1, constval, operation);
      fieldXY, fieldZ, field := Zeros(size), Zeros(size), Zeros(size);
    }

    /** The parameter group of the constructor, before `initialize()`. */
    static method InitialGroup(params: seq<string>, constval: Option<real>, operation: string)
      returns (g: ParameterGroup)
      ensures fresh(g) && g.Valid()
      ensures g.Contents() == ConstvalWrites(InsertAll(Empty, params, Zeros(|params|)), constval, operation)
    {
      g := new ParameterGroup(Pairs(params, Zeros(|params|)));
      if Truthy(constval) {
        ghost var d := g.Contents();
        g.SetValues([IlmXYName(0, 0)], [constval.value]);
        InsertAllOne(d, IlmXYName(0, 0), constval.value);
        if operation == "*" {
          ghost var d1 := g.Contents();
          g.SetValues([IlmZName(0)], [1.0]);
          InsertAllOne(d1, IlmZName(0), 1.0);
        }
      }
    }

    /** `Polynomial2P1D(shape, order, constval=constval, operation=op)`:
        construction, then `initialize()`, whose `update(self.params,
        self.values)` takes the full path: rewriting the stored values
        changes nothing, and `calc_field` raises `KeyError` on a key that
        is in neither dictionary (a `constval` write to a name the layout
        did not produce) or on an operation other than `'*'` and `'+'`. */
    static method Create(size: nat, order: Index3, constval: Option<real>, operation: string,
                         termXY: (Index2, nat) -> real, termZ: (nat, nat) -> real)
      returns (r: Result<Polynomial2P1D, IlmError>)
      ensures r.Err? <==> !ValidOp(operation) || (Truthy(constval) && (order.0 == 0 || order.1 == 0))
      ensures r.Err? ==> r.error == KeyError
      ensures r.Ok? ==> fresh(r.value) && fresh(r.value.group) && r.value.Valid() && r.value.Combined()
      ensures r.Ok? ==> var o := r.value;
        && o.size == size && o.order == order && o.operation == operation
        && o.basisXY == Lift2(o.xyParam, termXY) && o.basisZ == LiftZ(o.zParam, termZ)
        && o.Named()
        && o.group.keys == o.xyNames + o.zNames
        && (forall p :: p in o.group.table ==> o.group.table[p] == Initial2P1D(p, constval, operation))
    {
      var o := new Polynomial2P1D(size, order, operation, constval, termXY, termZ);
      var ok := o.Initialize(constval);
      r := if ok then Ok(o) else Err(KeyError);
    }

    /** `initialize()` right after construction: `update(self.params,
        self.values)` takes the full path, whose `set_values` rewrites the
        stored values unchanged, so only `calc_field()` has an effect. */
    method Initialize(ghost constval: Option<real>) returns (ok: bool)
      requires group.Valid() && Layout() && Named() && Initial(constval)
      modifies this
      ensures ok == (ValidOp(operation) && !(Truthy(constval) && (order.0 == 0 || order.1 == 0)))
      ensures ok ==> Valid() && Combined() && group.keys == xyNames + zNames
      ensures forall p :: p in group.table ==> group.table[p] == Initial2P1D(p, constval, operation)
    {
      assert (forall p :: p in group.table ==> p in xyParam || p in zParam)
        <==> KnownPrefix(group.keys, xyParam.Keys + zParam.Keys) == |group.keys|;
      ok := CalcField();
      assert group.keys[..|group.keys|] == group.keys;
    }

    /** `calc_field()`: both sub-fields from zero over the stored pairs in
        key order, then `field = op(field_xy, field_z)`. A key in neither
        dictionary raises `KeyError` there, as does an unknown operation
        after the loop; the sub-fields then hold the keys before it. */
    method CalcField() returns (ok: bool)
      requires group.Valid() && Layout()
      modifies this
      ensures var K := KnownPrefix(group.keys, xyParam.Keys + zParam.Keys);
        && SumField(fieldXY, group.keys[..K], group.table, basisXY, size)
        && SumField(fieldZ, group.keys[..K], group.table, basisZ, size)
        && ok == (K == |group.keys| && ValidOp(operation))
        && (ok ==> Combined())
        && (!ok ==> field == old(field))
    {
      var ks := group.Params();
      var vals := group.Values();
      ghost var known := xyParam.Keys + zParam.Keys;
      fieldXY, fieldZ := Zeros(size), Zeros(size);
      assert ks[..0] == [];
      var i := 0;
      while i < |ks|
        invariant Summed(ks, i) && field == old(field)
      {
        var p := ks[i];
        if p !in xyParam && p !in zParam {
          KnownPrefixIs(ks, known, i);
          return false;
        }
        Accumulate(ks, i, vals[i]);
        i := i + 1;
      }
      KnownPrefixIs(ks, known, |ks|);
      assert ks[..|ks|] == ks;
      if !ValidOp(operation) {
        return false;
      }
      field := Combine(operation, fieldXY, fieldZ);
      ok := true;
    }

    /** The sub-fields after the first `i` keys of the `calc_field` loop,
        all of which were in one of the dictionaries. */
    ghost predicate Summed(ks: seq<string>, i: nat)
      reads this, group
    {
      && i <= |ks|
      && (forall j :: 0 <= j < i ==> ks[j] in xyParam.Keys + zParam.Keys)
      && SumField(fieldXY, ks[..i], group.table, basisXY, size)
      && SumField(fieldZ, ks[..i], group.table, basisZ, size)
    }

    /** One round of the `calc_field` loop: `term += v * basis` on the
        sub-field of the `i`-th key. */
    method Accumulate(ks: seq<string>, i: nat, v: real)
      requires Layout() && Summed(ks, i) && i < |ks| && (ks[i] in xyParam || ks[i] in zParam)
      requires Coef(group.table, ks[i]) == v
      modifies this
      ensures field == old(field)
      ensures Summed(ks, i + 1)
    {
      var p := ks[i];
      if p in xyParam {
        SnocTerm(fieldXY, ks, i, group.table, basisXY, size);
        SnocZero(fieldZ, ks, i, group.table, basisZ, size);
        fieldXY := AddTerm(fieldXY, v, basisXY, p);
      } else {
        SnocZero(fieldXY, ks, i, group.table, basisXY, size);
        SnocTerm(fieldZ, ks, i, group.table, basisZ, size);
        fieldZ := AddTerm(fieldZ, v, basisZ, p);
      }
    }

    /** One pair of the incremental path: the sub-field the name belongs
        to loses the old value's term and gains the new one's. */
    method Step(p: string, v1: real)
      requires Valid() && (p in xyParam || p in zParam)
      modifies this, group
      ensures Valid()
      ensures group.keys == old(group.keys) && group.table == old(group.table)[p := v1]
      ensures field == old(field)
    {
      if p in xyParam {
        StepXY(p, v1);
      } else {
        StepZ(p, v1);
      }
    }

    method StepXY(p: string, v1: real)
      requires Valid() && p in xyParam
      modifies this, group
      ensures Valid()
      ensures group.keys == old(group.keys) && group.table == old(group.table)[p := v1]
      ensures field == old(field) && fieldZ == old(fieldZ)
    {
      var v0 := group.table[p];
      ReplaceTerm(fieldXY, group.keys, group.table, basisXY, size, p, v1);
      OtherTerm(fieldZ, group.keys, group.table, basisZ, size, p, v1);
      fieldXY := AddTerm(fieldXY, -v0, basisXY, p);
      group.SetValues([p], [v1]);
      InsertAllOne(old(group.Contents()), p, v1);
      fieldXY := AddTerm(fieldXY, v1, basisXY, p);
    }

    method StepZ(p: string, v1: real)
      requires Valid() && p in zParam
      modifies this, group
      ensures Valid()
      ensures group.keys == old(group.keys) && group.table == old(group.table)[p := v1]
      ensures field == old(field) && fieldXY == old(fieldXY)
    {
      var v0 := group.table[p];
      OtherTerm(fieldXY, group.keys, group.table, basisXY, size, p, v1);
      ReplaceTerm(fieldZ, group.keys, group.table, basisZ, size, p, v1);
      fieldZ := AddTerm(fieldZ, -v0, basisZ, p);
      group.SetValues([p], [v1]);
      InsertAllOne(old(group.Contents()), p, v1);
      fieldZ := AddTerm(fieldZ, v1, basisZ, p);
    }

    /** The loop of the incremental path, up to the first name in neither
        dictionary, which raises `KeyError`. Returns how many were written. */
    method ApplyPairs(ps: seq<string>, vs: seq<real>) returns (n: nat)
      requires Valid()
      modifies this, group
      ensures Valid() && field == old(field)
      ensures n <= MinLen(|ps|, |vs|)
      ensures forall i :: 0 <= i < n ==> ps[i] in old(group.table)
      ensures n < MinLen(|ps|, |vs|) ==> ps[n] !in old(group.table)
      ensures group.Contents() == InsertAll(old(group.Contents()), ps[..n], vs[..n])
    {
      var m := MinLen(|ps|, |vs|);
      ghost var d0 := group.Contents();
      n := 0;
      while n < m
        invariant Written(d0, ps, vs, n) && field == old(field)
      {
        var known := Advance(ps, vs, n, d0);
        if !known {
          break;
        }
        n := n + 1;
      }
      InsertAllKnown(d0, ps[..n], vs[..n]);
    }

    /** The state after the first `n` pairs of that loop were written. */
    ghost predicate Written(d0: ODict, ps: seq<string>, vs: seq<real>, n: nat)
      reads this, group
    {
      && n <= MinLen(|ps|, |vs|)
      && Valid()
      && (forall p :: p in d0.table <==> p in xyParam || p in zParam)
      && (forall i :: 0 <= i < n ==> ps[i] in d0.table)
      && group.keys == d0.keys
      && group.table == InsertAll(d0, ps[..n], vs[..n]).table
    }

    /** One round of that loop: the `n`-th pair is written when its name
        is in one of the dictionaries. */
    method Advance(ps: seq<string>, vs: seq<real>, n: nat, ghost d0: ODict) returns (known: bool)
      requires Written(d0, ps, vs, n) && n < MinLen(|ps|, |vs|)
      modifies this, group
      ensures field == old(field)
      ensures known == (ps[n] in d0.table)
      ensures known ==> Written(d0, ps, vs, n + 1)
      ensures !known ==> Written(d0, ps, vs, n)
    {
      if ps[n] !in xyParam && ps[n] !in zParam {
        return false;
      }
      InsertAllSnoc(d0, ps, vs, n);
      Step(ps[n], vs[n]);
      known := true;
    }

    /** The incremental path: the pairs up to the first unknown name, then
        `field = op(field_xy, field_z)` when there was none. */
    method AdjustTerms(ps: seq<string>, vs: seq<real>) returns (ok: bool)
      requires Valid()
      modifies this, group
      ensures Valid()
      ensures var m := MinLen(|ps|, |vs|);
        var k := KnownPrefix(ps[..m], old(group.table).Keys);
        && ok == (k == m)
        && group.Contents() == InsertAll(old(group.Contents()), ps[..k], vs[..k])
      ensures ok ==> Combined()
      ensures !ok ==> field == old(field)
    {
      var m := MinLen(|ps|, |vs|);
      ghost var known := group.table.Keys;
      var n := ApplyPairs(ps, vs);
      KnownPrefixIs(ps[..m], known, n);
      ok := n == m;
      if ok {
        field := Combine(operation, fieldXY, fieldZ);
      }
    }

    /** `update(params, values)`. Fewer than half the parameters: each
        pair adjusts its sub-field, then `field = op(field_xy, field_z)`.
        Otherwise `set_values(params, values)` and `calc_field()`. A name
        that is not a parameter raises `KeyError`: on the incremental path
        after the pairs before it, on the full path after all values were
        stored and the sub-fields rebuilt over the old keys; `field` keeps
        its old value in both. */
    method Update(ps: seq<string>, vs: seq<real>) returns (ok: bool)
      requires Valid()
      modifies this, group
      ensures var m := MinLen(|ps|, |vs|);
        var k := KnownPrefix(ps[..m], old(group.table).Keys);
        && ok == (k == m)
        && (ok ==> Valid() && Combined() && group.Contents() == InsertAll(old(group.Contents()), ps, vs))
        && (!ok ==> field == old(field))
        && (Incremental(|ps|, |old(group.keys)|) ==>
              Valid() && group.Contents() == InsertAll(old(group.Contents()), ps[..k], vs[..k]))
        && (!Incremental(|ps|, |old(group.keys)|) ==>
              group.Contents() == InsertAll(old(group.Contents()), ps, vs))
        && (!Incremental(|ps|, |old(group.keys)|) && !ok ==>
              && SumField(fieldXY, old(group.keys), group.table, basisXY, size)
              && SumField(fieldZ, old(group.keys), group.table, basisZ, size))
    {
      var m := MinLen(|ps|, |vs|);
      ghost var d0 := group.Contents();
      InsertAllZipped(d0, ps, vs);
      if |ps| < |group.keys| / 2 {
        ok := AdjustTerms(ps, vs);
      } else {
        FullPathKeys(d0, ps, vs);
        InsertAllWellFormed(d0, ps, vs);
        assert xyParam.Keys + zParam.Keys == d0.table.Keys;
        group.SetValues(ps, vs);
        assert group.keys[..|d0.keys|] == d0.keys;
        ok := CalcField();
      }
    }
  }

  // ---------------------------------------------------------------------
  // BarnesStreakLegPoly2P1D: parameter and slicer layout
  // ---------------------------------------------------------------------

  /** `sum(s)`. */
  function SumNat(s: seq<nat>): nat
  {
    if |s| == 0 then 0 else SumNat(s[..|s| - 1]) + s[|s| - 1]
  }

  lemma SumNatSnoc(s: seq<nat>, i: nat)
    requires i < |s|
    ensures SumNat(s[..i + 1]) == SumNat(s[..i]) + s[i]
  {
    assert s[..i + 1][..i] == s[..i];
  }

  /** `np.s_[start:stop]`. */
  datatype Slice = Slice(start: nat, stop: nat)

  /** Slices laid end to end from `lo`, the `j`-th of length `lens[j]`. */
  ghost predicate Consecutive(sl: seq<Slice>, lo: nat, lens: seq<nat>)
  {
    && |sl| == |lens|
    && (forall j :: 0 <= j < |sl| ==> sl[j].stop == sl[j].start + lens[j])
    && (|sl| > 0 ==> sl[0].start == lo)
    && (forall j :: 0 < j < |sl| ==> sl[j].start == sl[j - 1].stop)
  }

  /** The layout of the second `BarnesStreakLegPoly2P1D`: parameters
      `0 .. npoly-1` are the xy and z polynomial coefficients, the rest
      the Barnes points of each streak, selected by `slicers`. */
  datatype BarnesLayout = BarnesLayout(npoly: nat, nparams: nat, slicers: seq<Slice>, params: seq<real>)

  /** `BarnesStreakLegPoly2P1D.__init__(shape, order, npts)` up to
      `_setup()`: with `npoly = order[0]*order[1] + order[-1]` polynomial
      coefficients and `sum(npts)` streak points. The writes
      `params[0] = 1` and `params[order[0]*order[1]] = 1` raise
      `IndexError` when that index is not below `nparams`. */
  method BarnesInit(order: Index3, npts: seq<nat>) returns (r: Result<BarnesLayout, IlmError>)
    ensures r.Err? <==> order.0 * order.1 >= order.0 * order.1 + order.2 + SumNat(npts)
    ensures r.Err? ==> r.error == IndexError
    ensures r.Ok? ==> var b := r.value;
      && b.npoly == order.0 * order.1 + order.2
      && b.nparams == b.npoly + SumNat(npts)
      && Consecutive(b.slicers, b.npoly, npts)
      && (|npts| > 0 ==> b.slicers[|npts| - 1].stop == b.nparams)
      && |b.params| == b.nparams
      && (forall q :: 0 <= q < b.nparams ==> b.params[q] == if q == 0 || q == order.0 * order.1 then 1.0 else 0.0)
  {
    var nxy := order.0 * order.1;
    var npoly := nxy + order.2;
    var nparams := npoly + SumNat(npts);
    var slicers: seq<Slice> := [];
    var i := 0;
    assert npts[..0] == [];
    while i < |npts|
      invariant i <= |npts|
      invariant Consecutive(slicers, npoly, npts[..i])
      invariant i > 0 ==> slicers[i - 1].stop == npoly + SumNat(npts[..i])
    {
      SumNatSnoc(npts, i);
      ConsecutiveSnoc(slicers, npoly, npts, i, npoly + SumNat(npts[..i]));
      slicers := slicers + [Slice(npoly + SumNat(npts[..i]), npoly + SumNat(npts[..i + 1]))];
      i := i + 1;
    }
    assert npts[..|npts|] == npts;
    var params := Zeros(nparams);
    if nparams == 0 {
      return Err(IndexError);
    }
    params := params[0 := 1.0];
    if nxy >= nparams {
      return Err(IndexError);
    }
    params := params[nxy := 1.0];
    r := Ok(BarnesLayout(npoly, nparams, slicers, params));
  }

  /** One more slice, starting where the last one stops. */
  lemma ConsecutiveSnoc(sl: seq<Slice>, lo: nat, lens: seq<nat>, i: nat, start: nat)
    requires i < |lens| && Consecutive(sl, lo, lens[..i])
    requires i == 0 ==> start == lo
    requires i > 0 ==> sl[i - 1].stop == start
    ensures Consecutive(sl + [Slice(start, start + lens[i])], lo, lens[..i + 1])
  {
    var sl' := sl + [Slice(start, start + lens[i])];
    assert forall j :: 0 <= j < i ==> lens[..i + 1][j] == lens[..i][j];
    assert forall j :: 0 <= j < i ==> sl'[j] == sl[j];
  }

  /** The prefix of consecutive slices is consecutive. */
  lemma ConsecutivePrefix(sl: seq<Slice>, lo: nat, lens: seq<nat>, n: nat)
    requires Consecutive(sl, lo, lens) && n <= |sl|
    ensures Consecutive(sl[..n], lo, lens[..n])
  {
  }

  /** Each slice starts at `lo` plus the lengths before it. */
  lemma {:induction false} StartSum(sl: seq<Slice>, lo: nat, lens: seq<nat>, j: nat)
    requires Consecutive(sl, lo, lens) && j <= |sl|
    ensures j < |sl| ==> sl[j].start == lo + SumNat(lens[..j])
    ensures j > 0 ==> sl[j - 1].stop == lo + SumNat(lens[..j])
  {
    if j == 0 {
      assert lens[..0] == [];
    } else {
      StartSum(sl, lo, lens, j - 1);
      SumNatSnoc(lens, j - 1);
    }
  }

  /** Earlier slices end before later ones start. */
  lemma {:induction false} SlicesOrdered(sl: seq<Slice>, lo: nat, lens: seq<nat>, j: nat, k: nat)
    requires Consecutive(sl, lo, lens) && j < k < |sl|
    ensures sl[j].stop <= sl[k].start
    decreases k - j
  {
    if k > j + 1 {
      SlicesOrdered(sl, lo, lens, j, k - 1);
    }
  }

  /** Every streak parameter index lies in some slice. */
  lemma {:induction false} SlicesCover(sl: seq<Slice>, lo: nat, lens: seq<nat>, q: nat)
    requires Consecutive(sl, lo, lens) && lo <= q < lo + SumNat(lens)
    ensures exists j :: 0 <= j < |sl| && sl[j].start <= q < sl[j].stop
    decreases |sl|
  {
    assert |lens| > 0;
    var n := |lens| - 1;
    StartSum(sl, lo, lens, n);
    SumNatSnoc(lens, n);
    assert lens[..n + 1] == lens;
    if q < sl[n].start {
      ConsecutivePrefix(sl, lo, lens, n);
      SlicesCover(sl[..n], lo, lens[..n], q);
      var j :| 0 <= j < n && sl[..n][j].start <= q < sl[..n][j].stop;
      assert sl[j] == sl[..n][j];
    } else {
      assert sl[n].start <= q < sl[n].stop;
    }
  }

  /** The slicers partition the streak parameters `npoly .. nparams-1`:
      each index lies in exactly one slice. */
  lemma SlicesPartition(sl: seq<Slice>, lo: nat, lens: seq<nat>, q: nat)
    requires Consecutive(sl, lo, lens) && lo <= q < lo + SumNat(lens)
    ensures exists j :: 0 <= j < |sl| && sl[j].start <= q < sl[j].stop
    ensures forall j, k :: 0 <= j < k < |sl| && sl[j].start <= q < sl[j].stop ==> !(sl[k].start <= q < sl[k].stop)
  {
    SlicesCover(sl, lo, lens, q);
    forall j, k | 0 <= j < k < |sl| && sl[j].start <= q < sl[j].stop
      ensures !(sl[k].start <= q < sl[k].stop)
    {
      SlicesOrdered(sl, lo, lens, j, k);
    }
  }
}
