/**
  `ParameterGroup`: an ordered dictionary from parameter names to values.
  The dictionary is modelled by its key order `keys` and its table; an
  insertion of a new key appends it, an insertion of an existing key only
  overwrites its value.
*/
module Comp {
  import opened Wrappers

  /** The value of an `OrderedDict` of parameters. */
  datatype ODict = ODict(keys: seq<string>, table: map<string, real>)

  predicate Distinct(s: seq<string>)
  {
    forall i, j :: 0 <= i < j < |s| ==> s[i] != s[j]
  }

  /** The ordered-dictionary invariant: the key order lists each key once. */
  ghost predicate WellFormed(d: ODict)
  {
    Distinct(d.keys) && (forall k :: k in d.table <==> k in d.keys)
  }

  const Empty := ODict([], map[])

  /** `d[p] = v`. */
  function Insert(d: ODict, p: string, v: real): ODict
  {
    if p in d.table then ODict(d.keys, d.table[p := v]) else ODict(d.keys + [p], d.table[p := v])
  }

  /** `for p, v in zip(ps, vs): d[p] = v`; `zip` stops at the shorter list. */
  function InsertAll(d: ODict, ps: seq<string>, vs: seq<real>): ODict
    decreases |ps|
  {
    if |ps| == 0 || |vs| == 0 then d else InsertAll(Insert(d, ps[0], vs[0]), ps[1..], vs[1..])
  }

  function MinLen(a: nat, b: nat): nat { if a <= b then a else b }

  /** Insertion keeps the dictionary well formed, never reorders the keys
      already present, and appends a key only if it was absent. */
  lemma InsertProps(d: ODict, p: string, v: real)
    requires WellFormed(d)
    ensures WellFormed(Insert(d, p, v))
    ensures Insert(d, p, v).table == d.table[p := v]
    ensures Insert(d, p, v).keys == if p in d.table then d.keys else d.keys + [p]
  {
  }

  /** `set_values` keeps the ordered dictionary well formed, and the old key
      order is a prefix of the new one. */
  lemma {:induction false} InsertAllWellFormed(d: ODict, ps: seq<string>, vs: seq<real>)
    requires WellFormed(d)
    ensures WellFormed(InsertAll(d, ps, vs))
    ensures |d.keys| <= |InsertAll(d, ps, vs).keys|
    ensures InsertAll(d, ps, vs).keys[..|d.keys|] == d.keys
    decreases |ps|
  {
    if |ps| > 0 && |vs| > 0 {
      var d1 := Insert(d, ps[0], vs[0]);
      InsertProps(d, ps[0], vs[0]);
      InsertAllWellFormed(d1, ps[1..], vs[1..]);
      assert d1.keys[..|d.keys|] == d.keys;
    }
  }

  /** A key outside the written prefix keeps its presence and its value. */
  lemma {:induction false} InsertAllFrame(d: ODict, ps: seq<string>, vs: seq<real>, k: string)
    requires forall i :: 0 <= i < MinLen(|ps|, |vs|) ==> ps[i] != k
    ensures (k in InsertAll(d, ps, vs).table) == (k in d.table)
    ensures k in d.table ==> InsertAll(d, ps, vs).table[k] == d.table[k]
    decreases |ps|
  {
    if |ps| > 0 && |vs| > 0 {
      InsertAllFrame(Insert(d, ps[0], vs[0]), ps[1..], vs[1..], k);
    }
  }

  /** After writing distinct names, each holds the value zipped with it. */
  lemma {:induction false} InsertAllGet(d: ODict, ps: seq<string>, vs: seq<real>, i: nat)
    requires Distinct(ps)
    requires i < MinLen(|ps|, |vs|)
    ensures ps[i] in InsertAll(d, ps, vs).table
    ensures InsertAll(d, ps, vs).table[ps[i]] == vs[i]
    decreases |ps|
  {
    if i == 0 {
      InsertAllFrame(Insert(d, ps[0], vs[0]), ps[1..], vs[1..], ps[0]);
    } else {
      InsertAllGet(Insert(d, ps[0], vs[0]), ps[1..], vs[1..], i - 1);
    }
  }

  /** Every written name is present afterwards. */
  lemma {:induction false} InsertAllHas(d: ODict, ps: seq<string>, vs: seq<real>, i: nat)
    requires i < MinLen(|ps|, |vs|)
    ensures ps[i] in InsertAll(d, ps, vs).table
    decreases |ps|
  {
    if i == 0 {
      if |ps| > 1 && |vs| > 1 {
        InsertAllKeysGrow(Insert(d, ps[0], vs[0]), ps[1..], vs[1..], ps[0]);
      }
    } else {
      InsertAllHas(Insert(d, ps[0], vs[0]), ps[1..], vs[1..], i - 1);
    }
  }

  /** Writing never removes a key. */
  lemma {:induction false} InsertAllKeysGrow(d: ODict, ps: seq<string>, vs: seq<real>, k: string)
    requires k in d.table
    ensures k in InsertAll(d, ps, vs).table
    decreases |ps|
  {
    if |ps| > 0 && |vs| > 0 {
      InsertAllKeysGrow(Insert(d, ps[0], vs[0]), ps[1..], vs[1..], k);
    }
  }

  /** Into an empty dictionary, distinct names are stored in the order given. */
  lemma {:induction false} InsertAllFreshKeys(d: ODict, ps: seq<string>, vs: seq<real>)
    requires Distinct(d.keys + ps)
    requires forall k :: k in d.table <==> k in d.keys
    ensures InsertAll(d, ps, vs).keys == d.keys + ps[..MinLen(|ps|, |vs|)]
    decreases |ps|
  {
    if |ps| > 0 && |vs| > 0 {
      assert ps[0] == (d.keys + ps)[|d.keys|];
      assert forall j :: 0 <= j < |d.keys| ==> (d.keys + ps)[j] == d.keys[j];
      assert ps[0] !in d.keys;
      var d1 := Insert(d, ps[0], vs[0]);
      assert d1.keys + ps[1..] == d.keys + ps;
      InsertAllFreshKeys(d1, ps[1..], vs[1..]);
      assert ps[..MinLen(|ps|, |vs|)] == [ps[0]] + ps[1..][..MinLen(|ps| - 1, |vs| - 1)];
    }
  }

  /** Writing one more zipped pair after a prefix is one more insertion. */
  lemma {:induction false} InsertAllSnoc(d: ODict, ps: seq<string>, vs: seq<real>, n: nat)
    requires n < MinLen(|ps|, |vs|)
    ensures InsertAll(d, ps[..n + 1], vs[..n + 1]) == Insert(InsertAll(d, ps[..n], vs[..n]), ps[n], vs[n])
    decreases n
  {
    if n == 0 {
      assert ps[..1][1..] == [] && vs[..1][1..] == [];
    } else {
      assert ps[..n + 1][1..] == ps[1..][..n] && vs[..n + 1][1..] == vs[1..][..n];
      assert ps[..n][1..] == ps[1..][..n - 1] && vs[..n][1..] == vs[1..][..n - 1];
      InsertAllSnoc(Insert(d, ps[0], vs[0]), ps[1..], vs[1..], n - 1);
    }
  }

  /** `zip` stops at the shorter list: only the first `MinLen` pairs are written. */
  lemma {:induction false} InsertAllZipped(d: ODict, ps: seq<string>, vs: seq<real>)
    ensures InsertAll(d, ps[..MinLen(|ps|, |vs|)], vs[..MinLen(|ps|, |vs|)]) == InsertAll(d, ps, vs)
    decreases |ps|
  {
    var m := MinLen(|ps|, |vs|);
    if m > 0 {
      assert ps[..m][1..] == ps[1..][..m - 1] && vs[..m][1..] == vs[1..][..m - 1];
      InsertAllZipped(Insert(d, ps[0], vs[0]), ps[1..], vs[1..]);
    }
  }

  /** Writing only names already present adds no key. */
  lemma {:induction false} InsertAllKnown(d: ODict, ps: seq<string>, vs: seq<real>)
    requires forall i :: 0 <= i < MinLen(|ps|, |vs|) ==> ps[i] in d.table
    ensures InsertAll(d, ps, vs).keys == d.keys
    ensures forall q :: q in InsertAll(d, ps, vs).table <==> q in d.table
    decreases |ps|
  {
    if |ps| > 0 && |vs| > 0 {
      InsertAllKnown(Insert(d, ps[0], vs[0]), ps[1..], vs[1..]);
    }
  }

  /** `get_values(params)` on a dictionary value: the values of the names
      in the order asked; a missing name is the `KeyError` case. */
  function Get(d: ODict, ps: seq<string>): (r: Option<seq<real>>)
    ensures r.Some? <==> forall i :: 0 <= i < |ps| ==> ps[i] in d.table
    ensures r.Some? ==> |r.value| == |ps| && forall i :: 0 <= i < |ps| ==> r.value[i] == d.table[ps[i]]
  {
    if forall i :: 0 <= i < |ps| ==> ps[i] in d.table then
      Some(seq(|ps|, i requires 0 <= i < |ps| && ps[i] in d.table => d.table[ps[i]]))
    else None
  }

  /** How a group is constructed: from zipped names and values, from a ready
      ordered dictionary (`params` given without `values`), or empty. */
  datatype GroupInit = Pairs(params: seq<string>, values: seq<real>) | FromDict(dict: ODict) | NoParams

  class ParameterGroup {
    var keys: seq<string>
    var table: map<string, real>

    ghost predicate Valid()
      reads this
    {
      WellFormed(ODict(keys, table))
    }

    function Contents(): ODict
      reads this
    {
      ODict(keys, table)
    }

    constructor (init: GroupInit)
      requires init.FromDict? ==> WellFormed(init.dict)
      ensures Valid()
      ensures init.Pairs? ==> Contents() == InsertAll(Empty, init.params, init.values)
      ensures init.FromDict? ==> Contents() == init.dict
      ensures init.NoParams? ==> Contents() == Empty
    {
      keys, table := [], map[];
      new;
      match init
      case Pairs(ps, vs) =>
        SetValues(ps, vs);
      case FromDict(d) =>
        keys, table := d.keys, d.table;
      case NoParams =>
    }

    /** `set_values(params, values)`. */
    method SetValues(ps: seq<string>, vs: seq<real>)
      requires Valid()
      modifies this
      ensures Valid()
      ensures Contents() == InsertAll(old(Contents()), ps, vs)
    {
      var i := 0;
      var n := MinLen(|ps|, |vs|);
      ghost var d0 := Contents();
      while i < n
        invariant 0 <= i <= n
        invariant Valid()
        invariant InsertAll(Contents(), ps[i..], vs[i..]) == InsertAll(d0, ps, vs)
      {
        InsertProps(Contents(), ps[i], vs[i]);
        assert ps[i..][1..] == ps[i + 1..] && vs[i..][1..] == vs[i + 1..];
        if ps[i] in table {
          table := table[ps[i] := vs[i]];
        } else {
          keys, table := keys + [ps[i]], table[ps[i] := vs[i]];
        }
        i := i + 1;
      }
    }

    /** `update(params, values)` is `set_values`. */
    method Update(ps: seq<string>, vs: seq<real>)
      requires Valid()
      modifies this
      ensures Valid()
      ensures Contents() == InsertAll(old(Contents()), ps, vs)
    {
      SetValues(ps, vs);
    }

    /** `get_values(params)`: the values of the names in the order asked;
        a missing name is the `KeyError` case. */
    function GetValues(ps: seq<string>): (r: Option<seq<real>>)
      reads this
      ensures r.Some? <==> forall i :: 0 <= i < |ps| ==> ps[i] in table
      ensures r.Some? ==> |r.value| == |ps| && forall i :: 0 <= i < |ps| ==> r.value[i] == table[ps[i]]
    {
      Get(Contents(), ps)
    }

    /** `params`: the keys in insertion order, each parameter once. */
    function Params(): (r: seq<string>)
      reads this
      ensures Valid() ==> Distinct(r) && forall k :: k in r <==> k in table
    {
      keys
    }

    /** `values`: the values in key order. */
    function Values(): (vs: seq<real>)
      reads this
      requires Valid()
      ensures |vs| == |keys| && forall i :: 0 <= i < |keys| ==> vs[i] == table[keys[i]]
    {
      seq(|keys|, i requires 0 <= i < |keys| && Valid() reads this => table[keys[i]])
    }
  }

  /** Reading back names just written, all distinct, returns the values written. */
  lemma {:induction false} SetThenGet(d: ODict, ps: seq<string>, vs: seq<real>)
    requires Distinct(ps) && |ps| <= |vs|
    ensures forall i :: 0 <= i < |ps| ==> ps[i] in InsertAll(d, ps, vs).table
    ensures forall i :: 0 <= i < |ps| ==> InsertAll(d, ps, vs).table[ps[i]] == vs[i]
  {
    forall i | 0 <= i < |ps|
      ensures ps[i] in InsertAll(d, ps, vs).table && InsertAll(d, ps, vs).table[ps[i]] == vs[i]
    {
      InsertAllGet(d, ps, vs, i);
    }
  }

  /** Constructing from distinct names yields exactly those keys, in the
      given order, each mapped to its zipped value. */
  lemma {:induction false} ConstructFromPairs(ps: seq<string>, vs: seq<real>)
    requires Distinct(ps) && |ps| == |vs|
    ensures InsertAll(Empty, ps, vs).keys == ps
    ensures forall i :: 0 <= i < |ps| ==>
      ps[i] in InsertAll(Empty, ps, vs).table && InsertAll(Empty, ps, vs).table[ps[i]] == vs[i]
  {
    assert Empty.keys + ps == ps;
    InsertAllFreshKeys(Empty, ps, vs);
    assert ps[..|ps|] == ps;
    SetThenGet(Empty, ps, vs);
  }
}
