/**
  The generic state of `peri/states.py`: a name-keyed `ParameterGroup`
  with a LIFO stack of `(names, previous values)` pairs, the forward
  differences built on that stack, the polynomial-fit state's parameter
  layout, and the confocal image state's model selection and cached
  log-likelihood.

  The functions differentiated (`func(**kwargs)`) only read the parameter
  values, so they are modelled as functions of the parameter table.
*/
module PeriStates {
  import opened Wrappers
  import opened Comp
  import opened Names
  import Voxels

  type Table = map<string, real>

  /** Writing names that are all present keeps the key order and the key set. */
  lemma {:induction false} InsertAllPresent(d: ODict, ps: seq<string>, vs: seq<real>)
    requires forall i :: 0 <= i < |ps| ==> ps[i] in d.table
    ensures InsertAll(d, ps, vs).keys == d.keys
    ensures InsertAll(d, ps, vs).table.Keys == d.table.Keys
    decreases |ps|
  {
    if |ps| > 0 && |vs| > 0 {
      var d1 := Insert(d, ps[0], vs[0]);
      assert d1.table.Keys == d.table.Keys;
      InsertAllPresent(d1, ps[1..], vs[1..]);
    }
  }

  /** Writing back, over a dictionary `e` that differs from `d` at most at
      the names `ps`, the values `d` holds there gives `d` again. */
  lemma {:induction false} RestoreAll(e: ODict, d: ODict, ps: seq<string>, cur: seq<real>)
    requires e.keys == d.keys && e.table.Keys == d.table.Keys
    requires |cur| == |ps|
    requires forall i :: 0 <= i < |ps| ==> ps[i] in d.table && cur[i] == d.table[ps[i]]
    requires forall k :: k in d.table && k !in ps ==> e.table[k] == d.table[k]
    ensures InsertAll(e, ps, cur) == d
    decreases |ps|
  {
    if |ps| == 0 {
      assert e.table == d.table;
    } else {
      var e1 := Insert(e, ps[0], cur[0]);
      assert e1.keys == d.keys && e1.table.Keys == d.table.Keys;
      forall k | k in d.table && k !in ps[1..]
        ensures e1.table[k] == d.table[k]
      {
        if k != ps[0] {
          assert k !in ps;
        }
      }
      RestoreAll(e1, d, ps[1..], cur[1..]);
    }
  }

  /** `push_update(ps, vs)` followed by `pop_update()` writes back the
      values read before the push, which restores the dictionary exactly:
      same keys, same order, same values. */
  lemma PushPopRestores(d: ODict, ps: seq<string>, vs: seq<real>)
    requires Get(d, ps).Some?
    ensures InsertAll(InsertAll(d, ps, vs), ps, Get(d, ps).value) == d
  {
    var e := InsertAll(d, ps, vs);
    InsertAllPresent(d, ps, vs);
    forall k | k in d.table && k !in ps
      ensures e.table[k] == d.table[k]
    {
      InsertAllFrame(d, ps, vs, k);
    }
    RestoreAll(e, d, ps, Get(d, ps).value);
  }

  /** Nested pushes unwind last in, first out: popping the inner push and
      then the outer one gives back the dictionary before both. */
  lemma NestedPushPop(d: ODict, ps1: seq<string>, vs1: seq<real>, ps2: seq<string>, vs2: seq<real>)
    requires Get(d, ps1).Some?
    requires Get(InsertAll(d, ps1, vs1), ps2).Some?
    ensures var d1 := InsertAll(d, ps1, vs1);
            var d2 := InsertAll(d1, ps2, vs2);
            InsertAll(InsertAll(d2, ps2, Get(d1, ps2).value), ps1, Get(d, ps1).value) == d
  {
    PushPopRestores(InsertAll(d, ps1, vs1), ps2, vs2);
    PushPopRestores(d, ps1, vs1);
  }

  /** The forward difference `(f(p + dl) - f0) / dl`. */
  function ForwardDiff(f: Table -> real, t: Table, p: string, dl: real, f0: real): real
    requires p in t && dl != 0.0
  {
    (f(t[p := t[p] + dl]) - f0) / dl
  }

  /** `(f11 - f10 - f01 + f00) / dl**2`. */
  function Quotient(f11: real, f10: real, f01: real, f00: real, dl: real): real
    requires dl != 0.0
  {
    (f11 - f10 - f01 + f00) / (dl * dl)
  }

  /** The four tables `_hess_two_param` evaluates at, as written: after
      stepping `p0`, `p1` is set to the value it had BEFORE that step plus
      `dl`, and then `p0` is set back to its original value. */
  function StepsAsWritten(t: Table, p0: string, p1: string, dl: real): (r: (Table, Table, Table))
    requires p0 in t && p1 in t
  {
    var t10 := t[p0 := t[p0] + dl];
    var t11 := t10[p1 := t[p1] + dl];
    var t01 := t11[p0 := t[p0]];
    (t10, t11, t01)
  }

  /** The quotient `_hess_two_param` returns, as written. */
  function MixedAsWritten(f: Table -> real, t: Table, p0: string, p1: string, dl: real, f00: real): real
    requires p0 in t && p1 in t && dl != 0.0
  {
    var (t10, t11, t01) := StepsAsWritten(t, p0, p1, dl);
    Quotient(f(t11), f(t10), f(t01), f00, dl)
  }

  /** The four tables of the mixed forward difference: each step adds to
      or takes from the value the parameter has at that moment. */
  function Steps(t: Table, p0: string, p1: string, dl: real): (r: (Table, Table, Table))
    requires p0 in t && p1 in t
  {
    var t10 := t[p0 := t[p0] + dl];
    var t11 := t10[p1 := t10[p1] + dl];
    var t01 := t11[p0 := t11[p0] - dl];
    (t10, t11, t01)
  }

  /** The mixed forward difference `(f(x+e0+e1) - f(x+e0) - f(x+e1) + f(x)) / dl²`. */
  function MixedDiff(f: Table -> real, t: Table, p0: string, p1: string, dl: real, f00: real): real
    requires p0 in t && p1 in t && dl != 0.0
  {
    var (t10, t11, t01) := Steps(t, p0, p1, dl);
    Quotient(f(t11), f(t10), f(t01), f00, dl)
  }

  /** As written, the diagonal entry is `(f00 - f(t)) / dl^2` for the
      caller's `f00`: with `p0 == p1` the last step sets the parameter
      back, so `f01 == f(t)` and `f11 == f10`. With `f00` omitted or equal
      to `f(t)`, as `_hess` passes it, the entry is 0. */
  lemma HessDiagonalAsWritten(f: Table -> real, t: Table, p: string, dl: real, f00: real)
    requires p in t && dl != 0.0
    ensures MixedAsWritten(f, t, p, p, dl, f00) == (f00 - f(t)) / (dl * dl)
    ensures f00 == f(t) ==> MixedAsWritten(f, t, p, p, dl, f00) == 0.0
  {
    var (t10, t11, t01) := StepsAsWritten(t, p, p, dl);
    assert t11 == t10;
    assert t01 == t;
    assert f(t11) - f(t10) - f(t01) + f00 == f00 - f(t);
  }

  /** Off the diagonal the code as written computes the mixed difference. */
  lemma MixedAsWrittenOffDiagonal(f: Table -> real, t: Table, p0: string, p1: string, dl: real, f00: real)
    requires p0 in t && p1 in t && dl != 0.0 && p0 != p1
    ensures MixedAsWritten(f, t, p0, p1, dl, f00) == MixedDiff(f, t, p0, p1, dl, f00)
  {
    assert StepsAsWritten(t, p0, p1, dl) == Steps(t, p0, p1, dl);
  }

  /** On the diagonal the mixed difference is the second forward difference
      `(f(x+2dl) - 2 f(x+dl) + f(x)) / dl²`. */
  lemma MixedDiffDiagonal(f: Table -> real, t: Table, p: string, dl: real)
    requires p in t && dl != 0.0
    ensures MixedDiff(f, t, p, p, dl, f(t))
         == (f(t[p := t[p] + 2.0 * dl]) - 2.0 * f(t[p := t[p] + dl]) + f(t)) / (dl * dl)
  {
    var (t10, t11, t01) := Steps(t, p, p, dl);
    assert t11 == t[p := t[p] + 2.0 * dl];
    assert t01 == t10;
  }

  /** The mixed difference does not depend on the order of the two names. */
  lemma MixedDiffSymmetric(f: Table -> real, t: Table, p0: string, p1: string, dl: real, f00: real)
    requires p0 in t && p1 in t && dl != 0.0
    ensures MixedDiff(f, t, p0, p1, dl, f00) == MixedDiff(f, t, p1, p0, dl, f00)
  {
    if p0 != p1 {
      var (a10, a11, a01) := Steps(t, p0, p1, dl);
      var (b10, b11, b01) := Steps(t, p1, p0, dl);
      assert a11 == b11;
      assert a10 == b01;
      assert a01 == b10;
    }
  }

  /** The entry `_hess_two_param` gives: as written, `MixedAsWritten`;
      corrected, `MixedDiff`. */
  function Mixed(asWritten: bool, f: Table -> real, t: Table, p0: string, p1: string, dl: real, f00: real): real
    requires p0 in t && p1 in t && dl != 0.0
  {
    if asWritten then MixedAsWritten(f, t, p0, p1, dl, f00) else MixedDiff(f, t, p0, p1, dl, f00)
  }

  /** Both entries are symmetric in the two names: as written because off
      the diagonal it is the mixed difference. */
  lemma MixedSymmetric(asWritten: bool, f: Table -> real, t: Table, p0: string, p1: string, dl: real, f00: real)
    requires p0 in t && p1 in t && dl != 0.0
    ensures Mixed(asWritten, f, t, p0, p1, dl, f00) == Mixed(asWritten, f, t, p1, p0, dl, f00)
  {
    MixedDiffSymmetric(f, t, p0, p1, dl, f00);
    if p0 != p1 {
      MixedAsWrittenOffDiagonal(f, t, p0, p1, dl, f00);
      MixedAsWrittenOffDiagonal(f, t, p1, p0, dl, f00);
    }
  }

  /** With `rts`, writing back the two original values after the steps
      gives the table before them. */
  lemma WriteBackAsWritten(t: Table, p0: string, p1: string, dl: real)
    requires p0 in t && p1 in t
    ensures StepsAsWritten(t, p0, p1, dl).2[p0 := t[p0]][p1 := t[p1]] == t
  {
  }

  lemma WriteBackSteps(t: Table, p0: string, p1: string, dl: real)
    requires p0 in t && p1 in t
    ensures Steps(t, p0, p1, dl).2[p0 := t[p0]][p1 := t[p1]] == t
  {
  }

  /** The names `_grad` and `_hess` differentiate: `ps`, or every
      parameter (`block_all`) when none are given. */
  function DiffNames(ps: Option<seq<string>>, keys: seq<string>): seq<string>
  {
    if ps.Some? then ps.value else keys
  }

  /** Every name is a parameter (otherwise `get_values` raises `KeyError`). */
  ghost predicate AllIn(qs: seq<string>, t: Table)
  {
    forall i :: 0 <= i < |qs| ==> qs[i] in t
  }

  /** A square matrix of the entries `Mixed` gives for `qs`, as `_hess`
      returns; corrected, the mixed differences. */
  ghost predicate IsHessian(h: seq<seq<real>>, asWritten: bool, f: Table -> real, t: Table, qs: seq<string>, dl: real)
    requires AllIn(qs, t) && dl != 0.0
  {
    && |h| == |qs|
    && (forall a :: 0 <= a < |qs| ==> |h[a]| == |qs|)
    && forall a, b :: 0 <= a < |qs| && 0 <= b < |qs| ==> h[a][b] == Mixed(asWritten, f, t, qs[a], qs[b], dl, f(t))
  }

  /** As written, `_hess` returns 0 wherever the two names are the same (the
      whole diagonal) and the mixed difference everywhere else. */
  lemma AsWrittenHessian(h: seq<seq<real>>, f: Table -> real, t: Table, qs: seq<string>, dl: real)
    requires AllIn(qs, t) && dl != 0.0 && IsHessian(h, true, f, t, qs, dl)
    ensures forall a, b :: 0 <= a < |qs| && 0 <= b < |qs| ==>
      h[a][b] == if qs[a] == qs[b] then 0.0 else MixedDiff(f, t, qs[a], qs[b], dl, f(t))
  {
    forall a, b | 0 <= a < |qs| && 0 <= b < |qs|
      ensures h[a][b] == if qs[a] == qs[b] then 0.0 else MixedDiff(f, t, qs[a], qs[b], dl, f(t))
    {
      if qs[a] == qs[b] {
        HessDiagonalAsWritten(f, t, qs[a], dl, f(t));
      } else {
        MixedAsWrittenOffDiagonal(f, t, qs[a], qs[b], dl, f(t));
      }
    }
  }

  /** The entries `_hess` has filled: rows before `i`, then row `i` up to
      column `j`, each mirrored. */
  predicate Filled(i: nat, j: nat, a: nat, b: nat)
  {
    var lo := if a <= b then a else b;
    var hi := if a <= b then b else a;
    lo < i || (lo == i && hi < j)
  }

  /** The matrix `_hess` fills in: every mixed difference of the names
      (`0.0` where a name is missing, which `_hess` never reaches). */
  ghost function Target(asWritten: bool, f: Table -> real, t: Table, qs: seq<string>, dl: real, f0: real): (h: seq<seq<real>>)
    ensures |h| == |qs| && forall a :: 0 <= a < |qs| ==> |h[a]| == |qs|
  {
    seq(|qs|, a requires 0 <= a < |qs| =>
      seq(|qs|, b requires 0 <= b < |qs| =>
        if qs[a] in t && qs[b] in t && dl != 0.0 then Mixed(asWritten, f, t, qs[a], qs[b], dl, f0) else 0.0))
  }

  /** `m` agrees with the target `h` on the filled entries (see `Filled`). */
  ghost predicate PartHessian(m: seq<seq<real>>, h: seq<seq<real>>, i: nat, j: nat)
  {
    && |m| == |h| && (forall a :: 0 <= a < |h| ==> |m[a]| == |h| && |h[a]| == |h|)
    && forall a, b | 0 <= a < |h| && 0 <= b < |h| && Filled(i, j, a, b) :: m[a][b] == h[a][b]
  }

  ghost predicate Symmetric(m: seq<seq<real>>)
  {
    forall a, b :: 0 <= a < |m| && 0 <= b < |m| && b < |m[a]| && a < |m[b]| ==> m[a][b] == m[b][a]
  }

  /** Before the first row nothing is filled. */
  lemma NothingFilled(m: seq<seq<real>>, h: seq<seq<real>>)
    requires |m| == |h| && (forall a :: 0 <= a < |h| ==> |m[a]| == |h| && |h[a]| == |h|)
    ensures PartHessian(m, h, 0, 0)
  {
  }

  /** Row `i` starts at its diagonal: no entry of it is filled yet. */
  lemma RowStart(m: seq<seq<real>>, h: seq<seq<real>>, i: nat)
    requires PartHessian(m, h, i, 0)
    ensures PartHessian(m, h, i, i)
  {
    assert forall a, b :: Filled(i, i, a, b) ==> Filled(i, 0, a, b);
  }

  /** Storing the entry `(i, j)` and its mirror `(j, i)`, both the `Mixed`
      entry of `qs[i]` and `qs[j]`, extends the filled part by one column. */
  lemma FillPair(m: seq<seq<real>>, asWritten: bool, f: Table -> real, t: Table, qs: seq<string>, dl: real, f0: real,
                 i: nat, j: nat, v: real)
    requires PartHessian(m, Target(asWritten, f, t, qs, dl, f0), i, j) && i <= j < |qs|
    requires qs[i] in t && qs[j] in t && dl != 0.0 && v == Mixed(asWritten, f, t, qs[i], qs[j], dl, f0)
    ensures var m1 := m[i := m[i][j := v]];
            PartHessian(m1[j := m1[j][i := v]], Target(asWritten, f, t, qs, dl, f0), i, j + 1)
  {
    MixedSymmetric(asWritten, f, t, qs[i], qs[j], dl, f0);
  }

  /** A finished row `i` is the start of row `i + 1`. */
  lemma RowDone(m: seq<seq<real>>, h: seq<seq<real>>, i: nat)
    requires PartHessian(m, h, i, |h|) && i < |h|
    ensures PartHessian(m, h, i + 1, 0)
  {
  }

  /** Once every row is done the matrix is the Hessian, and it is symmetric. */
  lemma HessianDone(m: seq<seq<real>>, asWritten: bool, f: Table -> real, t: Table, qs: seq<string>, dl: real)
    requires AllIn(qs, t) && dl != 0.0
    requires PartHessian(m, Target(asWritten, f, t, qs, dl, f(t)), |qs|, 0)
    ensures IsHessian(m, asWritten, f, t, qs, dl) && Symmetric(m)
  {
    forall a, b | 0 <= a < |qs| && 0 <= b < |qs|
      ensures m[a][b] == Mixed(asWritten, f, t, qs[a], qs[b], dl, f(t)) && m[a][b] == m[b][a]
    {
      assert Filled(|qs|, 0, a, b) && Filled(|qs|, 0, b, a);
      MixedSymmetric(asWritten, f, t, qs[a], qs[b], dl, f(t));
    }
  }

  class State {
    const group: ParameterGroup
    var stack: seq<(seq<string>, seq<real>)>

    ghost predicate Valid()
      reads this, group
    {
      group.Valid()
    }

    /** `State(params, values)`: the parameter group and an empty stack. */
    constructor (init: GroupInit)
      requires init.FromDict? ==> WellFormed(init.dict)
      ensures Valid() && fresh(group) && stack == []
      ensures init.Pairs? ==> group.Contents() == InsertAll(Empty, init.params, init.values)
      ensures init.FromDict? ==> group.Contents() == init.dict
      ensures init.NoParams? ==> group.Contents() == Empty
    {
      var g := new ParameterGroup(init);
      group := g;
      stack := [];
    }

    /** `push_update(ps, vs)`: save the current values of `ps`, then write
        `vs`. A missing name raises `KeyError` before anything changes. */
    method PushUpdate(ps: seq<string>, vs: seq<real>) returns (ok: bool)
      requires Valid()
      modifies this, group
      ensures Valid()
      ensures ok == Get(old(group.Contents()), ps).Some?
      ensures ok ==> stack == old(stack) + [(ps, Get(old(group.Contents()), ps).value)]
      ensures ok ==> group.Contents() == InsertAll(old(group.Contents()), ps, vs)
      ensures !ok ==> stack == old(stack) && group.Contents() == old(group.Contents())
    {
      var curr := group.GetValues(ps);
      if curr.None? {
        return false;
      }
      stack := stack + [(ps, curr.value)];
      group.Update(ps, vs);
      ok := true;
    }

    /** `pop_update()`: take the last saved pair off the stack and write it
        back. An empty stack raises `IndexError` and nothing changes. */
    method PopUpdate() returns (ok: bool)
      requires Valid()
      modifies this, group
      ensures Valid()
      ensures ok == (|old(stack)| > 0)
      ensures ok ==> stack == old(stack)[..|old(stack)| - 1]
      ensures ok ==> var top := old(stack)[|old(stack)| - 1];
                     group.Contents() == InsertAll(old(group.Contents()), top.0, top.1)
      ensures !ok ==> stack == old(stack) && group.Contents() == old(group.Contents())
    {
      if |stack| == 0 {
        return false;
      }
      var top := stack[|stack| - 1];
      stack := stack[..|stack| - 1];
      group.Update(top.0, top.1);
      ok := true;
    }

    /** `with temp_update(ps, vs): body`: the body sees the written values
        and returns `None` when it raises. A body that returns leaves the
        values and the stack as before; the context manager has no
        `finally`, so a body that raises leaves the written values and
        the pushed entry in place. */
    method TempUpdate<R>(ps: seq<string>, vs: seq<real>, body: Table -> Option<R>) returns (r: Option<R>)
      requires Valid()
      modifies this, group
      ensures Valid()
      ensures Get(old(group.Contents()), ps).None? ==>
        r == None && group.Contents() == old(group.Contents()) && stack == old(stack)
      ensures Get(old(group.Contents()), ps).Some? ==> r == body(InsertAll(old(group.Contents()), ps, vs).table)
      ensures Get(old(group.Contents()), ps).Some? && r.Some? ==>
        group.Contents() == old(group.Contents()) && stack == old(stack)
      ensures Get(old(group.Contents()), ps).Some? && r.None? ==>
        && group.Contents() == InsertAll(old(group.Contents()), ps, vs)
        && stack == old(stack) + [(ps, Get(old(group.Contents()), ps).value)]
    {
      ghost var d0 := group.Contents();
      var ok := PushUpdate(ps, vs);
      if !ok { return None; }
      r := body(group.table);
      if r.None? { return; }
      ok := PopUpdate();
      PushPopRestores(d0, ps, vs);
    }

    /** `update(p, v)` of one parameter already present. */
    method SetOne(p: string, v: real)
      requires Valid() && p in group.table
      modifies group
      ensures Valid()
      ensures group.keys == old(group.keys) && group.table == old(group.table)[p := v]
    {
      ghost var d := group.Contents();
      group.Update([p], [v]);
      assert [p][1..] == [];
      assert InsertAll(d, [p], [v]) == InsertAll(Insert(d, p, v), [], []);
    }

    /** `_grad_one_param(func, p, dl, f0, rts)`: step `p` by `dl`, evaluate,
        and put `p` back when `rts`; the quotient uses `f0` when given,
        otherwise `func()` before the step. */
    method GradOneParam(f: Table -> real, p: string, dl: real, f0: Option<real>, rts: bool) returns (g: Option<real>)
      requires Valid() && dl != 0.0
      modifies group
      ensures Valid() && group.keys == old(group.keys)
      ensures g.Some? <==> p in old(group.table)
      ensures g.Some? ==> var t := old(group.table);
        && g.value == ForwardDiff(f, t, p, dl, if f0.Some? then f0.value else f(t))
        && group.table == if rts then t else t[p := t[p] + dl]
      ensures g.None? ==> group.table == old(group.table)
    {
      if p !in group.table {
        return None;
      }
      ghost var t := group.table;
      var v := group.table[p];
      var base := if f0.Some? then f0.value else f(group.table);
      SetOne(p, v + dl);
      var f1 := f(group.table);
      if rts {
        SetOne(p, v);
        assert group.table == t;
      }
      g := Some((f1 - base) / dl);
    }

    /** The three stepped evaluations of `_hess_two_param` as written. */
    method ProbeAsWritten(f: Table -> real, p0: string, p1: string, dl: real) returns (f10: real, f11: real, f01: real)
      requires Valid() && p0 in group.table && p1 in group.table
      modifies group
      ensures Valid() && group.keys == old(group.keys)
      ensures var s := StepsAsWritten(old(group.table), p0, p1, dl);
        f10 == f(s.0) && f11 == f(s.1) && f01 == f(s.2) && group.table == s.2
    {
      ghost var s := StepsAsWritten(group.table, p0, p1, dl);
      var v0 := group.table[p0];
      var v1 := group.table[p1];
      SetOne(p0, v0 + dl);
      assert group.table == s.0;
      f10 := f(group.table);
      SetOne(p1, v1 + dl);
      assert group.table == s.1;
      f11 := f(group.table);
      SetOne(p0, v0);
      assert group.table == s.2;
      f01 := f(group.table);
    }

    /** The three stepped evaluations of the mixed forward difference. */
    method Probe(f: Table -> real, p0: string, p1: string, dl: real) returns (f10: real, f11: real, f01: real)
      requires Valid() && p0 in group.table && p1 in group.table
      modifies group
      ensures Valid() && group.keys == old(group.keys)
      ensures var s := Steps(old(group.table), p0, p1, dl);
        f10 == f(s.0) && f11 == f(s.1) && f01 == f(s.2) && group.table == s.2
    {
      ghost var s := Steps(group.table, p0, p1, dl);
      SetOne(p0, group.table[p0] + dl);
      assert group.table == s.0;
      f10 := f(group.table);
      SetOne(p1, group.table[p1] + dl);
      assert group.table == s.1;
      f11 := f(group.table);
      SetOne(p0, group.table[p0] - dl);
      assert group.table == s.2;
      f01 := f(group.table);
    }

    /** `_hess_two_param` exactly as written (see `StepsAsWritten`). */
    method HessTwoParamAsWritten(f: Table -> real, p0: string, p1: string, dl: real, f0: Option<real>, rts: bool)
      returns (h: Option<real>)
      requires Valid() && dl != 0.0
      modifies group
      ensures Valid() && group.keys == old(group.keys)
      ensures h.Some? <==> p0 in old(group.table) && p1 in old(group.table)
      ensures h.Some? ==> var t := old(group.table);
        && h.value == MixedAsWritten(f, t, p0, p1, dl, if f0.Some? then f0.value else f(t))
        && group.table == if rts then t else StepsAsWritten(t, p0, p1, dl).2
      ensures h.None? ==> group.table == old(group.table)
    {
      if p0 !in group.table || p1 !in group.table {
        return None;
      }
      ghost var t := group.table;
      var v0 := group.table[p0];
      var v1 := group.table[p1];
      var f00 := if f0.Some? then f0.value else f(group.table);
      var f10, f11, f01 := ProbeAsWritten(f, p0, p1, dl);
      if rts {
        SetOne(p0, v0);
        SetOne(p1, v1);
        WriteBackAsWritten(t, p0, p1, dl);
      }
      h := Some(Quotient(f11, f10, f01, f00, dl));
    }

    /** `_hess_two_param` as evidently intended: each step moves the
        parameter from its current value, so the four tables are those of
        the mixed forward difference (`Steps`), and with `rts` both names
        are written back. */
    method HessTwoParam(f: Table -> real, p0: string, p1: string, dl: real, f0: Option<real>, rts: bool)
      returns (h: Option<real>)
      requires Valid() && dl != 0.0
      modifies group
      ensures Valid() && group.keys == old(group.keys)
      ensures h.Some? <==> p0 in old(group.table) && p1 in old(group.table)
      ensures h.Some? ==> var t := old(group.table);
        && h.value == MixedDiff(f, t, p0, p1, dl, if f0.Some? then f0.value else f(t))
        && group.table == if rts then t else Steps(t, p0, p1, dl).2
      ensures h.None? ==> group.table == old(group.table)
    {
      if p0 !in group.table || p1 !in group.table {
        return None;
      }
      ghost var t := group.table;
      var v0 := group.table[p0];
      var v1 := group.table[p1];
      var f00 := if f0.Some? then f0.value else f(group.table);
      var f10, f11, f01 := Probe(f, p0, p1, dl);
      if rts {
        SetOne(p0, v0);
        SetOne(p1, v1);
        WriteBackSteps(t, p0, p1, dl);
      }
      h := Some(Quotient(f11, f10, f01, f00, dl));
    }

    /** `_grad(func, ps, dl)`: one forward difference per name, all against
        the same `f0 = func()`, each with the parameter put back. */
    method Grad(f: Table -> real, ps: Option<seq<string>>, dl: real) returns (grad: Option<seq<real>>)
      requires Valid() && dl != 0.0
      modifies group
      ensures Valid() && group.Contents() == old(group.Contents())
      ensures var t := old(group.table); var qs := DiffNames(ps, old(group.keys));
        && (grad.Some? <==> AllIn(qs, t))
        && (grad.Some? ==>
              |grad.value| == |qs| && forall i :: 0 <= i < |qs| ==> grad.value[i] == ForwardDiff(f, t, qs[i], dl, f(t)))
    {
      var qs := DiffNames(ps, group.Params());
      var f0 := f(group.table);
      var acc: seq<real> := [];
      var i := 0;
      while i < |qs|
        invariant 0 <= i <= |qs|
        invariant Valid() && group.Contents() == old(group.Contents())
        invariant forall k :: 0 <= k < i ==> qs[k] in group.table
        invariant |acc| == i
        invariant forall k :: 0 <= k < i ==> acc[k] == ForwardDiff(f, group.table, qs[k], dl, f0)
      {
        var g := GradOneParam(f, qs[i], dl, Some(f0), true);
        if g.None? {
          return None;
        }
        acc := acc + [g.value];
        i := i + 1;
      }
      grad := Some(acc);
    }

    /** One step of `_hess`: `hess[i][J] = hess[J][i] = _hess_two_param(ps[i], ps[J])`,
        with `_hess_two_param` as written or corrected. */
    method HessEntry(asWritten: bool, f: Table -> real, qs: seq<string>, i: nat, j: nat, dl: real, f0: real, m: seq<seq<real>>)
      returns (r: Option<seq<seq<real>>>)
      requires Valid() && i <= j < |qs| && dl != 0.0
      requires PartHessian(m, Target(asWritten, f, group.table, qs, dl, f0), i, j)
      modifies group
      ensures Valid() && group.keys == old(group.keys) && group.table == old(group.table)
      ensures r.Some? <==> qs[i] in group.table && qs[j] in group.table
      ensures r.Some? ==> PartHessian(r.value, Target(asWritten, f, group.table, qs, dl, f0), i, j + 1)
    {
      var th;
      if asWritten {
        th := HessTwoParamAsWritten(f, qs[i], qs[j], dl, Some(f0), true);
      } else {
        th := HessTwoParam(f, qs[i], qs[j], dl, Some(f0), true);
      }
      if th.None? {
        return None;
      }
      FillPair(m, asWritten, f, group.table, qs, dl, f0, i, j, th.value);
      var m1 := m[i := m[i][j := th.value]];
      r := Some(m1[j := m1[j][i := th.value]]);
    }

    /** One row of `_hess`: the entries `(i, J)` for `J >= i`. */
    method HessRow(asWritten: bool, f: Table -> real, qs: seq<string>, i: nat, dl: real, f0: real, ghost h: seq<seq<real>>,
                   m0: seq<seq<real>>)
      returns (r: Option<seq<seq<real>>>)
      requires Valid() && dl != 0.0 && i < |qs|
      requires h == Target(asWritten, f, group.table, qs, dl, f0) && PartHessian(m0, h, i, 0)
      modifies group
      ensures Valid() && group.keys == old(group.keys) && group.table == old(group.table)
      ensures r.Some? <==> forall k :: i <= k < |qs| ==> qs[k] in group.table
      ensures r.Some? ==> PartHessian(r.value, h, i + 1, 0)
    {
      var m := m0;
      var j := i;
      RowStart(m, h, i);
      while j < |qs|
        invariant i <= j <= |qs|
        invariant Valid() && group.keys == old(group.keys) && group.table == old(group.table)
        invariant forall k :: i <= k < j ==> qs[k] in group.table
        invariant PartHessian(m, h, i, j)
      {
        var next := HessEntry(asWritten, f, qs, i, j, dl, f0, m);
        if next.None? {
          return None;
        }
        m := next.value;
        j := j + 1;
      }
      RowDone(m, h, i);
      r := Some(m);
    }

    /** `_hess(func, ps, dl)`: the symmetric matrix of `_hess_two_param`
        entries of `ps` (every parameter when none are given), computing only
        the entries with `J >= i`. Corrected, these are the mixed
        differences; as written, see `AsWrittenHessian`. */
    method Hess(asWritten: bool, f: Table -> real, ps: Option<seq<string>>, dl: real) returns (hess: Option<seq<seq<real>>>)
      requires Valid() && dl != 0.0
      modifies group
      ensures Valid() && group.Contents() == old(group.Contents())
      ensures var t := old(group.table); var qs := DiffNames(ps, old(group.keys));
        && (hess.Some? <==> AllIn(qs, t))
        && (hess.Some? ==> IsHessian(hess.value, asWritten, f, t, qs, dl) && Symmetric(hess.value))
    {
      var qs := DiffNames(ps, group.Params());
      var n := |qs|;
      var f0 := f(group.table);
      ghost var h := Target(asWritten, f, group.table, qs, dl, f0);
      var m: seq<seq<real>> := seq(n, _ => seq(n, _ => 0.0));
      NothingFilled(m, h);
      var i := 0;
      while i < n
        invariant 0 <= i <= n
        invariant Valid() && group.keys == old(group.keys) && group.table == old(group.table)
        invariant forall k :: 0 <= k < i ==> qs[k] in group.table
        invariant PartHessian(m, h, i, 0)
      {
        var row := HessRow(asWritten, f, qs, i, dl, f0, h, m);
        if row.None? {
          return None;
        }
        m := row.value;
        i := i + 1;
      }
      HessianDone(m, asWritten, f, group.table, qs, dl);
      hess := Some(m);
    }
  }

  // --- PolyFitState -------------------------------------------------------

  /** Construction failures: an unexpected keyword argument (`TypeError`). */
  datatype InitError = UnexpectedKeyword(name: string)

  /** `ParameterGroup.__init__(params, values)` takes no keyword arguments:
      any extra keyword is a `TypeError`. */
  function GroupFromPairs(ps: seq<string>, vs: seq<real>, kwargs: seq<string>): (r: Result<ODict, InitError>)
    ensures |kwargs| > 0 <==> r.Err?
    ensures r.Err? ==> r.error == UnexpectedKeyword(kwargs[0])
    ensures r.Ok? ==> r.value == InsertAll(Empty, ps, vs)
  {
    if |kwargs| > 0 then Err(UnexpectedKeyword(kwargs[0])) else Ok(InsertAll(Empty, ps, vs))
  }

  /** The names `c-0 … c-(order-1)` followed by `sigma`. */
  function PolyParams(order: nat): (ps: seq<string>)
    ensures |ps| == order + 1 && ps[order] == "sigma"
    ensures forall i :: 0 <= i < order ==> ps[i] == CoeffName(i)
  {
    seq(order, i requires 0 <= i => CoeffName(i)) + ["sigma"]
  }

  /** The given coefficients (zeros when none), followed by `1.0` for sigma. */
  function PolyValues(order: nat, coeffs: Option<seq<real>>): (vs: seq<real>)
    ensures coeffs.None? ==> |vs| == order + 1
    ensures coeffs.Some? ==> |vs| == |coeffs.value| + 1
    ensures vs[|vs| - 1] == 1.0
  {
    (if coeffs.Some? then coeffs.value else seq(order, _ => 0.0)) + [1.0]
  }

  /** `PolyFitState.__init__` as written: it passes `ordered=False` through
      to `ParameterGroup.__init__`, so construction always fails. */
  function PolyFitInitAsWritten(order: nat, coeffs: Option<seq<real>>, sigma: real): (r: Result<ODict, InitError>)
    ensures r == Err(UnexpectedKeyword("ordered"))
  {
    GroupFromPairs(PolyParams(order), PolyValues(order, coeffs), ["ordered"])
  }

  /** `PolyFitState.__init__` without the stray keyword. */
  function PolyFitInit(order: nat, coeffs: Option<seq<real>>, sigma: real): (r: Result<ODict, InitError>)
    ensures r.Ok?
  {
    GroupFromPairs(PolyParams(order), PolyValues(order, coeffs), [])
  }

  lemma PolyParamsDistinct(order: nat)
    ensures Distinct(PolyParams(order))
  {
    var ps := PolyParams(order);
    forall i, j | 0 <= i < j < |ps|
      ensures ps[i] != ps[j]
    {
      if j == order {
        CoeffNameIsNotSigma(i);
      } else {
        if CoeffName(i) == CoeffName(j) {
          CoeffNameInjective(i, j);
        }
      }
    }
  }

  /** The corrected construction has the keys `c-0 … c-(order-1), sigma`
      in that order; `c-i` holds the given coefficient (0.0 by default)
      and `sigma` holds 1.0 whatever the `sigma` argument. */
  lemma PolyFitLayout(order: nat, coeffs: Option<seq<real>>, sigma: real)
    requires coeffs.Some? ==> |coeffs.value| == order
    ensures PolyFitInit(order, coeffs, sigma).Ok?
    ensures var d := PolyFitInit(order, coeffs, sigma).value;
      && d.keys == PolyParams(order)
      && "sigma" in d.table && d.table["sigma"] == 1.0
      && forall i :: 0 <= i < order ==>
           CoeffName(i) in d.table && d.table[CoeffName(i)] == if coeffs.Some? then coeffs.value[i] else 0.0
  {
    var ps, vs := PolyParams(order), PolyValues(order, coeffs);
    PolyParamsDistinct(order);
    ConstructFromPairs(ps, vs);
    assert ps[order] == "sigma";
  }

  /** Nothing checks that `coeffs` holds `order` values, and the names and
      values are zipped: with more coefficients than `order`, `sigma`
      receives coefficient `order`; with fewer, the 1.0 meant for `sigma`
      goes to a coefficient name and `sigma` is missing. */
  lemma PolyFitMismatched(order: nat, cs: seq<real>, sigma: real)
    ensures PolyFitInit(order, Some(cs), sigma).Ok?
    ensures var d := PolyFitInit(order, Some(cs), sigma).value;
      && (|cs| > order ==> "sigma" in d.table && d.table["sigma"] == cs[order])
      && (|cs| < order ==> "sigma" !in d.table && CoeffName(|cs|) in d.table && d.table[CoeffName(|cs|)] == 1.0)
  {
    var ps, vs := PolyParams(order), PolyValues(order, Some(cs));
    PolyParamsDistinct(order);
    if |cs| > order {
      InsertAllGet(Empty, ps, vs, order);
    } else if |cs| < order {
      InsertAllGet(Empty, ps, vs, |cs|);
      forall i | 0 <= i < MinLen(|ps|, |vs|)
        ensures ps[i] != "sigma"
      {
        CoeffNameIsNotSigma(i);
      }
      InsertAllFrame(Empty, ps, vs, "sigma");
    }
  }

  // --- ConfocalImageState -------------------------------------------------

  /** The errors `set_model` can raise. */
  datatype ModelError = AttributeError | NameError(name: string) | IndexError | TypeError

  /** The built-in model 0: `H(I*(1-P)+C*P) + B`. */
  const Catmap0: map<string, string> := map["B" := "bkg", "I" := "ilm", "H" := "psf", "P" := "platonic", "C" := "offset"]
  const Modelstr0: map<string, string> :=
    map["full" := "H(I*(1-P)+C*P) + B", "dI" := "H(dI*(1-P))", "dP" := "H((C-I)*dP)", "dB" := "dB"]
  /** The built-in model 1: `H(P)`. */
  const Catmap1: map<string, string> := map["P" := "platonic", "H" := "psf"]
  const Modelstr1: map<string, string> := map["full" := "H(P)", "dP" := "H(dP)"]

  function BuiltinCatmap(k: nat): map<string, string>
    requires k < 2
  {
    if k == 0 then Catmap0 else Catmap1
  }

  function BuiltinModelstr(k: nat): map<string, string>
    requires k < 2
  {
    if k == 0 then Modelstr0 else Modelstr1
  }

  /** `mapcat` inverts `catmap`: its keys are `catmap`'s values, and each
      maps back to a key holding it. */
  ghost predicate Inverts(mapcat: map<string, string>, catmap: map<string, string>)
  {
    && (forall v :: v in mapcat <==> v in catmap.Values)
    && (forall v :: v in mapcat ==> mapcat[v] in catmap && catmap[mapcat[v]] == v)
  }

  ghost predicate Injective(m: map<string, string>)
  {
    forall a, b :: a in m && b in m && m[a] == m[b] ==> a == b
  }

  /** When no two categories share a component name, `mapcat` undoes
      `catmap` key by key. */
  lemma InverseRoundTrip(catmap: map<string, string>, mapcat: map<string, string>)
    requires Injective(catmap) && Inverts(mapcat, catmap)
    ensures forall k :: k in catmap ==> catmap[k] in mapcat && mapcat[catmap[k]] == k
  {
    forall k | k in catmap
      ensures catmap[k] in mapcat && mapcat[catmap[k]] == k
    {
      assert catmap[k] in catmap.Values;
    }
  }

  /** Both built-in category maps name each component once. */
  lemma BuiltinsInjective()
    ensures Injective(Catmap0) && Injective(Catmap1)
  {
  }

  /** `{v: k for k, v in catmap.iteritems()}`. */
  method InvertMap(catmap: map<string, string>) returns (mapcat: map<string, string>)
    ensures Inverts(mapcat, catmap)
  {
    mapcat := map[];
    var rest := catmap.Keys;
    ghost var done: set<string> := {};
    while rest != {}
      invariant rest <= catmap.Keys && done == catmap.Keys - rest
      invariant forall v :: v in mapcat <==> exists k :: k in done && catmap[k] == v
      invariant forall v :: v in mapcat ==> mapcat[v] in catmap && catmap[mapcat[v]] == v
      decreases rest
    {
      var k :| k in rest;
      mapcat := mapcat[catmap[k] := k];
      rest := rest - {k};
      done := done + {k};
    }
  }

  /** The pointwise `((model - data) / sigma)**2`. */
  function SquaredResiduals(model: seq<real>, data: seq<real>, sigma: real): (s: seq<real>)
    requires |model| == |data| && sigma != 0.0
    ensures |s| == |data|
  {
    seq(|data|, v requires 0 <= v < |data| => ((model[v] - data[v]) / sigma) * ((model[v] - data[v]) / sigma))
  }

  /** `_calc_loglikelihood(model, tile)`: the Gaussian log-likelihood of
      `model` against `data` over the voxels of the tile. */
  function TileLL(model: seq<real>, data: seq<real>, tile: seq<bool>, sigma: real, norm: real): real
    requires |model| == |data| && |tile| == |data| && sigma != 0.0
  {
    -0.5 * Voxels.SumWhere(SquaredResiduals(model, data, sigma), tile) - norm * (Voxels.Count(tile) as real)
  }

  /** `_calc_loglikelihood()` from the stored residuals, without the
      normalisation term. */
  function ResidualLL(res: seq<real>, sigma: real): real
    requires sigma != 0.0
  {
    -0.5 * Voxels.Sum(seq(|res|, v requires 0 <= v < |res| => (res[v] / sigma) * (res[v] / sigma)))
  }

  /** `residuals[tile] = newmodel - data[tile]`, the rest kept. */
  function WriteResiduals(res: seq<real>, model: seq<real>, data: seq<real>, tile: seq<bool>): (r: seq<real>)
    requires |res| == |data| && |model| == |data| && |tile| == |data|
    ensures |r| == |data|
  {
    seq(|data|, v requires 0 <= v < |data| => if tile[v] then model[v] - data[v] else res[v])
  }

  /** The change `update_from_model_change` makes to the log-likelihood is
      the change of the residual sum it keeps: when the residuals on the
      tile were those of `oldmodel`, rewriting them from `newmodel` moves
      the residual log-likelihood by `ll(new) - ll(old)` on the tile. */
  lemma {:induction false} ModelChangeMatchesResiduals(res: seq<real>, oldmodel: seq<real>, newmodel: seq<real>,
                                                       data: seq<real>, tile: seq<bool>, sigma: real, norm: real)
    requires |res| == |data| && |oldmodel| == |data| && |newmodel| == |data| && |tile| == |data| && sigma != 0.0
    requires forall v :: 0 <= v < |data| && tile[v] ==> res[v] == oldmodel[v] - data[v]
    ensures ResidualLL(WriteResiduals(res, newmodel, data, tile), sigma) - ResidualLL(res, sigma)
         == TileLL(newmodel, data, tile, sigma, norm) - TileLL(oldmodel, data, tile, sigma, norm)
  {
    var res1 := WriteResiduals(res, newmodel, data, tile);
    var g0 := seq(|res|, v requires 0 <= v < |res| => (res[v] / sigma) * (res[v] / sigma));
    var g1 := seq(|res1|, v requires 0 <= v < |res1| => (res1[v] / sigma) * (res1[v] / sigma));
    Voxels.SumReplace(g0, g1, tile);
    Voxels.SumWhereAgree(g0, SquaredResiduals(oldmodel, data, sigma), tile);
    Voxels.SumWhereAgree(g1, SquaredResiduals(newmodel, data, sigma), tile);
  }

  class ConfocalImageState {
    var catmap: map<string, string>
    var modelstr: map<string, string>
    var mapcat: map<string, string>
    /** The comparison image. */
    const data: seq<real>
    const sigma: real
    /** `log(sqrt(2*pi) * sigma)`. */
    const norm: real
    const residuals: array<real>
    var loglik: real
    var logprior: real

    ghost predicate Valid()
      reads this
    {
      residuals.Length == |data| && sigma != 0.0
    }

    /** The cached likelihood is the residual log-likelihood of the stored
        residuals: `set_image` starts both at zero, and each model change
        whose old model matches the stored residuals keeps them in step. */
    ghost predicate Tracks()
      requires Valid()
      reads this, residuals
    {
      loglik == ResidualLL(residuals[..], sigma)
    }

    /** `set_image(image)`: zero residuals and both cached terms. */
    constructor (image: seq<real>, sigma: real, norm: real)
      requires sigma != 0.0
      ensures Valid() && fresh(residuals)
      ensures data == image && this.sigma == sigma && this.norm == norm
      ensures residuals[..] == seq(|image|, _ => 0.0) && loglik == 0.0 && logprior == 0.0
      ensures catmap == map[] && modelstr == map[] && mapcat == map[]
      ensures Tracks()
    {
      data, this.sigma, this.norm := image, sigma, norm;
      residuals := new real[|image|](_ => 0.0);
      loglik, logprior := 0.0, 0.0;
      catmap, modelstr, mapcat := map[], map[], map[];
      new;
      var res := residuals[..];
      var g := seq(|res|, v requires 0 <= v < |res| => (res[v] / sigma) * (res[v] / sigma));
      Voxels.SumWhereFull(g, Voxels.FullMask(|g|));
      Voxels.SumWhereConst(g, Voxels.FullMask(|g|), 0.0);
    }

    /** `loglikelihood()`: the cached prior plus the cached likelihood. */
    function LogLikelihood(): (r: real)
      requires Valid()
      reads this, residuals
      ensures Tracks() ==> r == logprior + ResidualLL(residuals[..], sigma)
    {
      logprior + loglik
    }

    /** `set_model` as written: with neither `catmap` nor `modelstr` given
        it reads the undefined name `methodnum`. */
    method SetModelAsWritten(modelnum: Option<int>, cm: Option<map<string, string>>, ms: Option<map<string, string>>)
      returns (r: Result<(), ModelError>)
      modifies this
      ensures cm.Some? && ms.Some? ==> r.Ok? && catmap == cm.value && modelstr == ms.value && Inverts(mapcat, catmap)
      ensures cm.Some? != ms.Some? ==> r == Err(AttributeError)
      ensures cm.None? && ms.None? ==> r == Err(NameError("methodnum"))
      ensures r.Err? ==> catmap == old(catmap) && modelstr == old(modelstr) && mapcat == old(mapcat)
      ensures loglik == old(loglik) && logprior == old(logprior)
    {
      if cm.Some? && ms.Some? {
        catmap, modelstr := cm.value, ms.value;
      } else if cm.Some? || ms.Some? {
        return Err(AttributeError);
      } else {
        return Err(NameError("methodnum"));
      }
      mapcat := InvertMap(catmap);
      r := Ok(());
    }

    /** `set_model` reading `modelnum`: the built-in model at that index of
        the two-element lists, negative indices counting from the end. */
    method SetModel(modelnum: Option<int>, cm: Option<map<string, string>>, ms: Option<map<string, string>>)
      returns (r: Result<(), ModelError>)
      modifies this
      ensures cm.Some? && ms.Some? ==> r.Ok? && catmap == cm.value && modelstr == ms.value
      ensures cm.Some? != ms.Some? ==> r == Err(AttributeError)
      ensures cm.None? && ms.None? ==>
        match modelnum
        case None => r == Err(TypeError)
        case Some(k) =>
          if -2 <= k < 2 then r.Ok? && catmap == BuiltinCatmap(k % 2) && modelstr == BuiltinModelstr(k % 2)
          else r == Err(IndexError)
      ensures r.Ok? ==> Inverts(mapcat, catmap)
      ensures r.Err? ==> catmap == old(catmap) && modelstr == old(modelstr) && mapcat == old(mapcat)
      ensures loglik == old(loglik) && logprior == old(logprior)
    {
      if cm.Some? && ms.Some? {
        catmap, modelstr := cm.value, ms.value;
      } else if cm.Some? || ms.Some? {
        return Err(AttributeError);
      } else if modelnum.None? {
        return Err(TypeError);
      } else if -2 <= modelnum.value < 2 {
        catmap, modelstr := BuiltinCatmap(modelnum.value % 2), BuiltinModelstr(modelnum.value % 2);
      } else {
        return Err(IndexError);
      }
      mapcat := InvertMap(catmap);
      r := Ok(());
    }

    /** `update_from_model_change(oldmodel, newmodel, tile)`: move the
        cached log-likelihood by `ll(new) - ll(old)` on the tile and
        rewrite the residuals there. The models are read on the voxels of
        the boolean tile mask. */
    method UpdateFromModelChange(oldmodel: seq<real>, newmodel: seq<real>, tile: seq<bool>)
      requires Valid() && |oldmodel| == |data| && |newmodel| == |data| && |tile| == |data|
      modifies this, residuals
      ensures Valid()
      ensures loglik == old(loglik) - TileLL(oldmodel, data, tile, sigma, norm) + TileLL(newmodel, data, tile, sigma, norm)
      ensures LogLikelihood() == old(LogLikelihood()) + TileLL(newmodel, data, tile, sigma, norm)
                                                     - TileLL(oldmodel, data, tile, sigma, norm)
      ensures residuals[..] == WriteResiduals(old(residuals[..]), newmodel, data, tile)
      ensures logprior == old(logprior) && catmap == old(catmap) && modelstr == old(modelstr) && mapcat == old(mapcat)
      ensures old(Tracks()) && (forall v :: 0 <= v < |tile| && tile[v] ==> old(residuals[v]) == oldmodel[v] - data[v])
              ==> Tracks()
    {
      loglik := loglik - TileLL(oldmodel, data, tile, sigma, norm);
      loglik := loglik + TileLL(newmodel, data, tile, sigma, norm);
      ghost var r0 := residuals[..];
      forall v | 0 <= v < residuals.Length && tile[v] {
        residuals[v] := newmodel[v] - data[v];
      }
      assert residuals[..] == WriteResiduals(r0, newmodel, data, tile);
      if forall v :: 0 <= v < |tile| && tile[v] ==> r0[v] == oldmodel[v] - data[v] {
        ModelChangeMatchesResiduals(r0, oldmodel, newmodel, data, tile, sigma, norm);
      }
    }
  }
}
