/**
  The generic parameter state of `cbamf/states.py` (class `State`): a flat
  parameter vector updated in place through boolean-mask blocks, a LIFO
  stack of `(block, previous values)` pairs for undo, and the
  finite-difference gradient and Hessian that are built only from
  `push_update` / `pop_update`.
*/
module CbamfState {
  import opened Wrappers
  import opened Blocks

  /** The part of the object that push and pop act on. */
  datatype Snapshot = Snapshot(state: seq<real>, stack: seq<(Block, seq<real>)>)

  /** Every stack entry is a block of the vector's length and exactly the data that block reads. */
  predicate StackOk(n: nat, st: seq<(Block, seq<real>)>)
  {
    forall e :: e in st ==> |e.0| == n && |e.1| == Count(e.0)
  }

  predicate SnapshotOk(n: nat, sn: Snapshot)
  {
    |sn.state| == n && StackOk(n, sn.stack)
  }

  /** `push_update(block, data)`: save `state[block]`, then write `data` there. */
  function Push(sn: Snapshot, b: Block, d: seq<real>): (r: Snapshot)
    requires |b| == |sn.state| && |d| == Count(b)
    ensures |r.stack| == |sn.stack| + 1
  {
    Snapshot(Scatter(sn.state, b, d), sn.stack + [(b, Gather(sn.state, b))])
  }

  /** `pop_update()`: restore the top entry; an empty stack is Python's IndexError. */
  function Pop(sn: Snapshot): (r: Option<Snapshot>)
    requires SnapshotOk(|sn.state|, sn)
    ensures r.Some? <==> |sn.stack| > 0
    ensures r.Some? ==> |r.value.stack| == |sn.stack| - 1 && SnapshotOk(|sn.state|, r.value)
  {
    if |sn.stack| == 0 then None
    else
      var top := sn.stack[|sn.stack| - 1];
      assert top in sn.stack;
      Some(Snapshot(Scatter(sn.state, top.0, top.1), sn.stack[..|sn.stack| - 1]))
  }

  /** A push followed by a pop gives back the snapshot exactly. */
  lemma PopPush(sn: Snapshot, b: Block, d: seq<real>)
    requires SnapshotOk(|sn.state|, sn)
    requires |b| == |sn.state| && |d| == Count(b)
    ensures SnapshotOk(|sn.state|, Push(sn, b, d))
    ensures Pop(Push(sn, b, d)) == Some(sn)
  {
    ScatterRestore(sn.state, b, d);
    assert Push(sn, b, d).stack[..|sn.stack|] == sn.stack;
  }

  /** One block write. */
  datatype Write = Write(block: Block, data: seq<real>)

  predicate WritesOk(n: nat, ws: seq<Write>)
  {
    forall k :: 0 <= k < |ws| ==> |ws[k].block| == n && |ws[k].data| == Count(ws[k].block)
  }

  /** Pushing a sequence of writes, first to last. */
  function PushAll(sn: Snapshot, ws: seq<Write>): (r: Snapshot)
    requires WritesOk(|sn.state|, ws)
    ensures |r.state| == |sn.state| && |r.stack| == |sn.stack| + |ws|
    decreases |ws|
  {
    if |ws| == 0 then sn
    else
      var last := ws[|ws| - 1];
      Push(PushAll(sn, ws[..|ws| - 1]), last.block, last.data)
  }

  /** Popping `k` times; None once a pop hits the empty stack. */
  function PopN(sn: Snapshot, k: nat): (r: Option<Snapshot>)
    requires SnapshotOk(|sn.state|, sn)
    ensures r.Some? ==> SnapshotOk(|sn.state|, r.value) && |r.value.state| == |sn.state|
    decreases k
  {
    if k == 0 then Some(sn)
    else
      match Pop(sn)
      case None => None
      case Some(sn1) => PopN(sn1, k - 1)
  }

  lemma {:induction false} PushAllOk(sn: Snapshot, ws: seq<Write>)
    requires SnapshotOk(|sn.state|, sn)
    requires WritesOk(|sn.state|, ws)
    ensures SnapshotOk(|sn.state|, PushAll(sn, ws))
    decreases |ws|
  {
    if |ws| > 0 {
      var init := ws[..|ws| - 1];
      assert WritesOk(|sn.state|, init);
      PushAllOk(sn, init);
      PopPush(PushAll(sn, init), ws[|ws| - 1].block, ws[|ws| - 1].data);
    }
  }

  /** Nested pushes unwind last-in first-out: popping as many times as was
      pushed restores the state vector and the stack. */
  lemma {:induction false} PushAllPopN(sn: Snapshot, ws: seq<Write>)
    requires SnapshotOk(|sn.state|, sn)
    requires WritesOk(|sn.state|, ws)
    ensures SnapshotOk(|sn.state|, PushAll(sn, ws))
    ensures PopN(PushAll(sn, ws), |ws|) == Some(sn)
    decreases |ws|
  {
    PushAllOk(sn, ws);
    if |ws| > 0 {
      var init := ws[..|ws| - 1];
      assert WritesOk(|sn.state|, init);
      PushAllOk(sn, init);
      PopPush(PushAll(sn, init), ws[|ws| - 1].block, ws[|ws| - 1].data);
      PushAllPopN(sn, init);
    }
  }

  /** The central difference `_grad_single_param` computes. */
  function CentralDiff(ll: seq<real> -> real, s: seq<real>, b: Block, dl: real): real
    requires |s| == |b| && dl != 0.0
  {
    (ll(Perturb(s, b, dl)) - ll(Perturb(s, b, -dl))) / (2.0 * dl)
  }

  /** The mixed difference `_hess_two_param` computes: the second push
      perturbs `b1` on top of the `b0` perturbation. */
  function MixedDiff(ll: seq<real> -> real, s: seq<real>, b0: Block, b1: Block, dl: real): real
    requires |s| == |b0| == |b1| && dl != 0.0
  {
    (ll(Perturb(Perturb(s, b0, dl), b1, dl)) - ll(Perturb(s, b0, dl)) - ll(Perturb(s, b1, dl)) + ll(s)) / (dl * dl)
  }

  /** The central difference does not depend on the sign of the step. */
  lemma CentralDiffEven(ll: seq<real> -> real, s: seq<real>, b: Block, dl: real)
    requires |s| == |b| && dl != 0.0
    ensures CentralDiff(ll, s, b, -dl) == CentralDiff(ll, s, b, dl)
  {
    assert - -dl == dl;
  }

  /** The mixed difference is symmetric in its two blocks. */
  lemma MixedDiffSymmetric(ll: seq<real> -> real, s: seq<real>, b0: Block, b1: Block, dl: real)
    requires |s| == |b0| == |b1| && dl != 0.0
    ensures MixedDiff(ll, s, b0, b1, dl) == MixedDiff(ll, s, b1, b0, dl)
  {
    PerturbCommute(s, b0, b1, dl);
  }

  /** On the diagonal the mixed difference is the forward second difference
      with steps `dl` and `2 dl`. */
  lemma MixedDiffDiagonal(ll: seq<real> -> real, s: seq<real>, b: Block, dl: real)
    requires |s| == |b| && dl != 0.0
    ensures MixedDiff(ll, s, b, b, dl) == (ll(Perturb(s, b, 2.0 * dl)) - 2.0 * ll(Perturb(s, b, dl)) + ll(s)) / (dl * dl)
  {
    PerturbTwice(s, b, dl);
  }

  /** The entry the `jtj=False` Hessian stores at `(i, j)`: the mixed
      difference with the lower-indexed block first. */
  function HessEntry(ll: seq<real> -> real, s: seq<real>, bs: seq<Block>, dl: real, i: nat, j: nat): real
    requires i < |bs| && j < |bs| && dl != 0.0
    requires forall k :: 0 <= k < |bs| ==> |bs[k]| == |s|
  {
    if i <= j then MixedDiff(ll, s, bs[i], bs[j], dl)
    else MixedDiff(ll, s, bs[j], bs[i], dl)
  }

  /** The Hessian is symmetric, and (both halves being mixed differences of
      the same pair) each entry is the mixed difference in either order. */
  lemma HessEntrySymmetric(ll: seq<real> -> real, s: seq<real>, bs: seq<Block>, dl: real, i: nat, j: nat)
    requires i < |bs| && j < |bs| && dl != 0.0
    requires forall k :: 0 <= k < |bs| ==> |bs[k]| == |s|
    ensures HessEntry(ll, s, bs, dl, i, j) == HessEntry(ll, s, bs, dl, j, i)
    ensures HessEntry(ll, s, bs, dl, i, j) == MixedDiff(ll, s, bs[i], bs[j], dl)
  {
    MixedDiffSymmetric(ll, s, bs[i], bs[j], dl);
  }

  /** The whole matrix of entries. */
  function HessMatrix(ll: seq<real> -> real, s: seq<real>, bs: seq<Block>, dl: real): (H: seq<seq<real>>)
    requires dl != 0.0
    requires forall k :: 0 <= k < |bs| ==> |bs[k]| == |s|
    ensures |H| == |bs| && forall i :: 0 <= i < |bs| ==> |H[i]| == |bs|
    ensures forall i, j :: 0 <= i < |bs| && 0 <= j < |bs| ==> H[i][j] == HessEntry(ll, s, bs, dl, i, j)
  {
    seq(|bs|, i requires 0 <= i < |bs| => seq(|bs|, j requires 0 <= j < |bs| => HessEntry(ll, s, bs, dl, i, j)))
  }

  /** The blocks `hessloglikelihood` and `gradloglikelihood` use: the given
      ones, or every parameter alone. */
  function ChosenBlocks(n: nat, blocks: Option<seq<Block>>): (bs: seq<Block>)
    requires blocks.Some? ==> forall k :: 0 <= k < |blocks.value| ==> |blocks.value[k]| == n
    ensures forall k :: 0 <= k < |bs| ==> |bs[k]| == n
  {
    if blocks.Some? then blocks.value
    else (ExplodedProps(n, BlockAll(n)); Exploded(n, BlockAll(n)))
  }

  /** With no blocks given, there is one block per parameter and block `k` is parameter `k` alone. */
  lemma ChosenBlocksDefault(n: nat)
    ensures |ChosenBlocks(n, None)| == n
    ensures forall k :: 0 <= k < n ==> ChosenBlocks(n, None)[k] == Singleton(n, k)
  {
    var b := BlockAll(n);
    SetIndicesSpec(b);
    AllIndices(b);
  }

  /** The set indices of an all-true block are `0, 1, ..., n-1`. */
  lemma {:induction false} AllIndices(b: Block)
    requires forall i :: 0 <= i < |b| ==> b[i]
    ensures |SetIndices(b)| == |b|
    ensures forall k :: 0 <= k < |b| ==> SetIndices(b)[k] == k
  {
    if |b| > 0 {
      AllIndices(b[..|b| - 1]);
    }
  }

  /** The `logpriors` term of `loglikelihood`: 0 when none is set. */
  function PriorTerm(logPriors: Option<seq<real> -> real>, s: seq<real>): real
  {
    if logPriors.Some? then logPriors.value(s) else 0.0
  }

  class State {
    const nparams: nat
    /** The subclass's `dologlikelihood`, a function of the parameter vector. */
    const doLogLik: seq<real> -> real
    /** The optional `logpriors` callable given to the constructor. */
    const logPriors: Option<seq<real> -> real>
    /** `loglikelihood(state)`: `dologlikelihood`, plus `logpriors` when
        one is set; the finite differences evaluate it. */
    const logLik: seq<real> -> real
    const state: array<real>
    var stack: seq<(Block, seq<real>)>

    ghost predicate Valid()
      reads this
    {
      state.Length == nparams && StackOk(nparams, stack) &&
      forall s :: logLik(s) == doLogLik(s) + PriorTerm(logPriors, s)
    }

    function Snap(): (sn: Snapshot)
      reads this, state
    {
      Snapshot(state[..], stack)
    }

    /** `__init__`: the given vector, or zeros, and an empty stack. */
    constructor (nparams: nat, init: Option<seq<real>>, doLogLik: seq<real> -> real,
                 logPriors: Option<seq<real> -> real>)
      requires init.Some? ==> |init.value| == nparams
      ensures Valid() && fresh(state)
      ensures this.nparams == nparams && this.doLogLik == doLogLik && this.logPriors == logPriors
      ensures state[..] == (if init.Some? then init.value else seq(nparams, _ => 0.0))
      ensures stack == []
    {
      this.nparams := nparams;
      this.doLogLik := doLogLik;
      this.logPriors := logPriors;
      this.logLik := s => doLogLik(s) + PriorTerm(logPriors, s);
      var a := new real[nparams](_ => 0.0);
      if init.Some? {
        var v := init.value;
        forall i | 0 <= i < nparams {
          a[i] := v[i];
        }
      }
      this.state := a;
      this.stack := [];
    }

    /** `loglikelihood(state)` of the current vector: the model's own
        likelihood, with the prior added exactly when one was given. */
    function LogLikelihood(): (r: real)
      requires Valid()
      reads this, state
      ensures logPriors.None? ==> r == doLogLik(state[..])
      ensures logPriors.Some? ==> r == doLogLik(state[..]) + logPriors.value(state[..])
    {
      logLik(state[..])
    }

    /** `_update_state`: `state[block] = data`, always reporting success. */
    method UpdateState(block: Block, data: seq<real>) returns (ok: bool)
      requires Valid() && |block| == nparams && |data| == Count(block)
      modifies state
      ensures ok
      ensures state[..] == Scatter(old(state[..]), block, data)
    {
      ScatterInto(state, block, data);
      ok := true;
    }

    /** `update`: in the base state, just the write. */
    method Update(block: Block, data: seq<real>) returns (ok: bool)
      requires Valid() && |block| == nparams && |data| == Count(block)
      modifies state
      ensures ok
      ensures state[..] == Scatter(old(state[..]), block, data)
    {
      ok := UpdateState(block, data);
    }

    method PushUpdate(block: Block, data: seq<real>)
      requires Valid() && |block| == nparams && |data| == Count(block)
      modifies this, state
      ensures Valid()
      ensures Snap() == Push(old(Snap()), block, data)
    {
      var curr := Gather(state[..], block);
      stack := stack + [(block, curr)];
      var _ := Update(block, data);
    }

    /** `pop_update`: `ok` is false exactly when the stack is empty, where
        Python's `list.pop` raises and nothing changes. */
    method PopUpdate() returns (ok: bool)
      requires Valid()
      modifies this, state
      ensures Valid()
      ensures ok <==> Pop(old(Snap())).Some?
      ensures ok ==> Snap() == Pop(old(Snap())).value
      ensures !ok ==> Snap() == old(Snap())
    {
      if |stack| == 0 {
        return false;
      }
      var top := stack[|stack| - 1];
      assert top in stack;
      stack := stack[..|stack| - 1];
      var _ := Update(top.0, top.1);
      ok := true;
    }

    /** `_grad_single_param`: the central difference over `block`, leaving
        the vector and the stack as they were. */
    method GradSingleParam(block: Block, dl: real) returns (g: real)
      requires Valid() && |block| == nparams && dl != 0.0
      modifies this, state
      ensures Valid() && Snap() == old(Snap())
      ensures g == CentralDiff(logLik, old(state[..]), block, dl)
    {
      var s0 := Snap();
      var up := Gather(state[..], block);
      PushUpdate(block, Shift(up, dl));
      var loglr := LogLikelihood();
      PopPush(s0, block, Shift(up, dl));
      var _ := PopUpdate();
      var down := Gather(state[..], block);
      PushUpdate(block, Shift(down, -dl));
      var logll := LogLikelihood();
      PopPush(s0, block, Shift(down, -dl));
      var _ := PopUpdate();
      g := (loglr - logll) / (2.0 * dl);
    }

    /** `_hess_two_param`: the mixed difference of `b0` and `b1`, leaving
        the vector and the stack as they were. */
    method HessTwoParam(b0: Block, b1: Block, dl: real) returns (h: real)
      requires Valid() && |b0| == nparams && |b1| == nparams && dl != 0.0
      modifies this, state
      ensures Valid() && Snap() == old(Snap())
      ensures h == MixedDiff(logLik, old(state[..]), b0, b1, dl)
    {
      var s0 := Snap();
      var g0 := Gather(state[..], b0);
      var d0 := Shift(g0, dl);
      PushUpdate(b0, d0);
      var s1 := Snap();
      var g1 := Gather(state[..], b1);
      var d1 := Shift(g1, dl);
      PushUpdate(b1, d1);
      var logl01 := LogLikelihood();
      PopPush(s0, b0, d0);
      PopPush(s1, b1, d1);
      var _ := PopUpdate();
      var _ := PopUpdate();

      var g2 := Gather(state[..], b0);
      var d2 := Shift(g2, dl);
      PushUpdate(b0, d2);
      var logl0 := LogLikelihood();
      PopPush(s0, b0, d2);
      var _ := PopUpdate();

      var g3 := Gather(state[..], b1);
      var d3 := Shift(g3, dl);
      PushUpdate(b1, d3);
      var logl1 := LogLikelihood();
      PopPush(s0, b1, d3);
      var _ := PopUpdate();

      var logl := LogLikelihood();
      h := (logl01 - logl0 - logl1 + logl) / (dl * dl);
    }

    /** `gradloglikelihood`: one central difference per block. */
    method GradLogLikelihood(dl: real, blocks: Option<seq<Block>>) returns (grad: seq<real>)
      requires Valid() && dl != 0.0
      requires blocks.Some? ==> forall k :: 0 <= k < |blocks.value| ==> |blocks.value[k]| == nparams
      modifies this, state
      ensures Valid() && Snap() == old(Snap())
      ensures var bs := ChosenBlocks(nparams, blocks);
        |grad| == |bs| && forall i :: 0 <= i < |bs| ==> grad[i] == CentralDiff(logLik, old(state[..]), bs[i], dl)
    {
      var bs;
      if blocks.None? {
        bs := Explode(nparams, BlockAll(nparams));
      } else {
        bs := blocks.value;
      }
      assert bs == ChosenBlocks(nparams, blocks);
      var s0 := state[..];
      grad := [];
      var i := 0;
      while i < |bs|
        invariant 0 <= i <= |bs|
        invariant Valid() && Snap() == old(Snap())
        invariant |grad| == i
        invariant forall k :: 0 <= k < i ==> grad[k] == CentralDiff(logLik, s0, bs[k], dl)
      {
        var g := GradSingleParam(bs[i], dl);
        grad := grad + [g];
        i := i + 1;
      }
    }

    /** `hessloglikelihood`: the outer product of the gradient when `jtj`,
        else the mixed differences, computed for `j >= i` and mirrored. */
    method HessLogLikelihood(dl: real, jtj: bool, blocks: Option<seq<Block>>) returns (hess: array2<real>)
      requires Valid() && dl != 0.0
      requires blocks.Some? ==> forall k :: 0 <= k < |blocks.value| ==> |blocks.value[k]| == nparams
      modifies this, state
      ensures Valid() && Snap() == old(Snap())
      ensures hess.Length0 == |ChosenBlocks(nparams, blocks)| && hess.Length1 == hess.Length0
      ensures jtj ==> var bs := ChosenBlocks(nparams, blocks);
        forall i, j :: 0 <= i < |bs| && 0 <= j < |bs| ==>
          hess[i, j] == CentralDiff(logLik, old(state[..]), bs[j], dl) * CentralDiff(logLik, old(state[..]), bs[i], dl)
      ensures !jtj ==> var bs := ChosenBlocks(nparams, blocks);
        forall i, j :: 0 <= i < |bs| && 0 <= j < |bs| ==> hess[i, j] == HessEntry(logLik, old(state[..]), bs, dl, i, j)
    {
      if jtj {
        var grad := GradLogLikelihood(dl, blocks);
        hess := new real[|grad|, |grad|];
        forall i, j | 0 <= i < |grad| && 0 <= j < |grad| {
          hess[i, j] := grad[j] * grad[i];
        }
      } else {
        var bs;
        if blocks.None? {
          bs := Explode(nparams, BlockAll(nparams));
        } else {
          bs := blocks.value;
        }
        assert bs == ChosenBlocks(nparams, blocks);
        hess := HessMixed(bs, dl);
      }
    }

    /** The `jtj=False` branch of `hessloglikelihood`: the double loop over
        `j >= i`, writing each mixed difference to both `(i, j)` and `(j, i)`. */
    method HessMixed(bs: seq<Block>, dl: real) returns (hess: array2<real>)
      requires Valid() && dl != 0.0
      requires forall k :: 0 <= k < |bs| ==> |bs[k]| == nparams
      modifies this, state
      ensures Valid() && Snap() == old(Snap())
      ensures hess.Length0 == |bs| && hess.Length1 == |bs|
      ensures forall i, j :: 0 <= i < |bs| && 0 <= j < |bs| ==> hess[i, j] == HessEntry(logLik, old(state[..]), bs, dl, i, j)
    {
      var s0 := state[..];
      var n := |bs|;
      ghost var H := HessMatrix(logLik, s0, bs, dl);
      hess := new real[n, n]((_, _) => 0.0);
      var i := 0;
      while i < n
        invariant 0 <= i <= n
        invariant Valid() && Snap() == old(Snap())
        invariant forall r, c :: 0 <= r < n && 0 <= c < n && (r < i || c < i) ==> hess[r, c] == H[r][c]
      {
        HessRow(hess, bs, i, dl, H);
        i := i + 1;
      }
    }

    /** One pass of the inner loop of `hessloglikelihood`: row and column `i`
        from the diagonal on. */
    method HessRow(hess: array2<real>, bs: seq<Block>, i: nat, dl: real, ghost H: seq<seq<real>>)
      requires Valid() && dl != 0.0
      requires forall k :: 0 <= k < |bs| ==> |bs[k]| == nparams
      requires i < |bs| && hess.Length0 == |bs| && hess.Length1 == |bs|
      requires H == HessMatrix(logLik, state[..], bs, dl)
      requires forall r, c :: 0 <= r < |bs| && 0 <= c < |bs| && (r < i || c < i) ==> hess[r, c] == H[r][c]
      modifies this, state, hess
      ensures Valid() && Snap() == old(Snap())
      ensures forall r, c :: 0 <= r < |bs| && 0 <= c < |bs| && (r <= i || c <= i) ==> hess[r, c] == H[r][c]
    {
      var n := |bs|;
      var s0 := state[..];
      var j := i;
      while j < n
        invariant i <= j <= n
        invariant Valid() && Snap() == old(Snap())
        invariant forall r, c :: 0 <= r < n && 0 <= c < n && (r < i || c < i) ==> hess[r, c] == H[r][c]
        invariant forall c :: i <= c < j ==> hess[i, c] == H[i][c] && hess[c, i] == H[c][i]
      {
        var t := HessTwoParam(bs[i], bs[j], dl);
        HessEntrySymmetric(logLik, s0, bs, dl, i, j);
        assert t == H[i][j] == H[j][i];
        hess[i, j] := t;
        hess[j, i] := t;
        j := j + 1;
      }
    }
  }
}
