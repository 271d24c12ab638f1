/** TwoLayerMlp of episodes/ai/02_how_ai_learns/benchmark.cc: the loops that fill the buffers, and what they fill in. */
module MlpBackprop {
  import opened Mlp

  // ---------------------------------------------------------------- what BackwardReverseMode leaves in the gradients

  /** Element `c` of row `r` of a matrix with rows of `m`. */
  function Entry(g: seq<real>, m: nat, r: nat, c: nat): real { Elem(g, r * m + c) }

  /** Row `o` of grad_w2 is the gradient. */
  ghost predicate W2Row(n: Net, x: seq<real>, target: seq<real>, g: seq<real>, o: nat)
    requires n.outDim > 0
  {
    forall h :: 0 <= h < n.hidDim ==> Entry(g, n.hidDim, o, h) == GradW2(n, x, target, o, h)
  }

  /** Row `h` of grad_w1 is the gradient for an active unit; for an inactive one it is what it was. */
  ghost predicate W1Row(n: Net, x: seq<real>, target: seq<real>, was: seq<real>, g: seq<real>, h: nat)
    requires n.outDim > 0
  {
    forall i :: 0 <= i < n.inDim ==>
      Entry(g, n.inDim, h, i) == if Active(n, x, h) then GradW1(n, x, target, h, i) else Entry(was, n.inDim, h, i)
  }

  ghost predicate RowIsGradient(n: Net, x: seq<real>, target: seq<real>, g: seq<real>, h: nat)
    requires n.outDim > 0
  {
    forall i :: 0 <= i < n.inDim ==> Entry(g, n.inDim, h, i) == GradW1(n, x, target, h, i)
  }

  ghost predicate RowIsZero(n: Net, g: seq<real>, h: nat) {
    forall i :: 0 <= i < n.inDim ==> Entry(g, n.inDim, h, i) == 0.0
  }

  /** grad_w1 is the gradient after a backward pass exactly when the rows of the inactive units were zero before it.
      A fresh network starts with zeros; a network that has seen another input may not. */
  lemma GradientIff(n: Net, x: seq<real>, target: seq<real>, was: seq<real>, g: seq<real>)
    requires n.outDim > 0 && forall h :: 0 <= h < n.hidDim ==> W1Row(n, x, target, was, g, h)
    ensures (forall h :: 0 <= h < n.hidDim ==> RowIsGradient(n, x, target, g, h))
            <==> (forall h :: 0 <= h < n.hidDim && !Active(n, x, h) ==> RowIsZero(n, was, h))
  {
    forall h | 0 <= h < n.hidDim
      ensures RowIsGradient(n, x, target, g, h) <==> (!Active(n, x, h) ==> RowIsZero(n, was, h))
    {
      assert W1Row(n, x, target, was, g, h);
      if !Active(n, x, h) && RowIsGradient(n, x, target, g, h) {
        forall i | 0 <= i < n.inDim ensures Entry(was, n.inDim, h, i) == 0.0 {
          assert Entry(g, n.inDim, h, i) == GradW1(n, x, target, h, i);
        }
      }
    }
  }

  const ONE: Net := Net(1, 1, 1, [1.0], [1.0])

  lemma OneUnit(v: real)
    ensures Pre(ONE, [v], 0) == v
    ensures v > 0.0 ==> Delta(ONE, [v], [0.0]) == [v]
  {
    assert Dot([1.0], 0, [v], 1) == Dot([1.0], 0, [v], 0) + Times(1.0, v);
    if v > 0.0 {
      assert Hidden(ONE, [v]) == [v];
      assert Predicted(ONE, [v]) == [v];
      assert Times(v - 0.0, InvOut(ONE)) == v;
    }
  }

  /** Two passes over a one-unit network with weights 1: the first leaves 1 in grad_w1, the second, whose unit is
      inactive, keeps it, but the gradient is 0. */
  lemma StaleRow(g: seq<real>, g': seq<real>)
    requires W1Row(ONE, [1.0], [0.0], [0.0], g, 0) && W1Row(ONE, [-1.0], [0.0], g, g', 0)
    ensures Entry(g', 1, 0, 0) == 1.0 && GradW1(ONE, [-1.0], [0.0], 0, 0) == 0.0
  {
    OneUnit(1.0);
    OneUnit(-1.0);
    assert Upstream(ONE, [1.0], 0, 1) == Upstream(ONE, [1.0], 0, 0) + Times(1.0, 1.0);
    assert Entry(g, 1, 0, 0) == GradW1(ONE, [1.0], [0.0], 0, 0) == Times(1.0, 1.0);
    assert Entry(g', 1, 0, 0) == Entry(g, 1, 0, 0);
  }

  // ---------------------------------------------------------------- the loops

  /** The inner loop of every sum. */
  method Sum(w: array<real>, off: nat, x: seq<real>, n: nat) returns (sum: real)
    requires off + n <= w.Length && n <= |x|
    ensures sum == Dot(w[..], off, x, n)
  {
    sum := 0.0;
    for i := 0 to n
      invariant sum == Dot(w[..], off, x, i)
    {
      sum := sum + w[off + i] * x[i];
    }
  }

  class TwoLayerMlp {
    const inDim: nat
    const hidDim: nat
    const outDim: nat
    const w1: array<real>
    const w2: array<real>
    const gradW1: array<real>
    const gradW2: array<real>

    ghost predicate Valid() {
      && w1.Length == gradW1.Length == hidDim * inDim && w2.Length == gradW2.Length == outDim * hidDim
      && gradW1 !in {w1, w2, gradW2} && gradW2 !in {w1, w2}
    }

    ghost function View(): Net
      reads w1, w2
    {
      Net(inDim, hidDim, outDim, w1[..], w2[..])
    }

    constructor (inDim: nat, hidDim: nat, outDim: nat, init1: nat -> real, init2: nat -> real)
      ensures Valid() && this.inDim == inDim && this.hidDim == hidDim && this.outDim == outDim
      ensures fresh(w1) && fresh(w2) && fresh(gradW1) && fresh(gradW2)
      ensures forall h :: 0 <= h < hidDim ==> RowIsZero(View(), gradW1[..], h)
    {
      this.inDim, this.hidDim, this.outDim := inDim, hidDim, outDim;
      w1 := new real[hidDim * inDim](k requires 0 <= k => init1(k));
      w2 := new real[outDim * hidDim](k requires 0 <= k => init2(k));
      gradW1 := new real[hidDim * inDim](_ => 0.0);
      gradW2 := new real[outDim * hidDim](_ => 0.0);
    }

    method ForwardHidden(x: seq<real>, hidden: array<real>)
      requires Valid() && |x| == inDim && hidden.Length == hidDim && hidden !in {w1, w2}
      modifies hidden
      ensures hidden[..] == Hidden(View(), x)
    {
      ghost var n := View();
      for h := 0 to hidDim
        invariant n == View() && forall u :: 0 <= u < h ==> hidden[u] == Relu(Pre(n, x, u))
      {
        RowFits(h, hidDim, inDim);
        var sum := Sum(w1, h * inDim, x, inDim);
        hidden[h] := if sum > 0.0 then sum else 0.0;
      }
    }

    method Forward(x: seq<real>, target: seq<real>, hidden: array<real>, pred: array<real>) returns (loss: real)
      requires Valid() && Shaped(View(), x, target)
      requires hidden.Length == hidDim && pred.Length == outDim
      requires hidden !in {w1, w2, pred} && pred !in {w1, w2}
      modifies hidden, pred
      ensures hidden[..] == Hidden(View(), x) && pred[..] == Predicted(View(), hidden[..])
      ensures loss == Loss(View(), x, target) && loss >= 0.0 && (loss == 0.0 <==> pred[..] == target)
    {
      LossMeasures(View(), x, target);
      ForwardHidden(x, hidden);
      var sum := ForwardOutputs(target, hidden, pred);
      loss := sum / outDim as real;
    }

    method ForwardOutputs(target: seq<real>, hidden: array<real>, pred: array<real>) returns (loss: real)
      requires Valid() && |target| == outDim && hidden.Length == hidDim && pred.Length == outDim
      requires pred !in {w1, w2, hidden}
      modifies pred
      ensures pred[..] == Predicted(View(), hidden[..])
      ensures loss == Errors(Predicted(View(), hidden[..]), target, outDim)
    {
      ghost var n, hid := View(), hidden[..];
      ghost var want := Predicted(n, hid);
      loss := 0.0;
      for o := 0 to outDim
        invariant n == View() && hidden[..] == hid
        invariant forall q :: 0 <= q < o ==> pred[q] == want[q]
        invariant loss == Errors(want, target, o)
      {
        RowFits(o, outDim, hidDim);
        var sum := Sum(w2, o * hidDim, hidden[..], hidDim);
        pred[o] := sum;
        var diff := sum - target[o];
        assert diff == Elem(want, o) - Elem(target, o);
        loss := loss + 0.5 * diff * diff;
      }
    }

    /** One row of the first backward loop. */
    method OutputRow(o: nat, delta: real, hidden: array<real>)
      requires Valid() && o < outDim && hidden.Length == hidDim && hidden != gradW2
      modifies gradW2
      ensures forall h :: 0 <= h < hidDim ==> Entry(gradW2[..], hidDim, o, h) == Times(delta, hidden[h])
      ensures forall k :: 0 <= k < gradW2.Length && !(o * hidDim <= k < o * hidDim + hidDim) ==>
              gradW2[k] == old(gradW2[k])
    {
      RowFits(o, outDim, hidDim);
      var row := o * hidDim;
      for h := 0 to hidDim
        invariant forall u :: 0 <= u < h ==> gradW2[row + u] == Times(delta, hidden[u])
        invariant forall k :: 0 <= k < gradW2.Length && !(row <= k < row + h) ==> gradW2[k] == old(gradW2[k])
      {
        gradW2[row + h] := delta * hidden[h];
      }
    }

    /** One row of the second backward loop, for an active unit. */
    method HiddenRow(h: nat, upstream: real, x: seq<real>)
      requires Valid() && h < hidDim && |x| == inDim
      modifies gradW1
      ensures forall i :: 0 <= i < inDim ==> Entry(gradW1[..], inDim, h, i) == Times(upstream, x[i])
      ensures forall k :: 0 <= k < gradW1.Length && !(h * inDim <= k < h * inDim + inDim) ==>
              gradW1[k] == old(gradW1[k])
    {
      RowFits(h, hidDim, inDim);
      var row := h * inDim;
      for i := 0 to inDim
        invariant forall u :: 0 <= u < i ==> gradW1[row + u] == Times(upstream, x[u])
        invariant forall k :: 0 <= k < gradW1.Length && !(row <= k < row + i) ==> gradW1[k] == old(gradW1[k])
      {
        gradW1[row + i] := upstream * x[i];
      }
    }

    /** The sum over the outputs that flows back into unit h. */
    method SumColumn(h: nat, delta: array<real>) returns (upstream: real)
      requires Valid() && h < hidDim && delta.Length == outDim
      ensures upstream == Upstream(View(), delta[..], h, outDim)
    {
      upstream := 0.0;
      for o := 0 to outDim
        invariant upstream == Upstream(View(), delta[..], h, o)
      {
        RowFits(o, outDim, hidDim);
        upstream := upstream + w2[o * hidDim + h] * delta[o];
      }
    }

    method BackwardOutputs(x: seq<real>, target: seq<real>, hidden: array<real>, pred: array<real>,
        deltaOut: array<real>)
      requires Valid() && Shaped(View(), x, target)
      requires hidden.Length == hidDim && pred.Length == deltaOut.Length == outDim
      requires hidden[..] == Hidden(View(), x) && pred[..] == Predicted(View(), hidden[..])
      requires deltaOut !in {w1, w2, gradW2, hidden, pred} && hidden != gradW2 && pred != gradW2
      modifies gradW2, deltaOut
      ensures deltaOut[..] == Delta(View(), x, target)
      ensures forall o :: 0 <= o < outDim ==> W2Row(View(), x, target, gradW2[..], o)
    {
      ghost var n := View();
      var invOut := 1.0 / outDim as real;
      for o := 0 to outDim
        invariant n == View() && hidden[..] == Hidden(n, x) && pred[..] == Predicted(n, hidden[..])
        invariant forall q :: 0 <= q < o ==> deltaOut[q] == Delta(n, x, target)[q]
        invariant forall q :: 0 <= q < o ==> W2Row(n, x, target, gradW2[..], q)
      {
        deltaOut[o] := (pred[o] - target[o]) * invOut;
        assert deltaOut[o] == Elem(Delta(n, x, target), o);
        ghost var before := gradW2[..];
        OutputRow(o, deltaOut[o], hidden);
        W2RowsKept(n, x, target, before, gradW2[..], o);
      }
    }

    method BackwardHidden(x: seq<real>, target: seq<real>, hidden: array<real>, deltaOut: array<real>,
        deltaHid: array<real>)
      requires Valid() && Shaped(View(), x, target)
      requires hidden.Length == deltaHid.Length == hidDim && deltaOut.Length == outDim
      requires hidden[..] == Hidden(View(), x) && deltaOut[..] == Delta(View(), x, target)
      requires deltaHid !in {w1, w2, gradW1, gradW2, hidden, deltaOut} && gradW1 !in {hidden, deltaOut}
      modifies gradW1, deltaHid
      ensures forall h :: 0 <= h < hidDim ==> W1Row(View(), x, target, old(gradW1[..]), gradW1[..], h)
      ensures forall h :: 0 <= h < hidDim ==>
        deltaHid[h] == if Active(View(), x, h) then Upstream(View(), deltaOut[..], h, outDim) else 0.0
    {
      ghost var n, was := View(), gradW1[..];
      for h := 0 to hidDim
        invariant n == View() && hidden[..] == Hidden(n, x) && deltaOut[..] == Delta(n, x, target)
        invariant forall u :: 0 <= u < h ==> W1Row(n, x, target, was, gradW1[..], u)
        invariant forall k :: h * inDim <= k < gradW1.Length ==> gradW1[k] == was[k]
        invariant forall u :: 0 <= u < h ==>
          deltaHid[u] == if Active(n, x, u) then Upstream(n, deltaOut[..], u, outDim) else 0.0
      {
        ghost var before := gradW1[..];
        BackwardUnit(h, x, target, hidden, deltaOut, deltaHid);
        RowFits(h, hidDim, inDim);
        W1RowsKept(n, x, target, was, before, gradW1[..], h);
      }
    }

    /** One round of the second backward loop. */
    method BackwardUnit(h: nat, x: seq<real>, target: seq<real>, hidden: array<real>, deltaOut: array<real>,
        deltaHid: array<real>)
      requires Valid() && Shaped(View(), x, target) && h < hidDim
      requires hidden.Length == deltaHid.Length == hidDim && deltaOut.Length == outDim
      requires hidden[..] == Hidden(View(), x) && deltaOut[..] == Delta(View(), x, target)
      requires deltaHid !in {w1, w2, gradW1, gradW2, hidden, deltaOut} && gradW1 !in {hidden, deltaOut}
      modifies gradW1, deltaHid
      ensures deltaHid[h] == if Active(View(), x, h) then Upstream(View(), deltaOut[..], h, outDim) else 0.0
      ensures forall u :: 0 <= u < hidDim && u != h ==> deltaHid[u] == old(deltaHid[u])
      ensures W1Row(View(), x, target, old(gradW1[..]), gradW1[..], h)
      ensures forall k :: 0 <= k < gradW1.Length && !(h * inDim <= k < h * inDim + inDim) ==>
              gradW1[k] == old(gradW1[k])
    {
      assert hidden[h] == Relu(Pre(View(), x, h));
      if hidden[h] <= 0.0 {
        deltaHid[h] := 0.0;
      } else {
        var upstream := SumColumn(h, deltaOut);
        deltaHid[h] := upstream;
        HiddenRow(h, upstream, x);
      }
    }

    method BackwardReverseMode(x: seq<real>, target: seq<real>, hidden: array<real>, pred: array<real>,
                               deltaOut: array<real>, deltaHid: array<real>)
      requires Valid() && Shaped(View(), x, target)
      requires hidden.Length == deltaHid.Length == hidDim && pred.Length == deltaOut.Length == outDim
      requires hidden !in {w1, w2, gradW1, gradW2, pred, deltaOut, deltaHid}
               && pred !in {w1, w2, gradW1, gradW2, deltaOut, deltaHid}
      requires deltaOut !in {w1, w2, gradW1, gradW2, deltaHid} && deltaHid !in {w1, w2, gradW1, gradW2}
      modifies hidden, pred, deltaOut, deltaHid, gradW1, gradW2
      ensures View() == old(View())
      ensures forall o :: 0 <= o < outDim ==> W2Row(View(), x, target, gradW2[..], o)
      ensures forall h :: 0 <= h < hidDim ==> W1Row(View(), x, target, old(gradW1[..]), gradW1[..], h)
      ensures hidden[..] == Hidden(View(), x) && pred[..] == Predicted(View(), hidden[..])
      ensures deltaOut[..] == Delta(View(), x, target)
    {
      var _ := Forward(x, target, hidden, pred);
      BackwardOutputs(x, target, hidden, pred, deltaOut);
      BackwardHidden(x, target, hidden, deltaOut, deltaHid);
    }
  }

  lemma W2RowsKept(n: Net, x: seq<real>, target: seq<real>, before: seq<real>, g: seq<real>, o: nat)
    requires n.outDim > 0 && |g| == |before|
    requires forall q :: 0 <= q < o ==> W2Row(n, x, target, before, q)
    requires forall k :: 0 <= k < |g| && !(o * n.hidDim <= k < o * n.hidDim + n.hidDim) ==> g[k] == before[k]
    ensures forall q :: 0 <= q < o ==> W2Row(n, x, target, g, q)
  {
    forall q | 0 <= q < o ensures W2Row(n, x, target, g, q) {
      assert W2Row(n, x, target, before, q);
      RowsApart(q, o, n.hidDim);
      RowFits(q, o, n.hidDim);
    }
  }

  lemma W1RowsKept(n: Net, x: seq<real>, target: seq<real>, was: seq<real>, before: seq<real>, g: seq<real>, h: nat)
    requires n.outDim > 0 && |g| == |before| == |was| && h * n.inDim + n.inDim <= |g|
    requires forall u :: 0 <= u < h ==> W1Row(n, x, target, was, before, u)
    requires W1Row(n, x, target, before, g, h)
    requires forall k :: h * n.inDim <= k < |g| ==> before[k] == was[k]
    requires forall k :: 0 <= k < |g| && !(h * n.inDim <= k < h * n.inDim + n.inDim) ==> g[k] == before[k]
    ensures forall u :: 0 <= u < h + 1 ==> W1Row(n, x, target, was, g, u)
    ensures forall k :: (h + 1) * n.inDim <= k < |g| ==> g[k] == was[k]
  {
    forall u | 0 <= u < h ensures W1Row(n, x, target, was, g, u) {
      assert W1Row(n, x, target, was, before, u);
      RowFits(u, h, n.inDim);
    }
    forall i | 0 <= i < n.inDim ensures Entry(before, n.inDim, h, i) == Entry(was, n.inDim, h, i) { }
    assert (h + 1) * n.inDim == h * n.inDim + n.inDim;
  }
}
