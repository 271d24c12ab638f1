/**
 The two-layer network of episodes/ai/02_how_ai_learns/benchmark.cc over the reals: what Forward computes, what
 BackwardReverseMode computes, and why the second is the gradient of the first.
 */
module Mlp {
  // Weights are row-major: row h of w1 starts at h * inDim, row o of w2 at o * hidDim.
  datatype Net = Net(inDim: nat, hidDim: nat, outDim: nat, w1: seq<real>, w2: seq<real>)

  predicate Shaped(n: Net, x: seq<real>, target: seq<real>) {
    && |n.w1| == n.hidDim * n.inDim && |n.w2| == n.outDim * n.hidDim && n.outDim > 0
    && |x| == n.inDim && |target| == n.outDim
  }

  /** Row `r` of an n-row matrix lies inside it, apart from the other rows. */
  lemma RowFits(r: nat, n: nat, m: nat)
    requires r < n
    ensures 0 <= r * m <= r * m + m <= n * m
  {
    assert (n - r - 1) * m >= 0;
    assert n * m == r * m + m + (n - r - 1) * m;
  }

  lemma RowsApart(r: nat, q: nat, m: nat)
    requires r != q
    ensures r * m + m <= q * m || q * m + m <= r * m
  {
    if r < q { RowFits(r, q, m); } else { RowFits(q, r, m); }
  }

  function Elem(w: seq<real>, k: int): real { if 0 <= k < |w| then w[k] else 0.0 }

  // Products have names, so that the solver sees equal factors give equal products.
  function Times(a: real, b: real): real { a * b }

  function HalfSquare(e: real): real { 0.5 * e * e }

  function Dot(w: seq<real>, off: nat, x: seq<real>, n: nat): real {
    if n == 0 then 0.0 else Dot(w, off, x, n - 1) + Times(Elem(w, off + n - 1), Elem(x, n - 1))
  }

  function Relu(v: real): real { if v > 0.0 then v else 0.0 }

  function Pre(n: Net, x: seq<real>, h: nat): real { Dot(n.w1, h * n.inDim, x, n.inDim) }

  function Hidden(n: Net, x: seq<real>): (a: seq<real>)
    ensures |a| == n.hidDim
  {
    seq(n.hidDim, h requires 0 <= h < n.hidDim => Relu(Pre(n, x, h)))
  }

  function Predicted(n: Net, hidden: seq<real>): (p: seq<real>)
    ensures |p| == n.outDim
  {
    seq(n.outDim, o requires 0 <= o < n.outDim => Dot(n.w2, o * n.hidDim, hidden, n.hidDim))
  }

  /** Half the squared errors of the first `k` outputs. */
  function Errors(pred: seq<real>, target: seq<real>, k: nat): real {
    if k == 0 then 0.0 else Errors(pred, target, k - 1) + HalfSquare(Elem(pred, k - 1) - Elem(target, k - 1))
  }

  function Mean(sum: real, n: nat): real
    requires n > 0
  {
    sum / n as real
  }

  function Loss(n: Net, x: seq<real>, target: seq<real>): real
    requires n.outDim > 0
  {
    Mean(Errors(Predicted(n, Hidden(n, x)), target, n.outDim), n.outDim)
  }

  // ---------------------------------------------------------------- what the network computes

  /** A hidden unit lets a positive sum through and stays at 0 otherwise. */
  lemma HiddenRectifies(n: Net, x: seq<real>, h: nat)
    requires h < n.hidDim
    ensures var a, v := Hidden(n, x)[h], Pre(n, x, h); a >= 0.0 && a >= v && (a == 0.0 || a == v)
  {
    assert Hidden(n, x)[h] == Relu(Pre(n, x, h));
  }

  /** The two networks differ in the weights that leave unit `h`, if at all. */
  ghost predicate SameButColumn(n: Net, n': Net, h: nat) {
    && n'.inDim == n.inDim && n'.hidDim == n.hidDim && n'.outDim == n.outDim && n'.w1 == n.w1 && |n'.w2| == |n.w2|
    && forall o, u :: 0 <= o < n.outDim && 0 <= u < n.hidDim && u != h ==> Column(n', u, o) == Column(n, u, o)
  }

  lemma {:induction false} DotBeside(n: Net, n': Net, hidden: seq<real>, h: nat, o: nat, k: nat)
    requires SameButColumn(n, n', h) && o < n.outDim && k <= n.hidDim && Elem(hidden, h) == 0.0
    ensures Dot(n'.w2, o * n.hidDim, hidden, k) == Dot(n.w2, o * n.hidDim, hidden, k)
  {
    if k > 0 {
      DotBeside(n, n', hidden, h, o, k - 1);
      if k - 1 != h { assert Column(n', k - 1, o) == Column(n, k - 1, o); }
    }
  }

  /** An inactive unit contributes nothing: whatever leaves it, predictions and loss are the same. */
  lemma InactiveContributesNothing(n: Net, n': Net, x: seq<real>, target: seq<real>, h: nat)
    requires SameButColumn(n, n', h) && h < n.hidDim && n.outDim > 0 && !Active(n, x, h)
    ensures Predicted(n', Hidden(n', x)) == Predicted(n, Hidden(n, x))
    ensures Loss(n', x, target) == Loss(n, x, target)
  {
    SameHidden(n, n', x);
    var hidden := Hidden(n, x);
    forall o | 0 <= o < n.outDim ensures Predicted(n', hidden)[o] == Predicted(n, hidden)[o] {
      DotBeside(n, n', hidden, h, o, n.hidDim);
    }
  }

  lemma {:induction false} DotZero(w: seq<real>, off: nat, x: seq<real>, n: nat)
    requires forall i :: 0 <= i < |x| ==> x[i] == 0.0
    ensures Dot(w, off, x, n) == 0.0
  {
    if n > 0 { DotZero(w, off, x, n - 1); }
  }

  /** With no unit active every prediction is 0. */
  lemma DeadPredictsZero(n: Net, x: seq<real>, o: nat)
    requires o < n.outDim && forall h :: 0 <= h < n.hidDim ==> !Active(n, x, h)
    ensures Predicted(n, Hidden(n, x))[o] == 0.0
  {
    forall h | 0 <= h < n.hidDim ensures Hidden(n, x)[h] == 0.0 { assert !Active(n, x, h); }
    DotZero(n.w2, o * n.hidDim, Hidden(n, x), n.hidDim);
  }

  lemma SameSign(a: real, b: real)
    requires (a > 0.0 && b > 0.0) || (a < 0.0 && b < 0.0)
    ensures Times(a, b) > 0.0
  {
  }

  lemma HalfSquareIs(e: real)
    ensures HalfSquare(e) == 0.5 * Times(e, e)
  {
  }

  lemma SquareSign(e: real)
    ensures HalfSquare(e) >= 0.0 && (HalfSquare(e) == 0.0 <==> e == 0.0)
  {
    HalfSquareIs(e);
    if e != 0.0 { SameSign(e, e); }
  }

  lemma {:induction false} ErrorsSign(pred: seq<real>, target: seq<real>, k: nat)
    ensures Errors(pred, target, k) >= 0.0
    ensures Errors(pred, target, k) == 0.0 <==> forall o :: 0 <= o < k ==> Elem(pred, o) == Elem(target, o)
  {
    if k > 0 {
      ErrorsSign(pred, target, k - 1);
      SquareSign(Elem(pred, k - 1) - Elem(target, k - 1));
    }
  }

  lemma MeanSign(sum: real, n: nat)
    requires n > 0 && sum >= 0.0
    ensures Mean(sum, n) >= 0.0 && (Mean(sum, n) == 0.0 <==> sum == 0.0)
  {
    assert Mean(sum, n) * n as real == sum;
  }

  /** The loss is never negative, and 0 exactly when the predictions are the target; with one output it is half the
      squared error. */
  lemma LossMeasures(n: Net, x: seq<real>, target: seq<real>)
    requires n.outDim > 0 && |target| == n.outDim
    ensures Loss(n, x, target) >= 0.0
    ensures Loss(n, x, target) == 0.0 <==> Predicted(n, Hidden(n, x)) == target
    ensures n.outDim == 1 ==>
              var e := Predicted(n, Hidden(n, x))[0] - target[0]; 2.0 * Loss(n, x, target) == e * e
  {
    var pred := Predicted(n, Hidden(n, x));
    ErrorsSign(pred, target, n.outDim);
    MeanSign(Errors(pred, target, n.outDim), n.outDim);
    assert (forall o :: 0 <= o < n.outDim ==> Elem(pred, o) == Elem(target, o)) <==> pred == target by {
      if forall o :: 0 <= o < n.outDim ==> Elem(pred, o) == Elem(target, o) {
        assert forall o :: 0 <= o < n.outDim ==> pred[o] == Elem(pred, o) && target[o] == Elem(target, o);
      }
    }
    if n.outDim == 1 { OneError(pred, target); }
  }

  lemma OneError(pred: seq<real>, target: seq<real>)
    requires |pred| == |target| == 1
    ensures 2.0 * Mean(Errors(pred, target, 1), 1) == (pred[0] - target[0]) * (pred[0] - target[0])
  {
    assert Errors(pred, target, 1) == HalfSquare(pred[0] - target[0]);
  }

  // ---------------------------------------------------------------- the gradients

  /** 1 / outDim */
  function InvOut(n: Net): real
    requires n.outDim > 0
  {
    1.0 / n.outDim as real
  }

  function DeltaOut(n: Net, pred: seq<real>, target: seq<real>): (d: seq<real>)
    requires n.outDim > 0
    ensures |d| == n.outDim
  {
    seq(n.outDim, o requires 0 <= o < n.outDim => Times(Elem(pred, o) - Elem(target, o), InvOut(n)))
  }

  function Column(n: Net, h: nat, o: nat): real { Elem(n.w2, o * n.hidDim + h) }

  /** What flows back into hidden unit `h` from the first `k` outputs. */
  function Upstream(n: Net, delta: seq<real>, h: nat, k: nat): real {
    if k == 0 then 0.0 else Upstream(n, delta, h, k - 1) + Times(Column(n, h, k - 1), Elem(delta, k - 1))
  }

  predicate Active(n: Net, x: seq<real>, h: nat) { Pre(n, x, h) > 0.0 }

  function Delta(n: Net, x: seq<real>, target: seq<real>): seq<real>
    requires n.outDim > 0
  {
    DeltaOut(n, Predicted(n, Hidden(n, x)), target)
  }

  function GradW2(n: Net, x: seq<real>, target: seq<real>, o: nat, h: nat): real
    requires n.outDim > 0
  {
    Times(Elem(Delta(n, x, target), o), Elem(Hidden(n, x), h))
  }

  /** The derivative with respect to w1[h, i], where there is one: an inactive unit passes nothing on. */
  function GradW1(n: Net, x: seq<real>, target: seq<real>, h: nat, i: nat): real
    requires n.outDim > 0
  {
    if Active(n, x, h) then Times(Upstream(n, Delta(n, x, target), h, n.outDim), Elem(x, i)) else 0.0
  }

  /** Sum of the squares of column `h` of w2, over the first `k` outputs. */
  function ColumnSquares(n: Net, h: nat, k: nat): real {
    if k == 0 then 0.0 else ColumnSquares(n, h, k - 1) + Times(Column(n, h, k - 1), Column(n, h, k - 1))
  }

  // ---------------------------------------------------------------- sums under a change of one term

  lemma {:induction false} DotWeight(w: seq<real>, off: nat, x: seq<real>, n: nat, k: nat, v: real)
    requires k < |w|
    ensures Dot(w[k := v], off, x, n)
            == Dot(w, off, x, n) + if off <= k < off + n then Times(v - w[k], Elem(x, k - off)) else 0.0
  {
    if n > 0 { DotWeight(w, off, x, n - 1, k, v); }
  }

  lemma {:induction false} DotInput(w: seq<real>, off: nat, x: seq<real>, n: nat, k: nat, v: real)
    requires k < |x|
    ensures Dot(w, off, x[k := v], n) == Dot(w, off, x, n) + if k < n then Times(Elem(w, off + k), v - x[k]) else 0.0
  {
    if n > 0 { DotInput(w, off, x, n - 1, k, v); }
  }

  lemma {:induction false} ErrorsOne(pred: seq<real>, target: seq<real>, o: nat, d: real, k: nat)
    requires o < |pred|
    ensures Errors(pred[o := pred[o] + d], target, k)
            == Errors(pred, target, k) + if o < k then Times(pred[o] - Elem(target, o), d) + HalfSquare(d) else 0.0
  {
    if k > 0 {
      ErrorsOne(pred, target, o, d, k - 1);
      if o == k - 1 {
        assert pred[o] + d - Elem(target, o) == pred[o] - Elem(target, o) + d;
      }
    }
  }

  /** The part of the change of the loss that is linear in `d`, and the part that is quadratic. */
  function Linear(d: real, up: real, out: real): real { d * (up * out) }

  function Quadratic(d: real, squares: real): real { 0.5 * (d * d) * squares }

  /** What is left of a loss change besides eps times the gradient. */
  function SecondOrder(eps: real, c: real, n: nat): real
    requires n > 0
  {
    eps * eps * c / (2.0 * n as real)
  }

  /** Every output moves by its weight from unit h, times d. */
  ghost predicate Shifted(n: Net, pred: seq<real>, pred': seq<real>, h: nat, d: real) {
    && |pred| == |pred'| == n.outDim
    && forall o :: 0 <= o < n.outDim ==> pred'[o] == pred[o] + Times(Column(n, h, o), d)
  }

  lemma {:induction false} ErrorsColumn(n: Net, target: seq<real>, pred: seq<real>, pred': seq<real>, h: nat, d: real,
                                      k: nat)
    requires n.outDim > 0 && Shifted(n, pred, pred', h, d) && k <= n.outDim
    ensures Errors(pred', target, k)
            == Errors(pred, target, k) + Linear(d, Upstream(n, DeltaOut(n, pred, target), h, k), n.outDim as real)
               + Quadratic(d, ColumnSquares(n, h, k))
  {
    if k > 0 {
      ErrorsColumn(n, target, pred, pred', h, d, k - 1);
      var e, e' := Elem(pred, k - 1) - Elem(target, k - 1), Elem(pred', k - 1) - Elem(target, k - 1);
      var w, up, sq := Column(n, h, k - 1), Upstream(n, DeltaOut(n, pred, target), h, k - 1),
        ColumnSquares(n, h, k - 1);
      assert e' == e + Times(w, d);
      assert Elem(DeltaOut(n, pred, target), k - 1) == Times(e, InvOut(n));
      ColumnTerm(e, w, d, n, up, sq);
      assert Errors(pred', target, k) == Errors(pred', target, k - 1) + HalfSquare(e');
    }
  }

  lemma ColumnTerm(e: real, w: real, d: real, n: Net, up: real, sq: real)
    requires n.outDim > 0
    ensures Linear(d, up, n.outDim as real) + Quadratic(d, sq) + HalfSquare(e + Times(w, d))
            == HalfSquare(e) + Linear(d, up + Times(w, Times(e, InvOut(n))), n.outDim as real)
               + Quadratic(d, sq + Times(w, w))
  {
    assert e * (w * d) == d * (w * e);
  }

  // ---------------------------------------------------------------- the gradient is exact

  lemma SameHidden(n: Net, n': Net, x: seq<real>)
    requires n'.w1 == n.w1 && n'.inDim == n.inDim && n'.hidDim == n.hidDim
    ensures Hidden(n', x) == Hidden(n, x)
  {
    forall h | 0 <= h < n.hidDim ensures Hidden(n', x)[h] == Hidden(n, x)[h] { assert Pre(n', x, h) == Pre(n, x, h); }
  }

  /** n with eps added to weight k of the second layer, or of the first. */
  function NudgeW2(n: Net, k: nat, eps: real): Net
    requires k < |n.w2|
  {
    n.(w2 := n.w2[k := n.w2[k] + eps])
  }

  function NudgeW1(n: Net, k: nat, eps: real): Net
    requires k < |n.w1|
  {
    n.(w1 := n.w1[k := n.w1[k] + eps])
  }

  /** Moving w2[o, h] moves one prediction. */
  lemma PredictionMoves(n: Net, hid: seq<real>, o: nat, h: nat, eps: real)
    requires |n.w2| == n.outDim * n.hidDim && |hid| == n.hidDim && o < n.outDim && h < n.hidDim
    ensures o * n.hidDim + h < |n.w2|
    ensures var pred := Predicted(n, hid);
            Predicted(NudgeW2(n, o * n.hidDim + h, eps), hid) == pred[o := pred[o] + Times(eps, hid[h])]
  {
    RowFits(o, n.outDim, n.hidDim);
    var k := o * n.hidDim + h;
    var pred, pred' := Predicted(n, hid), Predicted(NudgeW2(n, k, eps), hid);
    forall q | 0 <= q < n.outDim ensures pred'[q] == pred[o := pred[o] + Times(eps, hid[h])][q] {
      DotWeight(n.w2, q * n.hidDim, hid, n.hidDim, k, n.w2[k] + eps);
      if q != o { RowsApart(o, q, n.hidDim); }
    }
  }

  /** Moving w2[o, h] by eps moves the loss by eps times its gradient, plus an explicit square. */
  lemma GradW2Exact(n: Net, x: seq<real>, target: seq<real>, o: nat, h: nat, eps: real)
    requires Shaped(n, x, target) && o < n.outDim && h < n.hidDim
    ensures o * n.hidDim + h < |n.w2|
    ensures var a := Hidden(n, x)[h];
            Loss(NudgeW2(n, o * n.hidDim + h, eps), x, target)
            == Loss(n, x, target) + Times(eps, GradW2(n, x, target, o, h)) + SecondOrder(eps, Times(a, a), n.outDim)
  {
    var hid := Hidden(n, x);
    PredictionMoves(n, hid, o, h, eps);
    var n' := NudgeW2(n, o * n.hidDim + h, eps);
    SameHidden(n, n', x);
    var pred := Predicted(n, hid);
    var d := Times(eps, hid[h]);
    ErrorsOne(pred, target, o, d, n.outDim);
    assert Elem(Delta(n, x, target), o) == Times(pred[o] - Elem(target, o), InvOut(n));
    W2Algebra(Errors(pred, target, n.outDim), pred[o] - Elem(target, o), hid[h], eps, n);
  }

  lemma W2Algebra(errors: real, e: real, a: real, eps: real, net: Net)
    requires net.outDim > 0
    ensures Mean(errors + (Times(e, Times(eps, a)) + HalfSquare(Times(eps, a))), net.outDim)
            == Mean(errors, net.outDim) + Times(eps, Times(Times(e, InvOut(net)), a))
               + SecondOrder(eps, Times(a, a), net.outDim)
  {
    var n := net.outDim as real;
    var inv := 1.0 / n;
    assert 1.0 / (2.0 * n) == 0.5 * inv;
    assert (e * (eps * a)) * inv == eps * ((e * inv) * a);
    assert (0.5 * (eps * a) * (eps * a)) * inv == (eps * eps * (a * a)) * (0.5 * inv);
  }

  /** Only the unit that the weight belongs to changes its input. */
  lemma HiddenMoves(n: Net, x: seq<real>, h: nat, i: nat, eps: real)
    requires |n.w1| == n.hidDim * n.inDim && |x| == n.inDim && h < n.hidDim && i < n.inDim
    ensures h * n.inDim + i < |n.w1|
    ensures Hidden(NudgeW1(n, h * n.inDim + i, eps), x) == Hidden(n, x)[h := Relu(Pre(n, x, h) + Times(eps, x[i]))]
  {
    RowFits(h, n.hidDim, n.inDim);
    var k := h * n.inDim + i;
    var n' := NudgeW1(n, k, eps);
    forall u | 0 <= u < n.hidDim
      ensures Hidden(n', x)[u] == Hidden(n, x)[h := Relu(Pre(n, x, h) + Times(eps, x[i]))][u]
    {
      DotWeight(n.w1, u * n.inDim, x, n.inDim, k, n.w1[k] + eps);
      if u != h { RowsApart(u, h, n.inDim); }
    }
  }

  /** When unit h moves by d, every output moves with it. */
  lemma PredictionsShift(n: Net, hid: seq<real>, h: nat, d: real)
    requires |hid| == n.hidDim && h < n.hidDim
    ensures Shifted(n, Predicted(n, hid), Predicted(n, hid[h := hid[h] + d]), h, d)
  {
    var pred, pred' := Predicted(n, hid), Predicted(n, hid[h := hid[h] + d]);
    forall o | 0 <= o < n.outDim ensures pred'[o] == pred[o] + Times(Column(n, h, o), d) {
      DotInput(n.w2, o * n.hidDim, hid, n.hidDim, h, hid[h] + d);
    }
  }

  /** Moving a weight into a unit that is active and stays active. */
  lemma GradW1Exact(n: Net, x: seq<real>, target: seq<real>, h: nat, i: nat, eps: real)
    requires Shaped(n, x, target) && h < n.hidDim && i < n.inDim
    requires Active(n, x, h) && Pre(n, x, h) + Times(eps, x[i]) > 0.0
    ensures h * n.inDim + i < |n.w1|
    ensures Loss(NudgeW1(n, h * n.inDim + i, eps), x, target)
            == Loss(n, x, target) + Times(eps, GradW1(n, x, target, h, i))
               + SecondOrder(eps, Times(Times(x[i], x[i]), ColumnSquares(n, h, n.outDim)), n.outDim)
  {
    var hid, d := Hidden(n, x), Times(eps, x[i]);
    HiddenMoves(n, x, h, i, eps);
    var n' := NudgeW1(n, h * n.inDim + i, eps);
    assert Hidden(n', x) == hid[h := hid[h] + d];
    PredictionsShift(n, hid, h, d);
    var pred, pred' := Predicted(n, hid), Predicted(n, Hidden(n', x));
    assert Predicted(n', Hidden(n', x)) == pred';
    ErrorsColumn(n, target, pred, pred', h, d, n.outDim);
    W1Algebra(Errors(pred, target, n.outDim), Upstream(n, Delta(n, x, target), h, n.outDim), x[i], eps,
              ColumnSquares(n, h, n.outDim), n.outDim);
  }

  lemma W1Algebra(errors: real, up: real, xi: real, eps: real, squares: real, outDim: nat)
    requires outDim > 0
    ensures Mean(errors + Linear(Times(eps, xi), up, outDim as real) + Quadratic(Times(eps, xi), squares), outDim)
            == Mean(errors, outDim) + Times(eps, Times(up, xi))
              + SecondOrder(eps, Times(Times(xi, xi), squares), outDim)
  {
    var n := outDim as real;
    var inv := 1.0 / n;
    assert n * inv == 1.0 && 1.0 / (2.0 * n) == 0.5 * inv;
    assert ((eps * xi) * (up * n)) * inv == (eps * (up * xi)) * (n * inv);
    assert (0.5 * ((eps * xi) * (eps * xi)) * squares) * inv == (eps * eps * ((xi * xi) * squares)) * (0.5 * inv);
  }

  /** Moving a weight into a unit that is inactive and stays inactive changes nothing. */
  lemma InactiveFlat(n: Net, x: seq<real>, target: seq<real>, h: nat, i: nat, eps: real)
    requires Shaped(n, x, target) && h < n.hidDim && i < n.inDim
    requires !Active(n, x, h) && Pre(n, x, h) + Times(eps, x[i]) <= 0.0
    ensures h * n.inDim + i < |n.w1| && GradW1(n, x, target, h, i) == 0.0
    ensures Loss(NudgeW1(n, h * n.inDim + i, eps), x, target) == Loss(n, x, target)
  {
    HiddenMoves(n, x, h, i, eps);
    var n' := NudgeW1(n, h * n.inDim + i, eps);
    assert Hidden(n', x) == Hidden(n, x);
  }
}
