/**
 * The algebraic scorers of KGEModel: TransE, TATransE, DistMult, TADistMult and ComplEx,
 * each as a function of one head row, one relation row and one tail row (one cell of the
 * [batch, negatives] score tensor). The mode chooses the parenthesisation the source uses;
 * every mode other than head-batch takes the tail-batch form, as the source's `else` does.
 *
 * The temporal scorers first fold the relation row and the time rows through the recurrent
 * encoder of `get_rseq`; the encoder is the uninterpreted parameter `lstm`, applied to the
 * relation row followed by the T time rows (a sequence of T + 1 rows).
 */
module Scorers {
  import opened Vectors
  import opened Modes

  type Encoder = seq<Vec> -> Vec

  // ---------------------------------------------------------------------------
  // Reference definitions, index by index
  // ---------------------------------------------------------------------------

  /** Σ_k |h_k + r_k − t_k|: the L1 length of the translation residual. */
  function TranslationDistance(h: Vec, r: Vec, t: Vec): real
    requires |h| == |r| == |t|
  {
    if |h| == 0 then 0.0
    else
      var n := |h| - 1;
      TranslationDistance(h[..n], r[..n], t[..n]) + Abs(h[n] + r[n] - t[n])
  }

  /** Σ_k h_k · r_k · t_k: the trilinear product. */
  function TrilinearProduct(h: Vec, r: Vec, t: Vec): real
    requires |h| == |r| == |t|
  {
    if |h| == 0 then 0.0
    else
      var n := |h| - 1;
      TrilinearProduct(h[..n], r[..n], t[..n]) + h[n] * r[n] * t[n]
  }

  datatype Complex = Complex(re: real, im: real)

  function CMul(a: Complex, b: Complex): Complex {
    Complex(a.re * b.re - a.im * b.im, a.re * b.im + a.im * b.re)
  }

  function Conj(a: Complex): Complex {
    Complex(a.re, -a.im)
  }

  /** Σ_k Re(h_k · r_k · conj(t_k)) over complex vectors given as real and imaginary parts. */
  function HermitianProduct(reH: Vec, imH: Vec, reR: Vec, imR: Vec, reT: Vec, imT: Vec): real
    requires |reH| == |imH| == |reR| == |imR| == |reT| == |imT|
  {
    if |reH| == 0 then 0.0
    else
      var n := |reH| - 1;
      HermitianProduct(reH[..n], imH[..n], reR[..n], imR[..n], reT[..n], imT[..n])
        + CMul(CMul(Complex(reH[n], imH[n]), Complex(reR[n], imR[n])), Conj(Complex(reT[n], imT[n]))).re
  }

  // ---------------------------------------------------------------------------
  // The scorers as the source computes them
  // ---------------------------------------------------------------------------

  /** `torch.cat((relation, tem), 1)` for one batch element: the encoder's input. */
  function EncoderInput(relation: Vec, tem: seq<Vec>): (s: seq<Vec>)
    ensures |s| == |tem| + 1 && s[0] == relation && s[1..] == tem
  {
    [relation] + tem
  }

  /** `get_rseq` for one batch element: the encoder's final hidden state. */
  function Rseq(lstm: Encoder, relation: Vec, tem: seq<Vec>): Vec {
    lstm(EncoderInput(relation, tem))
  }

  function TransE(gamma: real, head: Vec, relation: Vec, tail: Vec, mode: Mode): real
    requires |head| == |relation| == |tail|
  {
    var residual :=
      if mode == HeadBatch then Add(head, Sub(relation, tail))
      else Sub(Add(head, relation), tail);
    gamma - L1(residual)
  }

  /**
   * TATransE: the encoded relation `rseq.unsqueeze(1)` takes the place of r. The elementwise
   * operations broadcast: an encoding of width 1 is repeated across the entity width, and
   * entity rows of width 1 across the encoding's width.
   */
  function TATransE(gamma: real, lstm: Encoder, head: Vec, relation: Vec, tem: seq<Vec>, tail: Vec, mode: Mode): real
    requires |head| == |tail| && Broadcastable(|head|, |Rseq(lstm, relation, tem)|)
  {
    var rseq := Rseq(lstm, relation, tem);
    var w := BroadcastWidth(|head|, |rseq|);
    var h, r, t := Stretch(head, w), Stretch(rseq, w), Stretch(tail, w);
    var residual :=
      if mode == HeadBatch then Add(h, Sub(r, t))
      else Sub(Add(h, r), t);
    gamma - L1(residual)
  }

  function DistMult(head: Vec, relation: Vec, tail: Vec, mode: Mode): real
    requires |head| == |relation| == |tail|
  {
    Sum(if mode == HeadBatch then Mul(head, Mul(relation, tail)) else Mul(Mul(head, relation), tail))
  }

  /** TADistMult: DistMult with the encoded relation, broadcast as in TATransE. */
  function TADistMult(lstm: Encoder, head: Vec, relation: Vec, tem: seq<Vec>, tail: Vec, mode: Mode): real
    requires |head| == |tail| && Broadcastable(|head|, |Rseq(lstm, relation, tem)|)
  {
    var rseq := Rseq(lstm, relation, tem);
    var w := BroadcastWidth(|head|, |rseq|);
    var h, r, t := Stretch(head, w), Stretch(rseq, w), Stretch(tail, w);
    Sum(if mode == HeadBatch then Mul(h, Mul(r, t)) else Mul(Mul(h, r), t))
  }

  /**
   * ComplEx: `torch.chunk(x, 2, dim=2)` splits each row into its real and imaginary halves.
   * Rows have even width, as construction demands doubled entity and relation widths.
   */
  function ComplEx(head: Vec, relation: Vec, tail: Vec, mode: Mode): real
    requires |head| == |relation| == |tail| && |head| % 2 == 0
  {
    var m := |head| / 2;
    var reH, imH := head[..m], head[m..];
    var reR, imR := relation[..m], relation[m..];
    var reT, imT := tail[..m], tail[m..];
    if mode == HeadBatch then
      var reS := Add(Mul(reR, reT), Mul(imR, imT));
      var imS := Sub(Mul(reR, imT), Mul(imR, reT));
      Sum(Add(Mul(reH, reS), Mul(imH, imS)))
    else
      var reS := Sub(Mul(reH, reR), Mul(imH, imR));
      var imS := Add(Mul(reH, imR), Mul(imH, reR));
      Sum(Add(Mul(reS, reT), Mul(imS, imT)))
  }

  // ---------------------------------------------------------------------------
  // Connecting the computed forms to the reference definitions
  // ---------------------------------------------------------------------------

  /** Both parenthesisations of the elementwise product agree at every index. */
  lemma ProductsAt(h: Vec, r: Vec, t: Vec, k: int)
    requires |h| == |r| == |t| && 0 <= k < |h|
    ensures Mul(h, Mul(r, t))[k] == h[k] * r[k] * t[k]
    ensures Mul(Mul(h, r), t)[k] == h[k] * r[k] * t[k]
  {
  }

  /** The head-batch cross terms expand to Re(h · r · conj(t)). */
  lemma HermitianHeadForm(reH: real, imH: real, reR: real, imR: real, reT: real, imT: real)
    ensures reH * (reR * reT + imR * imT) + imH * (reR * imT - imR * reT)
         == CMul(CMul(Complex(reH, imH), Complex(reR, imR)), Conj(Complex(reT, imT))).re
  {
  }

  /** The tail-batch cross terms expand to Re(h · r · conj(t)). */
  lemma HermitianTailForm(reH: real, imH: real, reR: real, imR: real, reT: real, imT: real)
    ensures (reH * reR - imH * imR) * reT + (reH * imR + imH * reR) * imT
         == CMul(CMul(Complex(reH, imH), Complex(reR, imR)), Conj(Complex(reT, imT))).re
  {
  }

  lemma {:induction false} L1OfResidual(d: Vec, h: Vec, r: Vec, t: Vec)
    requires |d| == |h| == |r| == |t|
    requires forall k :: 0 <= k < |d| ==> d[k] == h[k] + r[k] - t[k]
    ensures L1(d) == TranslationDistance(h, r, t)
  {
    if |d| > 0 {
      var n := |d| - 1;
      L1OfResidual(d[..n], h[..n], r[..n], t[..n]);
    }
  }

  lemma {:induction false} SumOfTrilinear(d: Vec, h: Vec, r: Vec, t: Vec)
    requires |d| == |h| == |r| == |t|
    requires forall k :: 0 <= k < |d| ==> d[k] == h[k] * r[k] * t[k]
    ensures Sum(d) == TrilinearProduct(h, r, t)
  {
    if |d| > 0 {
      var n := |d| - 1;
      SumOfTrilinear(d[..n], h[..n], r[..n], t[..n]);
    }
  }

  lemma {:induction false} SumOfHermitian(d: Vec, reH: Vec, imH: Vec, reR: Vec, imR: Vec, reT: Vec, imT: Vec)
    requires |d| == |reH| == |imH| == |reR| == |imR| == |reT| == |imT|
    requires forall k :: 0 <= k < |d| ==>
      d[k] == CMul(CMul(Complex(reH[k], imH[k]), Complex(reR[k], imR[k])), Conj(Complex(reT[k], imT[k]))).re
    ensures Sum(d) == HermitianProduct(reH, imH, reR, imR, reT, imT)
  {
    if |d| > 0 {
      var n := |d| - 1;
      SumOfHermitian(d[..n], reH[..n], imH[..n], reR[..n], imR[..n], reT[..n], imT[..n]);
    }
  }

  /** TransE in either parenthesisation is gamma minus Σ_k |h_k + r_k − t_k|. */
  lemma TransEIsTranslationDistance(gamma: real, head: Vec, relation: Vec, tail: Vec, mode: Mode)
    requires |head| == |relation| == |tail|
    ensures TransE(gamma, head, relation, tail, mode) == gamma - TranslationDistance(head, relation, tail)
  {
    if mode == HeadBatch {
      L1OfResidual(Add(head, Sub(relation, tail)), head, relation, tail);
    } else {
      L1OfResidual(Sub(Add(head, relation), tail), head, relation, tail);
    }
  }

  /** The L1 distance is never negative, so a TransE score never exceeds gamma. */
  lemma TransEAtMostGamma(gamma: real, head: Vec, relation: Vec, tail: Vec, mode: Mode)
    requires |head| == |relation| == |tail|
    ensures TransE(gamma, head, relation, tail, mode) <= gamma
  {
    L1NonNegative(if mode == HeadBatch then Add(head, Sub(relation, tail)) else Sub(Add(head, relation), tail));
  }

  /** The head-batch form h + (r − t) and the tail-batch form (h + r) − t give the same score. */
  lemma TransEModesAgree(gamma: real, head: Vec, relation: Vec, tail: Vec)
    requires |head| == |relation| == |tail|
    ensures TransE(gamma, head, relation, tail, HeadBatch) == TransE(gamma, head, relation, tail, TailBatch)
    ensures TransE(gamma, head, relation, tail, Single) == TransE(gamma, head, relation, tail, TailBatch)
  {
    TransEIsTranslationDistance(gamma, head, relation, tail, HeadBatch);
    TransEIsTranslationDistance(gamma, head, relation, tail, TailBatch);
  }

  /**
   * TATransE is TransE's translation distance with the encoded relation in place of r,
   * all three rows broadcast to one width.
   */
  lemma TATransEIsTranslationDistance(gamma: real, lstm: Encoder, head: Vec, relation: Vec, tem: seq<Vec>, tail: Vec, mode: Mode)
    requires |head| == |tail| && Broadcastable(|head|, |Rseq(lstm, relation, tem)|)
    ensures var rseq := lstm([relation] + tem);
      var w := BroadcastWidth(|head|, |rseq|);
      TATransE(gamma, lstm, head, relation, tem, tail, mode)
        == gamma - TranslationDistance(Stretch(head, w), Stretch(rseq, w), Stretch(tail, w))
  {
    var rseq := Rseq(lstm, relation, tem);
    var w := BroadcastWidth(|head|, |rseq|);
    var h, r, t := Stretch(head, w), Stretch(rseq, w), Stretch(tail, w);
    if mode == HeadBatch {
      L1OfResidual(Add(h, Sub(r, t)), h, r, t);
    } else {
      L1OfResidual(Sub(Add(h, r), t), h, r, t);
    }
  }

  /** With equal widths no broadcasting happens: TATransE is gamma − Σ_k |h_k + rseq_k − t_k|. */
  lemma TATransEEqualWidths(gamma: real, lstm: Encoder, head: Vec, relation: Vec, tem: seq<Vec>, tail: Vec, mode: Mode)
    requires |head| == |tail| == |Rseq(lstm, relation, tem)|
    ensures TATransE(gamma, lstm, head, relation, tem, tail, mode)
         == gamma - TranslationDistance(head, lstm([relation] + tem), tail)
  {
    TATransEIsTranslationDistance(gamma, lstm, head, relation, tem, tail, mode);
  }

  /** An encoding of width 1 is added to every coordinate of the entity rows. */
  lemma TATransEScalarEncoding(gamma: real, lstm: Encoder, head: Vec, relation: Vec, tem: seq<Vec>, tail: Vec, mode: Mode)
    requires |head| == |tail| && |Rseq(lstm, relation, tem)| == 1
    ensures var c := lstm([relation] + tem)[0];
      TATransE(gamma, lstm, head, relation, tem, tail, mode)
        == gamma - TranslationDistance(head, seq(|head|, _ => c), tail)
  {
    TATransEIsTranslationDistance(gamma, lstm, head, relation, tem, tail, mode);
    var c := Rseq(lstm, relation, tem)[0];
    var w := BroadcastWidth(|head|, 1);
    assert Stretch(head, w) == head && Stretch(tail, w) == tail;
    assert Stretch(Rseq(lstm, relation, tem), w) == seq(|head|, _ => c);
  }

  /** The L1 distance is never negative, so a TATransE score never exceeds gamma. */
  lemma TATransEAtMostGamma(gamma: real, lstm: Encoder, head: Vec, relation: Vec, tem: seq<Vec>, tail: Vec, mode: Mode)
    requires |head| == |tail| && Broadcastable(|head|, |Rseq(lstm, relation, tem)|)
    ensures TATransE(gamma, lstm, head, relation, tem, tail, mode) <= gamma
  {
    var rseq := Rseq(lstm, relation, tem);
    var w := BroadcastWidth(|head|, |rseq|);
    var h, r, t := Stretch(head, w), Stretch(rseq, w), Stretch(tail, w);
    L1NonNegative(if mode == HeadBatch then Add(h, Sub(r, t)) else Sub(Add(h, r), t));
  }

  lemma TATransEModesAgree(gamma: real, lstm: Encoder, head: Vec, relation: Vec, tem: seq<Vec>, tail: Vec)
    requires |head| == |tail| && Broadcastable(|head|, |Rseq(lstm, relation, tem)|)
    ensures TATransE(gamma, lstm, head, relation, tem, tail, HeadBatch)
         == TATransE(gamma, lstm, head, relation, tem, tail, TailBatch)
  {
    TATransEIsTranslationDistance(gamma, lstm, head, relation, tem, tail, HeadBatch);
    TATransEIsTranslationDistance(gamma, lstm, head, relation, tem, tail, TailBatch);
  }

  /** DistMult in either parenthesisation is Σ_k h_k · r_k · t_k. */
  lemma DistMultIsTrilinear(head: Vec, relation: Vec, tail: Vec, mode: Mode)
    requires |head| == |relation| == |tail|
    ensures DistMult(head, relation, tail, mode) == TrilinearProduct(head, relation, tail)
  {
    var d := if mode == HeadBatch then Mul(head, Mul(relation, tail)) else Mul(Mul(head, relation), tail);
    forall k | 0 <= k < |d| ensures d[k] == head[k] * relation[k] * tail[k] {
      ProductsAt(head, relation, tail, k);
    }
    SumOfTrilinear(d, head, relation, tail);
  }

  lemma DistMultModesAgree(head: Vec, relation: Vec, tail: Vec)
    requires |head| == |relation| == |tail|
    ensures DistMult(head, relation, tail, HeadBatch) == DistMult(head, relation, tail, TailBatch)
  {
    DistMultIsTrilinear(head, relation, tail, HeadBatch);
    DistMultIsTrilinear(head, relation, tail, TailBatch);
  }

  lemma {:induction false} TrilinearSymmetric(h: Vec, r: Vec, t: Vec)
    requires |h| == |r| == |t|
    ensures TrilinearProduct(h, r, t) == TrilinearProduct(t, r, h)
  {
    if |h| > 0 {
      var n := |h| - 1;
      TrilinearSymmetric(h[..n], r[..n], t[..n]);
    }
  }

  /** DistMult cannot tell a triple from its reverse: swapping head and tail keeps the score. */
  lemma DistMultSymmetric(head: Vec, relation: Vec, tail: Vec, mode: Mode, mode': Mode)
    requires |head| == |relation| == |tail|
    ensures DistMult(head, relation, tail, mode) == DistMult(tail, relation, head, mode')
  {
    DistMultIsTrilinear(head, relation, tail, mode);
    DistMultIsTrilinear(tail, relation, head, mode');
    TrilinearSymmetric(head, relation, tail);
  }

  /** TADistMult is the trilinear product with the encoded relation, all rows broadcast to one width. */
  lemma TADistMultIsTrilinear(lstm: Encoder, head: Vec, relation: Vec, tem: seq<Vec>, tail: Vec, mode: Mode)
    requires |head| == |tail| && Broadcastable(|head|, |Rseq(lstm, relation, tem)|)
    ensures var rseq := lstm([relation] + tem);
      var w := BroadcastWidth(|head|, |rseq|);
      TADistMult(lstm, head, relation, tem, tail, mode)
        == TrilinearProduct(Stretch(head, w), Stretch(rseq, w), Stretch(tail, w))
  {
    var rseq := Rseq(lstm, relation, tem);
    var w := BroadcastWidth(|head|, |rseq|);
    var h, r, t := Stretch(head, w), Stretch(rseq, w), Stretch(tail, w);
    var d := if mode == HeadBatch then Mul(h, Mul(r, t)) else Mul(Mul(h, r), t);
    forall k | 0 <= k < |d| ensures d[k] == h[k] * r[k] * t[k] {
      ProductsAt(h, r, t, k);
    }
    SumOfTrilinear(d, h, r, t);
  }

  lemma TADistMultModesAgree(lstm: Encoder, head: Vec, relation: Vec, tem: seq<Vec>, tail: Vec)
    requires |head| == |tail| && Broadcastable(|head|, |Rseq(lstm, relation, tem)|)
    ensures TADistMult(lstm, head, relation, tem, tail, HeadBatch)
         == TADistMult(lstm, head, relation, tem, tail, TailBatch)
  {
    TADistMultIsTrilinear(lstm, head, relation, tem, tail, HeadBatch);
    TADistMultIsTrilinear(lstm, head, relation, tem, tail, TailBatch);
  }

  /** ComplEx in either ordering of the cross terms is Σ_k Re(h_k · r_k · conj(t_k)). */
  lemma ComplExIsHermitian(head: Vec, relation: Vec, tail: Vec, mode: Mode)
    requires |head| == |relation| == |tail| && |head| % 2 == 0
    ensures var m := |head| / 2;
      ComplEx(head, relation, tail, mode)
        == HermitianProduct(head[..m], head[m..], relation[..m], relation[m..], tail[..m], tail[m..])
  {
    var m := |head| / 2;
    var reH, imH := head[..m], head[m..];
    var reR, imR := relation[..m], relation[m..];
    var reT, imT := tail[..m], tail[m..];
    if mode == HeadBatch {
      var reS := Add(Mul(reR, reT), Mul(imR, imT));
      var imS := Sub(Mul(reR, imT), Mul(imR, reT));
      var d := Add(Mul(reH, reS), Mul(imH, imS));
      forall k | 0 <= k < m
        ensures d[k] == CMul(CMul(Complex(reH[k], imH[k]), Complex(reR[k], imR[k])), Conj(Complex(reT[k], imT[k]))).re
      {
        HermitianHeadForm(reH[k], imH[k], reR[k], imR[k], reT[k], imT[k]);
      }
      SumOfHermitian(d, reH, imH, reR, imR, reT, imT);
    } else {
      var reS := Sub(Mul(reH, reR), Mul(imH, imR));
      var imS := Add(Mul(reH, imR), Mul(imH, reR));
      var d := Add(Mul(reS, reT), Mul(imS, imT));
      forall k | 0 <= k < m
        ensures d[k] == CMul(CMul(Complex(reH[k], imH[k]), Complex(reR[k], imR[k])), Conj(Complex(reT[k], imT[k]))).re
      {
        HermitianTailForm(reH[k], imH[k], reR[k], imR[k], reT[k], imT[k]);
      }
      SumOfHermitian(d, reH, imH, reR, imR, reT, imT);
    }
  }

  lemma ComplExModesAgree(head: Vec, relation: Vec, tail: Vec)
    requires |head| == |relation| == |tail| && |head| % 2 == 0
    ensures ComplEx(head, relation, tail, HeadBatch) == ComplEx(head, relation, tail, TailBatch)
  {
    ComplExIsHermitian(head, relation, tail, HeadBatch);
    ComplExIsHermitian(head, relation, tail, TailBatch);
  }
}
