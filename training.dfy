/**
 * The loss assembly of `train_step` (codes/model.py:370-414): the negative-sample loss with
 * or without self-adversarial weighting, the positive-sample loss, their subsampling-weighted
 * or uniform averages, the optional L3 regularization, and the returned log.
 *
 * `F.logsigmoid` and `F.softmax` are parameters, as are the two L3 norms of the embedding
 * tables; gradients and the optimizer step are not part of this model.
 */
module Training {
  import opened Wrappers
  import opened Vectors

  datatype TrainArgs = TrainArgs(
    negativeAdversarialSampling: bool,
    adversarialTemperature: real,
    uniWeight: bool,
    regularization: real)

  /** `F.logsigmoid`, elementwise. */
  type LogSigmoid = real -> real
  /** `F.softmax(row, dim = 1)` on one row. */
  type Softmax = seq<real> -> seq<real>

  function Apply(f: real -> real, v: Vec): (r: Vec)
    ensures |r| == |v| && forall k :: 0 <= k < |v| ==> r[k] == f(v[k])
  {
    seq(|v|, k requires 0 <= k < |v| => f(v[k]))
  }

  function Negate(v: Vec): (r: Vec)
    ensures |r| == |v| && forall k :: 0 <= k < |v| ==> r[k] == -v[k]
  {
    seq(|v|, k requires 0 <= k < |v| => -v[k])
  }

  /** The softmax weights of a row have one weight per negative sample. */
  predicate SoftmaxKeepsWidths(softmax: Softmax, temperature: real, negativeScore: seq<Vec>) {
    forall i :: 0 <= i < |negativeScore| ==> |softmax(Scale(temperature, negativeScore[i]))| == |negativeScore[i]|
  }

  /** What the negative loss of each example needs: softmax weights of the right width when
      adversarial, and at least one negative to average over otherwise. */
  predicate NegativeRowsUsable(args: TrainArgs, softmax: Softmax, negativeScore: seq<Vec>) {
    if args.negativeAdversarialSampling then SoftmaxKeepsWidths(softmax, args.adversarialTemperature, negativeScore)
    else forall i :: 0 <= i < |negativeScore| ==> |negativeScore[i]| > 0
  }

  /** The negative loss of one example: the softmax-weighted sum of `logsigmoid(-s)` when
      sampling adversarially, their mean otherwise. */
  function NegativeRowLoss(args: TrainArgs, logSigmoid: LogSigmoid, softmax: Softmax, row: Vec): real
    requires args.negativeAdversarialSampling ==> |softmax(Scale(args.adversarialTemperature, row))| == |row|
    requires !args.negativeAdversarialSampling ==> |row| > 0
  {
    var terms := Apply(logSigmoid, Negate(row));
    if args.negativeAdversarialSampling then Sum(Mul(softmax(Scale(args.adversarialTemperature, row)), terms))
    else Mean(terms)
  }

  function NegativeScores(args: TrainArgs, logSigmoid: LogSigmoid, softmax: Softmax, negativeScore: seq<Vec>): (r: Vec)
    requires NegativeRowsUsable(args, softmax, negativeScore)
    ensures |r| == |negativeScore|
  {
    seq(|negativeScore|, i requires 0 <= i < |negativeScore| && NegativeRowsUsable(args, softmax, negativeScore) =>
      NegativeRowLoss(args, logSigmoid, softmax, negativeScore[i]))
  }

  /** The batch loss of one side: a plain mean under `uni_weight` (not negated), otherwise the
      negated subsampling-weighted mean. */
  function SampleLoss(uniWeight: bool, weight: Vec, score: Vec): real
    requires |weight| == |score| > 0
    requires !uniWeight ==> Sum(weight) != 0.0
  {
    if uniWeight then Mean(score)
    else -(Sum(Mul(weight, score)) / Sum(weight))
  }

  /** The scalars of one training step. */
  datatype StepLosses = StepLosses(positive: real, negative: real, loss: real, regularization: Option<real>)

  /** Everything a step needs of its inputs. */
  predicate StepInputsUsable(args: TrainArgs, softmax: Softmax, positiveScore: Vec, negativeScore: seq<Vec>, weight: Vec) {
    && |positiveScore| > 0
    && |negativeScore| == |positiveScore|
    && |weight| == |positiveScore|
    && NegativeRowsUsable(args, softmax, negativeScore)
    && (!args.uniWeight ==> Sum(weight) != 0.0)
  }

  /** `args.regularization * (‖E‖₃³ + ‖‖R‖₃‖₃³)`; the outer norm of a scalar is its magnitude. */
  function RegularizationTerm(coefficient: real, entityNorm: real, relationNorm: real): real {
    coefficient * (entityNorm * entityNorm * entityNorm + Abs(relationNorm) * Abs(relationNorm) * Abs(relationNorm))
  }

  /** The losses of one step, from the model's scores for the positive triples ([batch]) and
      the negative samples ([batch][negatives]). */
  function Losses(args: TrainArgs, logSigmoid: LogSigmoid, softmax: Softmax, positiveScore: Vec,
                  negativeScore: seq<Vec>, weight: Vec, entityNorm: real, relationNorm: real): (r: StepLosses)
    requires StepInputsUsable(args, softmax, positiveScore, negativeScore, weight)
    ensures r.regularization.Some? <==> args.regularization != 0.0
    ensures r.regularization.None? ==> r.loss == (r.positive + r.negative) / 2.0
    ensures r.regularization.Some? ==> r.loss == (r.positive + r.negative) / 2.0 + r.regularization.value
  {
    var positive := SampleLoss(args.uniWeight, weight, Apply(logSigmoid, positiveScore));
    var negative := SampleLoss(args.uniWeight, weight, NegativeScores(args, logSigmoid, softmax, negativeScore));
    var loss := (positive + negative) / 2.0;
    if args.regularization != 0.0 then
      var reg := RegularizationTerm(args.regularization, entityNorm, relationNorm);
      StepLosses(positive, negative, loss + reg, Some(reg))
    else
      StepLosses(positive, negative, loss, None)
  }

  /** The dictionary `train_step` returns. */
  function TrainLog(l: StepLosses): (log: map<string, real>)
    ensures log.Keys == {"positive_sample_loss", "negative_sample_loss", "loss"} + (if l.regularization.Some? then {"regularization"} else {})
    ensures log["positive_sample_loss"] == l.positive && log["negative_sample_loss"] == l.negative && log["loss"] == l.loss
    ensures l.regularization.Some? ==> log["regularization"] == l.regularization.value
  {
    var base := map["positive_sample_loss" := l.positive, "negative_sample_loss" := l.negative, "loss" := l.loss];
    if l.regularization.Some? then base["regularization" := l.regularization.value] else base
  }

  /** `train_step`'s log: the loss is half the positive plus negative losses, plus the
      regularization exactly when the coefficient is non-zero, which is also exactly when the
      log carries a "regularization" entry. */
  lemma TrainLogShape(args: TrainArgs, logSigmoid: LogSigmoid, softmax: Softmax, positiveScore: Vec,
                      negativeScore: seq<Vec>, weight: Vec, entityNorm: real, relationNorm: real)
    requires StepInputsUsable(args, softmax, positiveScore, negativeScore, weight)
    ensures
      var log := TrainLog(Losses(args, logSigmoid, softmax, positiveScore, negativeScore, weight, entityNorm, relationNorm));
      && ("regularization" in log <==> args.regularization != 0.0)
      && log.Keys >= {"positive_sample_loss", "negative_sample_loss", "loss"}
      && |log.Keys| == (if args.regularization != 0.0 then 4 else 3)
      && log["loss"] == (log["positive_sample_loss"] + log["negative_sample_loss"]) / 2.0
                        + (if args.regularization != 0.0 then log["regularization"] else 0.0)
  {
    var l := Losses(args, logSigmoid, softmax, positiveScore, negativeScore, weight, entityNorm, relationNorm);
    var keys: set<string> := {"positive_sample_loss", "negative_sample_loss", "loss"};
    assert |keys| == 3;
    assert |keys + {"regularization"}| == 4 by {
      assert "regularization" !in keys;
    }
  }

  /** With a zero coefficient the embedding norms do not enter the step at all. */
  lemma NoRegularizationIgnoresNorms(args: TrainArgs, logSigmoid: LogSigmoid, softmax: Softmax, positiveScore: Vec,
                                     negativeScore: seq<Vec>, weight: Vec, e1: real, r1: real, e2: real, r2: real)
    requires StepInputsUsable(args, softmax, positiveScore, negativeScore, weight)
    requires args.regularization == 0.0
    ensures Losses(args, logSigmoid, softmax, positiveScore, negativeScore, weight, e1, r1)
         == Losses(args, logSigmoid, softmax, positiveScore, negativeScore, weight, e2, r2)
  {
  }

  /** A positive coefficient adds a non-negative term: the cubes of non-negative norms. */
  lemma RegularizationNonNegative(coefficient: real, entityNorm: real, relationNorm: real)
    requires coefficient >= 0.0 && entityNorm >= 0.0
    ensures RegularizationTerm(coefficient, entityNorm, relationNorm) >= 0.0
  {
    var a := Abs(relationNorm);
    assert entityNorm * entityNorm * entityNorm >= 0.0;
    assert a * a * a >= 0.0;
  }

  /** Sum(w * s) with every weight equal to one is Sum(s). */
  lemma {:induction false} SumUnitProducts(weight: Vec, score: Vec)
    requires |weight| == |score|
    requires forall k :: 0 <= k < |weight| ==> weight[k] == 1.0
    ensures Sum(Mul(weight, score)) == Sum(score)
  {
    if |weight| > 0 {
      var n := |weight| - 1;
      var ws := Mul(weight, score);
      assert ws[..n] == Mul(weight[..n], score[..n]) by {
        forall k | 0 <= k < n ensures ws[..n][k] == Mul(weight[..n], score[..n])[k] {
        }
      }
      SumUnitProducts(weight[..n], score[..n]);
    }
  }

  /** A row of n weights all equal to one sums to n. */
  lemma {:induction false} SumUnit(weight: Vec)
    requires forall k :: 0 <= k < |weight| ==> weight[k] == 1.0
    ensures Sum(weight) == |weight| as real
  {
    if |weight| > 0 {
      SumUnit(weight[..|weight| - 1]);
    }
  }

  /** The two branches differ only in sign: with all subsampling weights equal to one, the
      weighted loss is the negation of the `uni_weight` loss, which the source does not negate. */
  lemma UnitWeightsNegateUniLoss(weight: Vec, score: Vec)
    requires |weight| == |score| > 0
    requires forall k :: 0 <= k < |weight| ==> weight[k] == 1.0
    ensures Sum(weight) != 0.0
    ensures SampleLoss(false, weight, score) == -SampleLoss(true, weight, score)
  {
    SumUnitProducts(weight, score);
    SumUnit(weight);
  }

  /** Since `logsigmoid` is never positive, the `uni_weight` positive loss is never positive,
      while the weighted one, under positive weights, is never negative. */
  lemma PositiveLossSigns(logSigmoid: LogSigmoid, weight: Vec, positiveScore: Vec)
    requires |weight| == |positiveScore| > 0
    requires forall x :: logSigmoid(x) <= 0.0
    requires forall k :: 0 <= k < |weight| ==> weight[k] > 0.0
    ensures Sum(weight) > 0.0
    ensures SampleLoss(true, weight, Apply(logSigmoid, positiveScore)) <= 0.0
    ensures SampleLoss(false, weight, Apply(logSigmoid, positiveScore)) >= 0.0
  {
    var s := Apply(logSigmoid, positiveScore);
    SumPositive(weight);
    forall k | 0 <= k < |s| ensures s[k] <= 0.0 {
      var x := positiveScore[k];
      assert logSigmoid(x) <= 0.0;
      assert s[k] == logSigmoid(x);
    }
    MeanBounds(s, MinOf(s), 0.0);
    var zero := seq(|weight|, k requires 0 <= k < |weight| => 0.0);
    forall k | 0 <= k < |weight| ensures Mul(weight, s)[k] <= zero[k] {
      NonPositiveProduct(weight[k], s[k]);
    }
    SumMonotone(Mul(weight, s), zero);
    SumBounds(zero, 0.0, 0.0);
    var w := Sum(weight);
    var ws := Sum(Mul(weight, s));
    assert (ws / w) * w == ws;
  }

  lemma NonPositiveProduct(w: real, x: real)
    requires w > 0.0 && x <= 0.0
    ensures w * x <= 0.0
  {
  }

  /** The smallest entry of a non-empty row (a lower bound to pass to `MeanBounds`). */
  function MinOf(v: Vec): (m: real)
    requires |v| > 0
    ensures forall k :: 0 <= k < |v| ==> m <= v[k]
  {
    if |v| == 1 then v[0]
    else var rest := MinOf(v[1..]); if v[0] <= rest then v[0] else rest
  }

  lemma {:induction false} SumPositive(v: Vec)
    requires |v| > 0
    requires forall k :: 0 <= k < |v| ==> v[k] > 0.0
    ensures Sum(v) > 0.0
  {
    if |v| > 1 {
      SumPositive(v[..|v| - 1]);
    } else {
      assert v[..0] == [];
    }
  }
}
