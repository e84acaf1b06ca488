/**
 * The evaluation of `test_step`: every test triple is scored against all entities once with
 * its head corrupted and once with its tail corrupted; each row of scores plus its filter
 * bias (an input row of the same width) is sorted, the true entity's rank is read off, and
 * five metrics are averaged over all examples of both directions.
 *
 * As written, the model call at codes/model.py:469 does not match the signature of `forward`
 * and raises on the first batch, so `test_step` never returns metrics. This module models
 * the evaluation that call was meant to feed: the score rows are inputs. The sort is the
 * parameter `argsort`; the lemmas assume of it only what `torch.argsort(..., descending=True)`
 * promises.
 */
module Evaluation {
  import opened Wrappers
  import opened Errors
  import opened Modes
  import opened Vectors
  import opened Ranking
  import Forward

  /** One log entry of `test_step`, and also the shape of its final averages. */
  datatype Metrics = Metrics(mrr: real, mr: real, hits1: real, hits3: real, hits10: real)

  /** The keys of a log entry. */
  datatype Key = MRR | MR | Hits1 | Hits3 | Hits10

  function Get(m: Metrics, k: Key): real {
    match k
    case MRR => m.mrr
    case MR => m.mr
    case Hits1 => m.hits1
    case Hits3 => m.hits3
    case Hits10 => m.hits10
  }

  /** One batch of a test loader, with the score rows the model produced for it. */
  datatype Batch = Batch(
    positives: seq<Forward.Triple>,
    score: seq<seq<real>>,
    filterBias: seq<seq<real>>,
    mode: string)

  /** Tensor shapes of one batch: a score row and an equally wide bias row per positive. */
  ghost predicate WellShaped(b: Batch) {
    && |b.score| == |b.positives|
    && |b.filterBias| == |b.positives|
    && forall i :: 0 <= i < |b.score| ==> |b.filterBias[i]| == |b.score[i]|
  }

  ghost predicate AllShaped(bs: seq<Batch>) {
    forall j :: 0 <= j < |bs| ==> WellShaped(bs[j])
  }

  /** `torch.argsort(row, descending=True)`, supplied from outside. */
  type Argsort = seq<real> -> seq<int>

  /** What the lemmas assume of the sort: it returns a descending argsort of every row. */
  ghost predicate SortsDescending(argsort: Argsort) {
    forall row :: IsDescendingArgsort(argsort(row), row)
  }

  // ---------------------------------------------------------------------------
  // One example
  // ---------------------------------------------------------------------------

  /** The log entry of one example with the given rank. */
  function ExampleMetrics(rank: nat): (m: Metrics)
    requires rank >= 1
    ensures m.mr == rank as real && m.mrr * m.mr == 1.0
    ensures (m.hits1 == 1.0 <==> rank <= 1) && (m.hits1 == 0.0 <==> rank > 1)
    ensures (m.hits3 == 1.0 <==> rank <= 3) && (m.hits3 == 0.0 <==> rank > 3)
    ensures (m.hits10 == 1.0 <==> rank <= 10) && (m.hits10 == 0.0 <==> rank > 10)
  {
    Metrics(
      1.0 / rank as real,
      rank as real,
      if rank <= 1 then 1.0 else 0.0,
      if rank <= 3 then 1.0 else 0.0,
      if rank <= 10 then 1.0 else 0.0)
  }

  /** The bounds a log entry, or an average of log entries, keeps when ranks are at most n. */
  ghost predicate InBounds(m: Metrics, n: nat) {
    && n >= 1
    && 1.0 / n as real <= m.mrr <= 1.0
    && 1.0 <= m.mr <= n as real
    && 0.0 <= m.hits1 <= m.hits3 <= m.hits10 <= 1.0
  }

  /** A rank in [1, n] gives a reciprocal rank in [1/n, 1] and nested hits. */
  lemma ExampleInBounds(rank: nat, n: nat)
    requires 1 <= rank <= n
    ensures InBounds(ExampleMetrics(rank), n)
  {
    var r := rank as real;
    var m := ExampleMetrics(rank);
    assert m.mrr == 1.0 / r;
    assert 1.0 / n as real <= 1.0 / r by {
      assert (n as real) * (1.0 / n as real) == 1.0;
      assert r * (1.0 / r) == 1.0;
    }
  }

  // ---------------------------------------------------------------------------
  // One batch
  // ---------------------------------------------------------------------------

  /** The mode check of `test_step`: only the two corruption directions are evaluated. */
  function BatchMode(mode: string): (r: Result<Mode, Error>)
    ensures r.Success? <==> mode == "head-batch" || mode == "tail-batch"
    ensures r.Success? ==> r.value != Single && ModeName(r.value) == mode
    ensures r.Failure? ==> r.error == UnsupportedMode(mode)
  {
    if mode == "head-batch" then Success(HeadBatch)
    else if mode == "tail-batch" then Success(TailBatch)
    else Failure(UnsupportedMode(mode))
  }

  /** `positive_sample[:, 0]` for head-batch, `positive_sample[:, 2]` for tail-batch. */
  function TrueId(t: Forward.Triple, m: Mode): int {
    if m == HeadBatch then t.head else t.tail
  }

  /** The rank of row i: the true entity's position in the sorted biased scores, plus one. */
  function RowRank(b: Batch, m: Mode, argsort: Argsort, i: nat): Result<nat, Error>
    requires WellShaped(b) && i < |b.positives|
  {
    RankOf(argsort(Add(b.score[i], b.filterBias[i])), TrueId(b.positives[i], m))
  }

  /** The log entries of the first k rows, or the first row's failure. */
  function RowLogs(b: Batch, m: Mode, argsort: Argsort, k: nat): Result<seq<Metrics>, Error>
    requires WellShaped(b) && k <= |b.positives|
  {
    if k == 0 then Success([])
    else match RowLogs(b, m, argsort, k - 1)
      case Failure(e) => Failure(e)
      case Success(logs) =>
        match RowRank(b, m, argsort, k - 1)
        case Failure(e) => Failure(e)
        case Success(rank) => Success(logs + [ExampleMetrics(rank)])
  }

  /** All log entries one batch appends. */
  function BatchLogs(b: Batch, argsort: Argsort): Result<seq<Metrics>, Error>
    requires WellShaped(b)
  {
    match BatchMode(b.mode)
    case Failure(e) => Failure(e)
    case Success(m) => RowLogs(b, m, argsort, |b.positives|)
  }

  /** Once a row fails, the batch fails with that row's error. */
  lemma {:induction false} RowLogsStuck(b: Batch, m: Mode, argsort: Argsort, i: nat, k: nat)
    requires WellShaped(b) && i <= k <= |b.positives|
    requires RowLogs(b, m, argsort, i).Failure?
    ensures RowLogs(b, m, argsort, k) == RowLogs(b, m, argsort, i)
    decreases k
  {
    if k > i {
      RowLogsStuck(b, m, argsort, i, k - 1);
    }
  }

  /** Row by row: the rows' logs exist exactly when every row has a rank, and then entry i
      is the metrics of row i's rank. */
  lemma {:induction false} RowLogsPointwise(b: Batch, m: Mode, argsort: Argsort, k: nat)
    requires WellShaped(b) && k <= |b.positives|
    ensures RowLogs(b, m, argsort, k).Success? <==> forall i :: 0 <= i < k ==> RowRank(b, m, argsort, i).Success?
    ensures RowLogs(b, m, argsort, k).Success? ==>
      && |RowLogs(b, m, argsort, k).value| == k
      && forall i :: 0 <= i < k ==> RowLogs(b, m, argsort, k).value[i] == ExampleMetrics(RowRank(b, m, argsort, i).value)
  {
    if k > 0 {
      RowLogsPointwise(b, m, argsort, k - 1);
    }
  }

  /** The ranking loop over the rows of one batch. */
  method RankBatch(b: Batch, argsort: Argsort) returns (r: Result<seq<Metrics>, Error>)
    requires WellShaped(b)
    ensures r == BatchLogs(b, argsort)
  {
    var m: Mode;
    if b.mode == "head-batch" {
      m := HeadBatch;
    } else if b.mode == "tail-batch" {
      m := TailBatch;
    } else {
      return Failure(UnsupportedMode(b.mode));
    }
    var logs: seq<Metrics> := [];
    var i := 0;
    while i < |b.positives|
      invariant 0 <= i <= |b.positives|
      invariant RowLogs(b, m, argsort, i) == Success(logs)
    {
      var ranking := RankOf(argsort(Add(b.score[i], b.filterBias[i])), TrueId(b.positives[i], m));
      if ranking.Failure? {
        RowLogsStuck(b, m, argsort, i + 1, |b.positives|);
        return Failure(ranking.error);
      }
      logs := logs + [ExampleMetrics(ranking.value)];
      i := i + 1;
    }
    return Success(logs);
  }

  /** Everything a batch needs to rank cleanly against n entities: a supported mode, rows of
      width n, and true ids among the n entities. */
  ghost predicate Rankable(b: Batch, n: nat) {
    && WellShaped(b)
    && BatchMode(b.mode).Success?
    && forall i :: 0 <= i < |b.positives| ==>
         |b.score[i]| == n && 0 <= TrueId(b.positives[i], BatchMode(b.mode).value) < n
  }

  /** Under a descending argsort, a rankable batch never trips the uniqueness assertion, and
      every rank it logs lies in [1, n]. */
  lemma BatchRanksInRange(b: Batch, argsort: Argsort, n: nat)
    requires SortsDescending(argsort) && Rankable(b, n)
    ensures BatchLogs(b, argsort).Success?
    ensures |BatchLogs(b, argsort).value| == |b.positives|
    ensures forall i :: 0 <= i < |b.positives| ==> InBounds(BatchLogs(b, argsort).value[i], n)
  {
    var m := BatchMode(b.mode).value;
    forall i | 0 <= i < |b.positives|
      ensures RowRank(b, m, argsort, i).Success? && 1 <= RowRank(b, m, argsort, i).value <= n
    {
      var row := Add(b.score[i], b.filterBias[i]);
      assert IsDescendingArgsort(argsort(row), row);
      PermutationRank(argsort(row), |row|, TrueId(b.positives[i], m));
    }
    RowLogsPointwise(b, m, argsort, |b.positives|);
    forall i | 0 <= i < |b.positives| ensures InBounds(BatchLogs(b, argsort).value[i], n) {
      ExampleInBounds(RowRank(b, m, argsort, i).value, n);
    }
  }

  // ---------------------------------------------------------------------------
  // All batches of both loaders
  // ---------------------------------------------------------------------------

  /** The logs of a sequence of batches, stopping at the first failure. */
  function AllLogs(batches: seq<Batch>, argsort: Argsort): Result<seq<Metrics>, Error>
    requires AllShaped(batches)
  {
    if |batches| == 0 then Success([])
    else Combine(AllLogs(batches[..|batches| - 1], argsort), BatchLogs(batches[|batches| - 1], argsort))
  }

  /** Appending the logs of two runs; the first failure wins. */
  function Combine(a: Result<seq<Metrics>, Error>, b: Result<seq<Metrics>, Error>): (r: Result<seq<Metrics>, Error>)
    ensures r.Success? <==> a.Success? && b.Success?
    ensures a.Failure? ==> r == a
    ensures a.Success? && b.Failure? ==> r == b
    ensures r.Success? ==> r.value == a.value + b.value
  {
    match a
    case Failure(e) => Failure(e)
    case Success(x) =>
      match b
      case Failure(e) => Failure(e)
      case Success(y) => Success(x + y)
  }

  lemma CombineAssociative(a: Result<seq<Metrics>, Error>, b: Result<seq<Metrics>, Error>, c: Result<seq<Metrics>, Error>)
    ensures Combine(Combine(a, b), c) == Combine(a, Combine(b, c))
  {
    if a.Success? && b.Success? && c.Success? {
      assert (a.value + b.value) + c.value == a.value + (b.value + c.value);
    }
  }

  /** Evaluating two runs of batches one after the other appends their logs. */
  lemma {:induction false} AllLogsAppend(s: seq<Batch>, t: seq<Batch>, argsort: Argsort)
    requires AllShaped(s) && AllShaped(t)
    ensures AllShaped(s + t)
    ensures AllLogs(s + t, argsort) == Combine(AllLogs(s, argsort), AllLogs(t, argsort))
    decreases |t|
  {
    assert AllShaped(s + t) by {
      forall j | 0 <= j < |s + t| ensures WellShaped((s + t)[j]) {
        if j >= |s| {
          assert (s + t)[j] == t[j - |s|];
        }
      }
    }
    if |t| == 0 {
      assert s + t == s;
      match AllLogs(s, argsort)
      case Failure(_) =>
      case Success(x) => assert x + [] == x;
    } else {
      var t' := t[..|t| - 1];
      var last := t[|t| - 1];
      assert AllShaped(t');
      AllLogsAppend(s, t', argsort);
      assert (s + t)[..|s + t| - 1] == s + t';
      assert (s + t)[|s + t| - 1] == last;
      CombineAssociative(AllLogs(s, argsort), AllLogs(t', argsort), BatchLogs(last, argsort));
    }
  }

  /** Number of examples in a run of batches. */
  function Examples(batches: seq<Batch>): nat {
    if |batches| == 0 then 0 else Examples(batches[..|batches| - 1]) + |batches[|batches| - 1].positives|
  }

  /** A run of batches that evaluates cleanly logs one entry per example. */
  lemma {:induction false} AllLogsCount(batches: seq<Batch>, argsort: Argsort)
    requires AllShaped(batches)
    requires AllLogs(batches, argsort).Success?
    ensures |AllLogs(batches, argsort).value| == Examples(batches)
  {
    if |batches| > 0 {
      var b := batches[|batches| - 1];
      assert AllShaped(batches[..|batches| - 1]);
      AllLogsCount(batches[..|batches| - 1], argsort);
      RowLogsPointwise(b, BatchMode(b.mode).value, argsort, |b.positives|);
    }
  }

  /** Rankable batches under a descending argsort evaluate cleanly, within bounds. */
  lemma {:induction false} AllLogsInBounds(batches: seq<Batch>, argsort: Argsort, n: nat)
    requires SortsDescending(argsort)
    requires forall j :: 0 <= j < |batches| ==> Rankable(batches[j], n)
    ensures AllShaped(batches)
    ensures AllLogs(batches, argsort).Success?
    ensures forall k :: 0 <= k < |AllLogs(batches, argsort).value| ==> InBounds(AllLogs(batches, argsort).value[k], n)
  {
    assert AllShaped(batches) by {
      forall j | 0 <= j < |batches| ensures WellShaped(batches[j]) {
        assert Rankable(batches[j], n);
      }
    }
    if |batches| > 0 {
      var init := batches[..|batches| - 1];
      var b := batches[|batches| - 1];
      assert forall j :: 0 <= j < |init| ==> Rankable(init[j], n) by {
        forall j | 0 <= j < |init| ensures Rankable(init[j], n) {
          assert init[j] == batches[j];
        }
      }
      AllLogsInBounds(init, argsort, n);
      BatchRanksInRange(b, argsort, n);
      assert AllLogs(batches, argsort) == Combine(AllLogs(init, argsort), BatchLogs(b, argsort));
      var x := AllLogs(init, argsort).value;
      var y := BatchLogs(b, argsort).value;
      forall k | 0 <= k < |x + y| ensures InBounds((x + y)[k], n) {
        if k >= |x| {
          assert (x + y)[k] == y[k - |x|];
        }
      }
    }
  }

  // ---------------------------------------------------------------------------
  // Averages
  // ---------------------------------------------------------------------------

  /** `[log[metric] for log in logs]`. */
  function Column(logs: seq<Metrics>, k: Key): (v: Vec)
    ensures |v| == |logs|
  {
    seq(|logs|, i requires 0 <= i < |logs| => Get(logs[i], k))
  }

  /** `sum(...) / len(logs)` per metric; no logs fails on `logs[0]`. */
  function Aggregate(logs: seq<Metrics>): (r: Result<Metrics, Error>)
    ensures r.Failure? <==> |logs| == 0
    ensures r.Failure? ==> r.error == NoExamples
  {
    if |logs| == 0 then Failure(NoExamples)
    else Success(Metrics(
      Mean(Column(logs, MRR)),
      Mean(Column(logs, MR)),
      Mean(Column(logs, Hits1)),
      Mean(Column(logs, Hits3)),
      Mean(Column(logs, Hits10))))
  }

  /** Averaging keeps the bounds of the entries, and the nesting of the hits. */
  lemma AggregateInBounds(logs: seq<Metrics>, n: nat)
    requires |logs| > 0 && n >= 1
    requires forall k :: 0 <= k < |logs| ==> InBounds(logs[k], n)
    ensures InBounds(Aggregate(logs).value, n)
  {
    MeanBounds(Column(logs, MRR), 1.0 / n as real, 1.0);
    MeanBounds(Column(logs, MR), 1.0, n as real);
    MeanBounds(Column(logs, Hits1), 0.0, 1.0);
    MeanBounds(Column(logs, Hits10), 0.0, 1.0);
    MeanMonotone(Column(logs, Hits1), Column(logs, Hits3));
    MeanMonotone(Column(logs, Hits3), Column(logs, Hits10));
  }

  /** The average of identical entries is that entry. */
  lemma AggregateConstant(logs: seq<Metrics>, m: Metrics)
    requires |logs| > 0
    requires forall k :: 0 <= k < |logs| ==> logs[k] == m
    ensures Aggregate(logs) == Success(m)
  {
    MeanBounds(Column(logs, MRR), m.mrr, m.mrr);
    MeanBounds(Column(logs, MR), m.mr, m.mr);
    MeanBounds(Column(logs, Hits1), m.hits1, m.hits1);
    MeanBounds(Column(logs, Hits3), m.hits3, m.hits3);
    MeanBounds(Column(logs, Hits10), m.hits10, m.hits10);
  }

  /** `test_step`: the logs of the head loader's batches, then the tail loader's, averaged. */
  function Evaluate(headLoader: seq<Batch>, tailLoader: seq<Batch>, argsort: Argsort): Result<Metrics, Error>
    requires AllShaped(headLoader) && AllShaped(tailLoader)
  {
    AllLogsAppend(headLoader, tailLoader, argsort);
    match AllLogs(headLoader + tailLoader, argsort)
    case Failure(e) => Failure(e)
    case Success(logs) => Aggregate(logs)
  }

  /** The final metrics weigh every example of both directions equally: they are the plain
      averages over the head loader's entries followed by the tail loader's. */
  lemma EvaluateAveragesAllExamples(headLoader: seq<Batch>, tailLoader: seq<Batch>, argsort: Argsort)
    requires AllShaped(headLoader) && AllShaped(tailLoader)
    requires Evaluate(headLoader, tailLoader, argsort).Success?
    ensures AllLogs(headLoader, argsort).Success? && AllLogs(tailLoader, argsort).Success?
    ensures
      var logs := AllLogs(headLoader, argsort).value + AllLogs(tailLoader, argsort).value;
      && |logs| == Examples(headLoader) + Examples(tailLoader) > 0
      && Evaluate(headLoader, tailLoader, argsort) == Aggregate(logs)
  {
    AllLogsAppend(headLoader, tailLoader, argsort);
    AllLogsCount(headLoader, argsort);
    AllLogsCount(tailLoader, argsort);
  }

  /** Two runs of in-bounds entries, not both empty, are in bounds together, and then n >= 1. */
  lemma ConcatInBounds(x: seq<Metrics>, y: seq<Metrics>, n: nat)
    requires |x| + |y| > 0
    requires forall k :: 0 <= k < |x| ==> InBounds(x[k], n)
    requires forall k :: 0 <= k < |y| ==> InBounds(y[k], n)
    ensures n >= 1
    ensures forall k :: 0 <= k < |x + y| ==> InBounds((x + y)[k], n)
  {
    if |x| > 0 { assert InBounds(x[0], n); } else { assert InBounds(y[0], n); }
    forall k | 0 <= k < |x + y| ensures InBounds((x + y)[k], n) {
      if k >= |x| {
        assert (x + y)[k] == y[k - |x|];
      }
    }
  }

  /** With rankable batches and a descending argsort, evaluation succeeds as soon as there is
      one example, and every final metric lies in its range. */
  lemma EvaluateInBounds(headLoader: seq<Batch>, tailLoader: seq<Batch>, argsort: Argsort, n: nat)
    requires SortsDescending(argsort)
    requires forall j :: 0 <= j < |headLoader| ==> Rankable(headLoader[j], n)
    requires forall j :: 0 <= j < |tailLoader| ==> Rankable(tailLoader[j], n)
    requires Examples(headLoader) + Examples(tailLoader) > 0
    ensures AllShaped(headLoader) && AllShaped(tailLoader)
    ensures Evaluate(headLoader, tailLoader, argsort).Success?
    ensures InBounds(Evaluate(headLoader, tailLoader, argsort).value, n)
  {
    AllLogsInBounds(headLoader, argsort, n);
    AllLogsInBounds(tailLoader, argsort, n);
    AllLogsAppend(headLoader, tailLoader, argsort);
    AllLogsCount(headLoader, argsort);
    AllLogsCount(tailLoader, argsort);
    var x := AllLogs(headLoader, argsort).value;
    var y := AllLogs(tailLoader, argsort).value;
    ConcatInBounds(x, y, n);
    assert AllLogs(headLoader + tailLoader, argsort) == Success(x + y);
    AggregateInBounds(x + y, n);
  }

  // ---------------------------------------------------------------------------
  // The loops of test_step
  // ---------------------------------------------------------------------------

  /** The batches of a list of loaders, in order. */
  function Flatten(loaders: seq<seq<Batch>>): seq<Batch> {
    if |loaders| == 0 then [] else Flatten(loaders[..|loaders| - 1]) + loaders[|loaders| - 1]
  }

  /** Once a batch fails after clean ones, the run's logs are that batch's failure. */
  lemma AllLogsFailAt(loader: seq<Batch>, argsort: Argsort, i: nat)
    requires AllShaped(loader) && i < |loader|
    requires AllLogs(loader[..i], argsort).Success? && BatchLogs(loader[i], argsort).Failure?
    ensures AllLogs(loader, argsort) == BatchLogs(loader[i], argsort)
  {
    var front, back := loader[..i + 1], loader[i + 1..];
    AllShapedSlice(loader, 0, i + 1);
    AllShapedSlice(loader, i + 1, |loader|);
    assert front[..i] == loader[..i] && front[|front| - 1] == loader[i];
    assert AllLogs(front, argsort) == BatchLogs(loader[i], argsort);
    AllLogsAppend(front, back, argsort);
    assert loader == front + back;
  }

  lemma AllShapedSlice(s: seq<Batch>, lo: nat, hi: nat)
    requires AllShaped(s) && lo <= hi <= |s|
    ensures AllShaped(s[lo..hi])
  {
    forall j | 0 <= j < hi - lo ensures WellShaped(s[lo..hi][j]) {
      assert s[lo..hi][j] == s[lo + j];
    }
  }

  /** The loop over one loader's batches. */
  method RankLoader(loader: seq<Batch>, argsort: Argsort) returns (r: Result<seq<Metrics>, Error>)
    requires AllShaped(loader)
    ensures r == AllLogs(loader, argsort)
  {
    var logs: seq<Metrics> := [];
    var i := 0;
    while i < |loader|
      invariant 0 <= i <= |loader|
      invariant AllShaped(loader[..i])
      invariant AllLogs(loader[..i], argsort) == Success(logs)
    {
      assert loader[..i + 1][..i] == loader[..i];
      assert AllShaped(loader[..i + 1]);
      var more := RankBatch(loader[i], argsort);
      if more.Failure? {
        AllLogsFailAt(loader, argsort, i);
        return more;
      }
      logs := logs + more.value;
      i := i + 1;
    }
    assert loader[..i] == loader;
    return Success(logs);
  }

  /** `test_step`: rank every example of the head loader and then of the tail loader, and
      average the logs. */
  method TestStep(headLoader: seq<Batch>, tailLoader: seq<Batch>, argsort: Argsort) returns (r: Result<Metrics, Error>)
    requires AllShaped(headLoader) && AllShaped(tailLoader)
    ensures r == Evaluate(headLoader, tailLoader, argsort)
  {
    var loaders := [headLoader, tailLoader];
    assert Flatten(loaders[..0]) == [];
    assert Flatten(loaders[..1]) == headLoader by {
      assert loaders[..1][..0] == [];
    }
    assert Flatten(loaders[..2]) == headLoader + tailLoader by {
      assert loaders[..2][..1] == loaders[..1];
    }
    AllLogsAppend(headLoader, tailLoader, argsort);
    var logs: seq<Metrics> := [];
    var l := 0;
    while l < 2
      invariant 0 <= l <= 2
      invariant AllShaped(Flatten(loaders[..l]))
      invariant AllLogs(Flatten(loaders[..l]), argsort) == Success(logs)
    {
      var more := RankLoader(loaders[l], argsort);
      AllLogsAppend(Flatten(loaders[..l]), loaders[l], argsort);
      assert Flatten(loaders[..l + 1]) == Flatten(loaders[..l]) + loaders[l] by {
        assert loaders[..l + 1][..l] == loaders[..l];
      }
      if more.Failure? {
        if l == 0 {
          AllLogsAppend(headLoader, tailLoader, argsort);
        }
        return Failure(more.error);
      }
      logs := logs + more.value;
      l := l + 1;
    }
    r := Aggregate(logs);
  }

  // ---------------------------------------------------------------------------
  // A perfect model
  // ---------------------------------------------------------------------------

  /** The entity x scores strictly above every other entity of the row. */
  ghost predicate StrictlyFirst(row: seq<real>, x: int) {
    && 0 <= x < |row|
    && forall y :: 0 <= y < |row| && y != x ==> row[y] < row[x]
  }

  /** Every example's true entity scores strictly above every other entity after biasing. */
  ghost predicate TopRanked(b: Batch, n: nat) {
    && Rankable(b, n)
    && forall i :: 0 <= i < |b.positives| ==>
         StrictlyFirst(Add(b.score[i], b.filterBias[i]), TrueId(b.positives[i], BatchMode(b.mode).value))
  }

  /** The metrics of rank 1. */
  const Perfect: Metrics := Metrics(1.0, 1.0, 1.0, 1.0, 1.0)

  /** In a batch whose true entities all come strictly first, every rank is 1. */
  lemma BatchLogsPerfect(b: Batch, argsort: Argsort, n: nat)
    requires SortsDescending(argsort) && TopRanked(b, n)
    ensures BatchLogs(b, argsort).Success?
    ensures forall k :: 0 <= k < |BatchLogs(b, argsort).value| ==> BatchLogs(b, argsort).value[k] == Perfect
  {
    var m := BatchMode(b.mode).value;
    forall i | 0 <= i < |b.positives| ensures RowRank(b, m, argsort, i) == Success(1) {
      var row := Add(b.score[i], b.filterBias[i]);
      assert IsDescendingArgsort(argsort(row), row);
      TopScoreRanksFirst(argsort(row), row, TrueId(b.positives[i], m));
    }
    RowLogsPointwise(b, m, argsort, |b.positives|);
  }

  lemma {:induction false} TopRankedLogsPerfect(batches: seq<Batch>, argsort: Argsort, n: nat)
    requires SortsDescending(argsort)
    requires forall j :: 0 <= j < |batches| ==> TopRanked(batches[j], n)
    ensures AllShaped(batches)
    ensures AllLogs(batches, argsort).Success?
    ensures forall k :: 0 <= k < |AllLogs(batches, argsort).value| ==> AllLogs(batches, argsort).value[k] == Perfect
  {
    assert AllShaped(batches) by {
      forall j | 0 <= j < |batches| ensures WellShaped(batches[j]) {
        assert TopRanked(batches[j], n);
      }
    }
    if |batches| > 0 {
      var init := batches[..|batches| - 1];
      var b := batches[|batches| - 1];
      assert forall j :: 0 <= j < |init| ==> TopRanked(init[j], n) by {
        forall j | 0 <= j < |init| ensures TopRanked(init[j], n) {
          assert init[j] == batches[j];
        }
      }
      TopRankedLogsPerfect(init, argsort, n);
      assert AllLogs(batches, argsort) == Combine(AllLogs(init, argsort), BatchLogs(b, argsort));
      BatchLogsPerfect(b, argsort, n);
      var x := AllLogs(init, argsort).value;
      var y := BatchLogs(b, argsort).value;
      forall k | 0 <= k < |x + y| ensures (x + y)[k] == Perfect {
        if k >= |x| {
          assert (x + y)[k] == y[k - |x|];
        }
      }
    }
  }

  /** A model that ranks every true entity strictly first scores MRR = MR = HITS@k = 1. */
  lemma PerfectModelPerfectMetrics(headLoader: seq<Batch>, tailLoader: seq<Batch>, argsort: Argsort, n: nat)
    requires SortsDescending(argsort)
    requires forall j :: 0 <= j < |headLoader| ==> TopRanked(headLoader[j], n)
    requires forall j :: 0 <= j < |tailLoader| ==> TopRanked(tailLoader[j], n)
    requires Examples(headLoader) + Examples(tailLoader) > 0
    ensures AllShaped(headLoader) && AllShaped(tailLoader)
    ensures Evaluate(headLoader, tailLoader, argsort) == Success(Perfect)
  {
    TopRankedLogsPerfect(headLoader, argsort, n);
    TopRankedLogsPerfect(tailLoader, argsort, n);
    AllLogsAppend(headLoader, tailLoader, argsort);
    AllLogsCount(headLoader, argsort);
    AllLogsCount(tailLoader, argsort);
    var x := AllLogs(headLoader, argsort).value;
    var y := AllLogs(tailLoader, argsort).value;
    forall k | 0 <= k < |x + y| ensures (x + y)[k] == Perfect {
      if k >= |x| {
        assert (x + y)[k] == y[k - |x|];
      }
    }
    AggregateConstant(x + y, Perfect);
  }
}
