/**
 * `KGEModel.forward`: mode dispatch, the embedding gathers, the per-example time-token
 * loop, and the call of the configured scorer.
 *
 * As written, `forward` calls every scorer with five arguments (head, relation, tem, tail,
 * mode). Only TATransE and TADistMult take five; TransE, DistMult, ComplEx, RotatE and
 * pRotatE take four and fail with a TypeError, which the model keeps as `ArgumentCount`.
 */
module Forward {
  import opened Wrappers
  import opened Errors
  import opened Modes
  import opened Vectors
  import opened Scorers
  import opened Config

  type Row = Vec

  /** One row of `sample_triple`: (head id, relation id, tail id). */
  datatype Triple = Triple(head: int, relation: int, tail: int)

  /** The three parameter tables of a model. */
  datatype Tables = Tables(entity: seq<Row>, relation: seq<Row>, tem: seq<Row>)

  ghost predicate RowsOf(t: seq<Row>, count: nat, width: nat) {
    |t| == count && forall i :: 0 <= i < |t| ==> |t[i]| == width
  }

  /** The tables have the shapes construction gives them. */
  ghost predicate TablesFit(c: KGEConfig, t: Tables) {
    && RowsOf(t.entity, c.nentity, c.entityDim)
    && RowsOf(t.relation, c.nrelation, c.relationDim)
    && RowsOf(t.tem, c.ntem, c.temDim)
  }

  /** An id tensor of shape [rows, width]. */
  predicate Rectangular(m: seq<seq<int>>) {
    forall i :: 0 <= i < |m| ==> |m[i]| == |m[0]|
  }

  /** `m.size(1)` of a rectangular id tensor. */
  function Width(m: seq<seq<int>>): nat {
    if |m| == 0 then 0 else |m[0]|
  }

  /** A [rows, width] id tensor with at least one entry: `.view(rows, width, -1)` of the
      gathered rows can infer its last dimension only then. */
  predicate NonEmptyGrid(m: seq<seq<int>>) {
    |m| > 0 && Width(m) > 0
  }

  predicate InRange(ids: seq<int>, n: int) {
    forall k :: 0 <= k < |ids| ==> 0 <= ids[k] < n
  }

  predicate AllInRange(m: seq<seq<int>>, n: int) {
    forall i :: 0 <= i < |m| ==> InRange(m[i], n)
  }

  function HeadIds(s: seq<Triple>): seq<int> { seq(|s|, i requires 0 <= i < |s| => s[i].head) }
  function RelationIds(s: seq<Triple>): seq<int> { seq(|s|, i requires 0 <= i < |s| => s[i].relation) }
  function TailIds(s: seq<Triple>): seq<int> { seq(|s|, i requires 0 <= i < |s| => s[i].tail) }

  // ---------------------------------------------------------------------------
  // Gathers
  // ---------------------------------------------------------------------------

  /** The rows of `table` indexed by `ids`, in order. */
  function Gather(table: seq<Row>, ids: seq<int>): seq<Row>
    requires InRange(ids, |table|)
  {
    seq(|ids|, k requires 0 <= k < |ids| => table[ids[k]])
  }

  /** `torch.index_select(table, 0, ids)`: fails on any id outside the table. */
  function Select(table: seq<Row>, ids: seq<int>): (r: Result<seq<Row>, Error>)
    ensures r.Success? <==> InRange(ids, |table|)
    ensures r.Failure? ==> r.error == IndexOutOfRange
    ensures r.Success? ==> |r.value| == |ids| && forall k :: 0 <= k < |ids| ==> r.value[k] == table[ids[k]]
  {
    if InRange(ids, |table|) then Success(Gather(table, ids)) else Failure(IndexOutOfRange)
  }

  /** `index_select(...).unsqueeze(1)`: one gathered row per example, shape [batch, 1]. */
  function SelectFixed(table: seq<Row>, ids: seq<int>): (r: Result<seq<seq<Row>>, Error>)
    ensures r.Success? <==> InRange(ids, |table|)
    ensures r.Failure? ==> r.error == IndexOutOfRange
    ensures r.Success? ==> |r.value| == |ids| && forall i :: 0 <= i < |ids| ==> r.value[i] == [table[ids[i]]]
  {
    match Select(table, ids)
    case Failure(e) => Failure(e)
    case Success(rows) => Success(seq(|rows|, i requires 0 <= i < |rows| => [rows[i]]))
  }

  /** `m.view(-1)`: the ids of a [rows, width] tensor in row-major order. */
  function FlattenIds(m: seq<seq<int>>): seq<int> {
    if |m| == 0 then [] else FlattenIds(m[..|m| - 1]) + m[|m| - 1]
  }

  lemma {:induction false} MulMonotone(a: nat, b: nat, n: nat)
    requires a <= b
    ensures a * n <= b * n
    decreases b - a
  {
    if a < b {
      MulMonotone(a + 1, b, n);
      assert (a + 1) * n == a * n + n;
    }
  }

  /** `flat.view(b, n, -1)`: b rows of n, the last row being the last n entries. */
  function ViewRows(flat: seq<Row>, b: nat, n: nat): (r: seq<seq<Row>>)
    requires |flat| == b * n
    ensures |r| == b
  {
    if b == 0 then []
    else
      MulMonotone(1, b, n);
      assert (b - 1) * n == b * n - n;
      ViewRows(flat[..|flat| - n], b - 1, n) + [flat[|flat| - n..]]
  }

  lemma {:induction false} FlattenInRange(m: seq<seq<int>>, bound: int)
    ensures InRange(FlattenIds(m), bound) <==> AllInRange(m, bound)
  {
    if |m| > 0 {
      var b := |m| - 1;
      FlattenInRange(m[..b], bound);
      var front, flat := FlattenIds(m[..b]), FlattenIds(m);
      assert flat == front + m[b];
      if InRange(flat, bound) {
        forall k | 0 <= k < |front| ensures 0 <= front[k] < bound {
          assert front[k] == flat[k];
        }
        forall k | 0 <= k < |m[b]| ensures 0 <= m[b][k] < bound {
          assert m[b][k] == flat[|front| + k];
        }
        assert forall i :: 0 <= i < b ==> m[..b][i] == m[i];
      }
      if AllInRange(m, bound) {
        assert AllInRange(m[..b], bound) by {
          forall i | 0 <= i < b ensures InRange(m[..b][i], bound) {
            assert m[..b][i] == m[i];
          }
        }
        assert InRange(m[b], bound);
      }
    }
  }

  /** Gathering the flattened ids and viewing the rows as [b, n] gathers each row of ids. */
  lemma {:induction false} ViewOfFlatGather(table: seq<Row>, m: seq<seq<int>>, n: nat)
    requires forall i :: 0 <= i < |m| ==> |m[i]| == n
    requires AllInRange(m, |table|)
    ensures InRange(FlattenIds(m), |table|) && |FlattenIds(m)| == |m| * n
    ensures ViewRows(Gather(table, FlattenIds(m)), |m|, n)
         == seq(|m|, i requires 0 <= i < |m| => Gather(table, m[i]))
  {
    FlattenInRange(m, |table|);
    if |m| > 0 {
      var b := |m| - 1;
      ViewOfFlatGather(table, m[..b], n);
      var front, last := FlattenIds(m[..b]), m[b];
      assert FlattenIds(m) == front + last;
      assert |FlattenIds(m)| == |m| * n by {
        assert |m| * n == b * n + n;
      }
      var all := Gather(table, FlattenIds(m));
      assert all == Gather(table, front) + Gather(table, last);
      assert all[..|all| - n] == Gather(table, front);
      assert all[|all| - n..] == Gather(table, last);
    }
  }

  /**
   * `index_select(table, 0, negs.view(-1)).view(batch, N, -1)`: the candidate rows of
   * every example, gathered from the flattened negative ids. The gather checks the ids
   * first; the view then fails when batch · N is 0, as no last dimension can be inferred.
   */
  function SelectCandidates(table: seq<Row>, negs: seq<seq<int>>): (r: Result<seq<seq<Row>>, Error>)
    requires Rectangular(negs)
    ensures r.Success? <==> AllInRange(negs, |table|) && NonEmptyGrid(negs)
    ensures !AllInRange(negs, |table|) ==> r == Failure(IndexOutOfRange)
    ensures AllInRange(negs, |table|) && !NonEmptyGrid(negs) ==> r == Failure(EmptyView)
    ensures r.Success? ==>
      && |r.value| == |negs|
      && (forall i :: 0 <= i < |negs| ==> |r.value[i]| == Width(negs))
      && forall i, j :: 0 <= i < |negs| && 0 <= j < Width(negs) ==> r.value[i][j] == table[negs[i][j]]
  {
    var n := Width(negs);
    var flat := FlattenIds(negs);
    FlattenInRange(negs, |table|);
    match Select(table, flat)
    case Failure(e) => Failure(e)
    case Success(rows) =>
      if !NonEmptyGrid(negs) then Failure(EmptyView)
      else
        ViewOfFlatGather(table, negs, n);
        Success(ViewRows(rows, |negs|, n))
  }

  // ---------------------------------------------------------------------------
  // The time-token loop
  // ---------------------------------------------------------------------------

  ghost predicate IsTimeBlocks(blocks: seq<seq<Row>>, tem: seq<Row>, sampleTem: seq<seq<int>>) {
    && |blocks| == |sampleTem|
    && forall i :: 0 <= i < |blocks| ==>
         && |blocks[i]| == |sampleTem[i]|
         && forall k :: 0 <= k < |blocks[i]| ==> 0 <= sampleTem[i][k] < |tem| && blocks[i][k] == tem[sampleTem[i][k]]
  }

  /**
   * The loop of `forward` that builds `tem`: for each example it gathers the time rows its
   * token ids name and concatenates the block onto an accumulator that starts as None, so
   * an empty batch leaves `tem` None.
   */
  method GatherTimeBlocks(tem: seq<Row>, sampleTem: seq<seq<int>>) returns (r: Result<Option<seq<seq<Row>>>, Error>)
    ensures r.Success? <==> AllInRange(sampleTem, |tem|)
    ensures r.Failure? ==> r.error == IndexOutOfRange
    ensures r.Success? ==> (r.value.None? <==> |sampleTem| == 0)
    ensures r.Success? && r.value.Some? ==> IsTimeBlocks(r.value.value, tem, sampleTem)
  {
    var acc: Option<seq<seq<Row>>> := None;
    var i := 0;
    while i < |sampleTem|
      invariant 0 <= i <= |sampleTem|
      invariant forall j :: 0 <= j < i ==> InRange(sampleTem[j], |tem|)
      invariant acc.None? <==> i == 0
      invariant acc.Some? ==> IsTimeBlocks(acc.value, tem, sampleTem[..i])
    {
      var cur := Select(tem, sampleTem[i]);
      if cur.Failure? {
        return Failure(cur.error);
      }
      if acc.None? {
        acc := Some([cur.value]);
      } else {
        acc := Some(acc.value + [cur.value]);
      }
      i := i + 1;
    }
    assert sampleTem[..i] == sampleTem;
    return Success(acc);
  }

  // ---------------------------------------------------------------------------
  // Scoring a batch
  // ---------------------------------------------------------------------------

  predicate Temporal(m: ModelName) {
    m == TATransE || m == TADistMult
  }

  /** One cell of the score tensor of a temporal scorer. */
  function TemporalScore(c: KGEConfig, lstm: Encoder, head: Row, relation: Row, tem: seq<Row>, tail: Row, m: Mode): real
    requires Temporal(c.name)
    requires |head| == |tail| && Broadcastable(|head|, |Rseq(lstm, relation, tem)|)
  {
    if c.name == TATransE then Scorers.TATransE(c.gamma, lstm, head, relation, tem, tail, m)
    else Scorers.TADistMult(lstm, head, relation, tem, tail, m)
  }

  /** `negative_sample_size`: 1 in single mode, `negative_sample.size(1)` otherwise. */
  function NegativeSampleSize(m: Mode, negs: seq<seq<int>>): nat {
    if m == Single then 1 else Width(negs)
  }

  /** The entity id scored as head of cell (i, j): a candidate in head-batch mode. */
  function HeadIdAt(m: Mode, sample: seq<Triple>, negs: seq<seq<int>>, i: nat, j: nat): int
    requires i < |sample| && (m == HeadBatch ==> i < |negs| && j < |negs[i]|)
  {
    if m == HeadBatch then negs[i][j] else sample[i].head
  }

  /** The entity id scored as tail of cell (i, j): a candidate in tail-batch mode. */
  function TailIdAt(m: Mode, sample: seq<Triple>, negs: seq<seq<int>>, i: nat, j: nat): int
    requires i < |sample| && (m == TailBatch ==> i < |negs| && j < |negs[i]|)
  {
    if m == TailBatch then negs[i][j] else sample[i].tail
  }

  /** Every id the mode reads is inside its table; head-batch never reads the sample's heads,
      tail-batch never reads its tails. */
  predicate IdsInRange(c: KGEConfig, m: Mode, sample: seq<Triple>, sampleTem: seq<seq<int>>, negs: seq<seq<int>>) {
    && (forall i :: 0 <= i < |sample| ==> 0 <= sample[i].relation < c.nrelation)
    && AllInRange(sampleTem, c.ntem)
    && (if m == HeadBatch then AllInRange(negs, c.nentity)
        else forall i :: 0 <= i < |sample| ==> 0 <= sample[i].head < c.nentity)
    && (if m == TailBatch then AllInRange(negs, c.nentity)
        else forall i :: 0 <= i < |sample| ==> 0 <= sample[i].tail < c.nentity)
  }

  /** The broadcast of [batch, 1] against [batch, N]: column j of a fixed operand is column 0. */
  function Col(rows: seq<Row>, j: nat): Row {
    if j < |rows| then rows[j] else if |rows| > 0 then rows[0] else []
  }

  /** The encoded relation of every example broadcasts against the entity rows it meets. */
  predicate EncodedWidthsFit(width: nat, lstm: Encoder, relations: seq<Row>, blocks: seq<seq<Row>>)
    requires |relations| == |blocks|
  {
    forall i :: 0 <= i < |relations| ==> Broadcastable(width, |Rseq(lstm, relations[i], blocks[i])|)
  }

  /**
   * The scorer call of `forward` on gathered operands: heads and tails of shape [batch, N]
   * or [batch, 1], one relation row and one block of time rows per example. The two
   * temporal scorers accept the five arguments; `get_rseq` then needs a time block, equal
   * relation and time widths for `torch.cat`, and an encoding as wide as the entity rows.
   */
  function Dispatch(c: KGEConfig, lstm: Encoder, heads: seq<seq<Row>>, relations: seq<Row>,
                    tem: Option<seq<seq<Row>>>, tails: seq<seq<Row>>, m: Mode, n: nat): (r: Result<seq<seq<real>>, Error>)
    requires |heads| == |relations| == |tails|
    requires tem.Some? ==> |tem.value| == |heads|
    requires forall i, j :: 0 <= i < |heads| && 0 <= j < n ==>
      |Col(heads[i], j)| == |Col(tails[i], j)| == c.entityDim
    ensures !Temporal(c.name) ==> r == Failure(ArgumentCount(NameOf(c.name)))
    ensures r.Success? <==>
      && Temporal(c.name) && tem.Some? && c.relationDim == c.temDim
      && EncodedWidthsFit(c.entityDim, lstm, relations, tem.value)
    ensures r.Success? ==>
      && |r.value| == |heads|
      && (forall i :: 0 <= i < |heads| ==> |r.value[i]| == n)
      && forall i, j :: 0 <= i < |heads| && 0 <= j < n ==>
           r.value[i][j] == TemporalScore(c, lstm, Col(heads[i], j), relations[i], tem.value[i], Col(tails[i], j), m)
  {
    if !Temporal(c.name) then Failure(ArgumentCount(NameOf(c.name)))
    else if tem.None? then Failure(NoTimeBlocks)
    else if c.relationDim != c.temDim then Failure(ShapeMismatch)
    else if !EncodedWidthsFit(c.entityDim, lstm, relations, tem.value) then Failure(ShapeMismatch)
    else
      var blocks := tem.value;
      Success(seq(|heads|, i requires 0 <= i < |heads| =>
        seq(n, j requires 0 <= j < n =>
          TemporalScore(c, lstm, Col(heads[i], j), relations[i], blocks[i], Col(tails[i], j), m))))
  }

  /** Every cell of `s` is the configured scorer applied to the rows the mode selects. */
  ghost predicate ScoresFromTables(c: KGEConfig, tables: Tables, lstm: Encoder, sample: seq<Triple>,
                                   sampleTem: seq<seq<int>>, negs: seq<seq<int>>, m: Mode, s: seq<seq<real>>)
    requires TablesFit(c, tables) && Temporal(c.name)
    requires |sampleTem| == |sample| && (m != Single ==> |negs| == |sample| && Rectangular(negs))
    requires IdsInRange(c, m, sample, sampleTem, negs)
  {
    && |s| == |sample|
    && (forall i :: 0 <= i < |sample| ==> |s[i]| == NegativeSampleSize(m, negs))
    && forall i, j :: 0 <= i < |sample| && 0 <= j < NegativeSampleSize(m, negs) ==>
         var head := tables.entity[HeadIdAt(m, sample, negs, i, j)];
         var relation := tables.relation[sample[i].relation];
         var tem := Gather(tables.tem, sampleTem[i]);
         var tail := tables.entity[TailIdAt(m, sample, negs, i, j)];
         |head| == |tail| && Broadcastable(|head|, |Rseq(lstm, relation, tem)|)
         && s[i][j] == TemporalScore(c, lstm, head, relation, tem, tail, m)
  }

  /**
   * `forward(sample_triple, sample_tem, negative_sample, mode)`, returning the score tensor
   * of shape [batch, negative_sample_size]. The example axis of `sample_tem` and of the
   * negative ids is the one of `sample_triple`, as the sampler produces them.
   */
  method Forward(c: KGEConfig, tables: Tables, lstm: Encoder, sample: seq<Triple>, sampleTem: seq<seq<int>>,
                 negative: Option<seq<seq<int>>>, mode: string) returns (r: Result<seq<seq<real>>, Error>)
    requires Valid(c) && TablesFit(c, tables)
    requires |sampleTem| == |sample| && Rectangular(sampleTem)
    requires negative.Some? ==> |negative.value| == |sample| && Rectangular(negative.value)
    ensures ParseMode(mode).None? ==> r == Failure(UnsupportedMode(mode))
    ensures ParseMode(mode).Some? && ParseMode(mode).value != Single && negative.None? ==> r == Failure(MissingNegatives)
    ensures ParseMode(mode).Some? && (ParseMode(mode).value != Single ==> negative.Some?) ==>
      ScoredInMode(c, tables, lstm, sample, sampleTem, NegativesOrEmpty(negative), ParseMode(mode).value, r)
  {
    var pm := ParseMode(mode);
    if pm.None? {
      return Failure(UnsupportedMode(mode));
    }
    var m := pm.value;
    if m != Single && negative.None? {
      return Failure(MissingNegatives);
    }
    r := ScoreInMode(c, tables, lstm, sample, sampleTem, NegativesOrEmpty(negative), m);
  }

  /** What `forward` returns once the mode is known (and, in the batch modes, negatives are given). */
  ghost predicate ScoredInMode(c: KGEConfig, tables: Tables, lstm: Encoder, sample: seq<Triple>,
                               sampleTem: seq<seq<int>>, negs: seq<seq<int>>, m: Mode, r: Result<seq<seq<real>>, Error>)
    requires TablesFit(c, tables)
    requires |sampleTem| == |sample| && (m != Single ==> |negs| == |sample| && Rectangular(negs))
  {
    && (r.Success? ==>
          && Temporal(c.name) && |sample| > 0
          && IdsInRange(c, m, sample, sampleTem, negs) && Viewable(m, negs)
          && ScoresFromTables(c, tables, lstm, sample, sampleTem, negs, m, r.value))
    && (ViewFailsFirst(c, m, negs) ==> r == Failure(EmptyView))
    && (!ViewFailsFirst(c, m, negs) && !IdsInRange(c, m, sample, sampleTem, negs) ==> r == Failure(IndexOutOfRange))
    && (IdsInRange(c, m, sample, sampleTem, negs) && !Viewable(m, negs) ==> r == Failure(EmptyView))
    && (IdsInRange(c, m, sample, sampleTem, negs) && Viewable(m, negs) ==>
          && (!Temporal(c.name) ==> r == Failure(ArgumentCount(NameOf(c.name))))
          && (r.Success? <==>
                && Temporal(c.name) && |sample| > 0 && c.relationDim == c.temDim
                && forall i :: 0 <= i < |sample| ==>
                     Broadcastable(c.entityDim,
                       |Rseq(lstm, tables.relation[sample[i].relation], Gather(tables.tem, sampleTem[i]))|)))
  }

  /** The batch modes view their candidates as [batch, N, -1], which needs batch · N > 0. */
  predicate Viewable(m: Mode, negs: seq<seq<int>>) {
    m == Single || NonEmptyGrid(negs)
  }

  /** Head-batch gathers and views its candidates before it reads any other id, so an empty
      grid of in-range candidates fails there, whatever the rest of the batch holds. */
  predicate ViewFailsFirst(c: KGEConfig, m: Mode, negs: seq<seq<int>>) {
    m == HeadBatch && AllInRange(negs, c.nentity) && !NonEmptyGrid(negs)
  }

  /** A batch mode with no candidate cell never scores: the view of the candidates fails,
      unless an out-of-range id failed before it. */
  lemma EmptyCandidatesFail(c: KGEConfig, tables: Tables, lstm: Encoder, sample: seq<Triple>,
                            sampleTem: seq<seq<int>>, negs: seq<seq<int>>, m: Mode, r: Result<seq<seq<real>>, Error>)
    requires TablesFit(c, tables)
    requires |sampleTem| == |sample| && (m != Single ==> |negs| == |sample| && Rectangular(negs))
    requires ScoredInMode(c, tables, lstm, sample, sampleTem, negs, m, r)
    requires m != Single && |negs| * Width(negs) == 0
    ensures r == Failure(EmptyView) || r == Failure(IndexOutOfRange)
    ensures IdsInRange(c, m, sample, sampleTem, negs) ==> r == Failure(EmptyView)
  {
    assert !NonEmptyGrid(negs);
  }

  /** The body of one mode branch of `forward` (gathers and time loop), then the scorer call. */
  method ScoreInMode(c: KGEConfig, tables: Tables, lstm: Encoder, sample: seq<Triple>, sampleTem: seq<seq<int>>,
                     negs: seq<seq<int>>, m: Mode) returns (r: Result<seq<seq<real>>, Error>)
    requires Valid(c) && TablesFit(c, tables)
    requires |sampleTem| == |sample| && Rectangular(sampleTem)
    requires m != Single ==> |negs| == |sample| && Rectangular(negs)
    ensures ScoredInMode(c, tables, lstm, sample, sampleTem, negs, m, r)
  {
    var n := NegativeSampleSize(m, negs);
    assert forall i :: 0 <= i < |sample| ==>
      HeadIds(sample)[i] == sample[i].head && RelationIds(sample)[i] == sample[i].relation && TailIds(sample)[i] == sample[i].tail;

    var headRows := if m == HeadBatch then SelectCandidates(tables.entity, negs) else SelectFixed(tables.entity, HeadIds(sample));
    if headRows.Failure? {
      return Failure(headRows.error);
    }
    var relationRows := Select(tables.relation, RelationIds(sample));
    if relationRows.Failure? {
      return Failure(relationRows.error);
    }
    var tem := GatherTimeBlocks(tables.tem, sampleTem);
    if tem.Failure? {
      return Failure(tem.error);
    }
    var tailRows := if m == TailBatch then SelectCandidates(tables.entity, negs) else SelectFixed(tables.entity, TailIds(sample));
    if tailRows.Failure? {
      return Failure(tailRows.error);
    }
    var heads, relations, tails := headRows.value, relationRows.value, tailRows.value;
    OperandsFromTables(c, tables, sample, sampleTem, negs, m, heads, relations, tem.value, tails);
    r := Dispatch(c, lstm, heads, relations, tem.value, tails, m, n);
    DispatchScored(c, tables, lstm, sample, sampleTem, negs, m, heads, relations, tem.value, tails, r);
  }

  /** Once every id is in range, the scorer call on the gathered operands is what `forward` returns. */
  lemma DispatchScored(c: KGEConfig, tables: Tables, lstm: Encoder, sample: seq<Triple>, sampleTem: seq<seq<int>>,
                       negs: seq<seq<int>>, m: Mode, heads: seq<seq<Row>>, relations: seq<Row>,
                       tem: Option<seq<seq<Row>>>, tails: seq<seq<Row>>, r: Result<seq<seq<real>>, Error>)
    requires TablesFit(c, tables)
    requires |sampleTem| == |sample| && (m != Single ==> |negs| == |sample| && Rectangular(negs))
    requires IdsInRange(c, m, sample, sampleTem, negs)
    requires |heads| == |relations| == |tails| == |sample|
    requires forall i :: 0 <= i < |sample| ==> relations[i] == tables.relation[sample[i].relation]
    requires tem.None? <==> |sampleTem| == 0
    requires tem.Some? ==> |tem.value| == |sample|
    requires tem.Some? ==> forall i :: 0 <= i < |sample| ==> tem.value[i] == Gather(tables.tem, sampleTem[i])
    requires Viewable(m, negs)
    requires forall i, j :: 0 <= i < |sample| && 0 <= j < NegativeSampleSize(m, negs) ==>
      && Col(heads[i], j) == tables.entity[HeadIdAt(m, sample, negs, i, j)]
      && Col(tails[i], j) == tables.entity[TailIdAt(m, sample, negs, i, j)]
      && |Col(heads[i], j)| == |Col(tails[i], j)| == c.entityDim
    requires r == Dispatch(c, lstm, heads, relations, tem, tails, m, NegativeSampleSize(m, negs))
    ensures ScoredInMode(c, tables, lstm, sample, sampleTem, negs, m, r)
  {
  }

  function NegativesOrEmpty(negative: Option<seq<seq<int>>>): seq<seq<int>> {
    if negative.Some? then negative.value else []
  }

  /** The gathered operands are the table rows the ids name. */
  lemma OperandsFromTables(c: KGEConfig, tables: Tables, sample: seq<Triple>, sampleTem: seq<seq<int>>,
                           negs: seq<seq<int>>, m: Mode, heads: seq<seq<Row>>, relations: seq<Row>,
                           tem: Option<seq<seq<Row>>>, tails: seq<seq<Row>>)
    requires TablesFit(c, tables)
    requires |sampleTem| == |sample| && (m != Single ==> |negs| == |sample| && Rectangular(negs))
    requires IdsInRange(c, m, sample, sampleTem, negs)
    requires |heads| == |relations| == |tails| == |sample|
    requires forall i :: 0 <= i < |sample| ==> relations[i] == tables.relation[sample[i].relation]
    requires m == HeadBatch ==> forall i, j :: 0 <= i < |sample| && 0 <= j < Width(negs) ==>
      |heads[i]| == Width(negs) && heads[i][j] == tables.entity[negs[i][j]]
    requires m != HeadBatch ==> forall i :: 0 <= i < |sample| ==> heads[i] == [tables.entity[sample[i].head]]
    requires m == TailBatch ==> forall i, j :: 0 <= i < |sample| && 0 <= j < Width(negs) ==>
      |tails[i]| == Width(negs) && tails[i][j] == tables.entity[negs[i][j]]
    requires m != TailBatch ==> forall i :: 0 <= i < |sample| ==> tails[i] == [tables.entity[sample[i].tail]]
    requires tem.None? <==> |sampleTem| == 0
    requires tem.Some? ==> IsTimeBlocks(tem.value, tables.tem, sampleTem)
    ensures forall i, j :: 0 <= i < |sample| && 0 <= j < NegativeSampleSize(m, negs) ==>
      && Col(heads[i], j) == tables.entity[HeadIdAt(m, sample, negs, i, j)]
      && Col(tails[i], j) == tables.entity[TailIdAt(m, sample, negs, i, j)]
      && |Col(heads[i], j)| == |Col(tails[i], j)| == c.entityDim
    ensures tem.Some? ==> forall i :: 0 <= i < |sample| ==> tem.value[i] == Gather(tables.tem, sampleTem[i])
  {
    if tem.Some? {
      forall i | 0 <= i < |sample| ensures tem.value[i] == Gather(tables.tem, sampleTem[i]) {
      }
    }
  }
}
