/** Failure-carrying wrappers used throughout the model. */
module Wrappers {
  datatype Option<+T> = None | Some(value: T)

  datatype Result<+T, +E> = Success(value: T) | Failure(error: E)
}

/** The exceptions the knowledge-graph embedding model raises, one constructor per cause. */
module Errors {
  datatype Error =
    | UnsupportedModel(name: string)   // ValueError('model %s not supported')
    | RotatEWidths                     // ValueError('RotatE should use --double_entity_embedding')
    | ComplExWidths                    // ValueError('ComplEx should use ... and ...')
    | DivisionByZero                   // construction at hidden_dim == 0: ZeroDivisionError of (gamma + epsilon) / hidden_dim
    | ReversedInitRange                // RuntimeError of uniform_(a=-range, b=range) when range < 0
    | UnsupportedMode(mode: string)    // ValueError('mode %s not supported')
    | MissingNegatives                 // AttributeError: batch modes read .size() of a None negative sample
    | IndexOutOfRange                  // IndexError of index_select on an id outside the table
    | ArgumentCount(name: string)      // TypeError: a four-argument scorer called with five arguments
    | NoTimeBlocks                     // AttributeError: get_rseq reads .shape of a None time block
    | ShapeMismatch                    // RuntimeError of torch.cat or broadcasting on unequal widths
    | EmptyView                        // RuntimeError of .view(batch, N, -1) on a tensor of 0 elements
    | RankingNotUnique                 // AssertionError of `ranking.size(0) == 1`
    | NoExamples                       // IndexError of logs[0] when nothing was evaluated
}

/** The three batching modes of the scorers, and the strings that name them. */
module Modes {
  import opened Wrappers

  datatype Mode = Single | HeadBatch | TailBatch

  function ModeName(m: Mode): string {
    match m
    case Single => "single"
    case HeadBatch => "head-batch"
    case TailBatch => "tail-batch"
  }

  /** Reads a mode string; every string other than the three names is rejected. */
  function ParseMode(s: string): (r: Option<Mode>)
    ensures r.Some? <==> s in {"single", "head-batch", "tail-batch"}
    ensures r.Some? ==> ModeName(r.value) == s
  {
    if s == "single" then Some(Single)
    else if s == "head-batch" then Some(HeadBatch)
    else if s == "tail-batch" then Some(TailBatch)
    else None
  }
}
