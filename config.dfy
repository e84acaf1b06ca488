/**
 * Construction of a KGEModel (`KGEModel.__init__`): the closed set of model names, the
 * width flags, the derived widths and the fixed scale constants. The embedding tables'
 * random initialisation is not modelled; their shapes are (see `Forward.TablesFit`).
 */
module Config {
  import opened Wrappers
  import opened Errors

  datatype ModelName = TATransE | TransE | TADistMult | DistMult | ComplEx | RotatE | PRotatE

  function NameOf(m: ModelName): string {
    match m
    case TATransE => "TATransE"
    case TransE => "TransE"
    case TADistMult => "TADistMult"
    case DistMult => "DistMult"
    case ComplEx => "ComplEx"
    case RotatE => "RotatE"
    case PRotatE => "pRotatE"
  }

  /** The model names construction accepts. */
  const SupportedNames: set<string> :=
    {"TATransE", "TransE", "TADistMult", "DistMult", "ComplEx", "RotatE", "pRotatE"}

  function ParseModelName(s: string): (r: Option<ModelName>)
    ensures r.Some? <==> s in SupportedNames
    ensures r.Some? ==> NameOf(r.value) == s
  {
    if s == "TATransE" then Some(TATransE)
    else if s == "TransE" then Some(TransE)
    else if s == "TADistMult" then Some(TADistMult)
    else if s == "DistMult" then Some(DistMult)
    else if s == "ComplEx" then Some(ComplEx)
    else if s == "RotatE" then Some(RotatE)
    else if s == "pRotatE" then Some(PRotatE)
    else None
  }

  lemma ParseNameOf(m: ModelName)
    ensures ParseModelName(NameOf(m)) == Some(m)
  {
  }

  /** Number of rows of the time-token table. */
  const NTem: nat := 32
  /** The epsilon added to gamma in the embedding range. */
  const Epsilon: real := 2.0

  datatype KGEConfig = KGEConfig(
    name: ModelName,
    nentity: nat,
    nrelation: nat,
    ntem: nat,
    hiddenDim: nat,
    gamma: real,
    embeddingRange: real,
    entityDim: nat,
    relationDim: nat,
    temDim: nat,
    modulus: Option<real>)   // present only for pRotatE: 0.5 * embedding_range

  /** The width rules: RotatE needs a doubled entity width and a single relation width,
      ComplEx needs both doubled; every other model accepts any flags. */
  predicate WidthFlagsAllowed(m: ModelName, doubleEntity: bool, doubleRelation: bool) {
    && (m == RotatE ==> doubleEntity && !doubleRelation)
    && (m == ComplEx ==> doubleEntity && doubleRelation)
  }

  function Widen(hiddenDim: nat, double: bool): nat {
    if double then hiddenDim * 2 else hiddenDim
  }

  /**
   * `KGEModel.__init__`. The embedding range is computed (line 41) and the tables are
   * initialised uniformly in [-range, range] (lines 49-68) before the name and flags are
   * checked. So a zero hidden width fails at the division, and a negative range (gamma
   * below -epsilon) fails at the first `uniform_`, whose bounds are then reversed, whatever
   * the name. The recurrent encoder built at line 33 comes earlier still and is not
   * modelled; should it reject a zero width itself, construction fails with its error instead.
   */
  function Construct(name: string, nentity: nat, nrelation: nat, hiddenDim: nat, gamma: real,
                     doubleEntity: bool, doubleRelation: bool, doubleTem: bool): (r: Result<KGEConfig, Error>)
    ensures hiddenDim == 0 ==> r == Failure(DivisionByZero)
    ensures hiddenDim > 0 && gamma + Epsilon < 0.0 ==> r == Failure(ReversedInitRange)
    ensures hiddenDim > 0 && gamma + Epsilon >= 0.0 && name !in SupportedNames ==> r == Failure(UnsupportedModel(name))
    ensures hiddenDim > 0 && gamma + Epsilon >= 0.0 && name == "RotatE" && !(doubleEntity && !doubleRelation) ==>
      r == Failure(RotatEWidths)
    ensures hiddenDim > 0 && gamma + Epsilon >= 0.0 && name == "ComplEx" && !(doubleEntity && doubleRelation) ==>
      r == Failure(ComplExWidths)
    ensures r.Success? <==>
      && hiddenDim > 0 && gamma + Epsilon >= 0.0 && name in SupportedNames
      && WidthFlagsAllowed(ParseModelName(name).value, doubleEntity, doubleRelation)
    ensures r.Success? ==>
      && NameOf(r.value.name) == name
      && r.value.nentity == nentity && r.value.nrelation == nrelation && r.value.ntem == 32
      && r.value.hiddenDim == hiddenDim && r.value.gamma == gamma
      && r.value.embeddingRange * hiddenDim as real == gamma + 2.0
      && (r.value.entityDim == 2 * hiddenDim <==> doubleEntity)
      && (r.value.relationDim == 2 * hiddenDim <==> doubleRelation)
      && (r.value.temDim == 2 * hiddenDim <==> doubleTem)
      && r.value.entityDim in {hiddenDim, 2 * hiddenDim}
      && r.value.relationDim in {hiddenDim, 2 * hiddenDim}
      && r.value.temDim in {hiddenDim, 2 * hiddenDim}
      && (r.value.modulus.Some? <==> r.value.name == PRotatE)
      && (r.value.modulus.Some? ==> r.value.modulus.value == 0.5 * r.value.embeddingRange)
  {
    if hiddenDim == 0 then Failure(DivisionByZero)
    else
      var range := (gamma + Epsilon) / hiddenDim as real;
      if range < 0.0 then Failure(ReversedInitRange)
      else
      match ParseModelName(name)
      case None => Failure(UnsupportedModel(name))
      case Some(m) =>
        if m == RotatE && (!doubleEntity || doubleRelation) then Failure(RotatEWidths)
        else if m == ComplEx && (!doubleEntity || !doubleRelation) then Failure(ComplExWidths)
        else
          Success(KGEConfig(
            m, nentity, nrelation, NTem, hiddenDim, gamma, range,
            Widen(hiddenDim, doubleEntity), Widen(hiddenDim, doubleRelation), Widen(hiddenDim, doubleTem),
            if m == PRotatE then Some(0.5 * range) else None))
  }

  /** What every constructed configuration satisfies. */
  ghost predicate Valid(c: KGEConfig) {
    && c.hiddenDim > 0
    && c.ntem == NTem
    && c.entityDim in {c.hiddenDim, 2 * c.hiddenDim}
    && c.relationDim in {c.hiddenDim, 2 * c.hiddenDim}
    && c.temDim in {c.hiddenDim, 2 * c.hiddenDim}
    && WidthFlagsAllowed(c.name, c.entityDim == 2 * c.hiddenDim, c.relationDim == 2 * c.hiddenDim)
    && c.embeddingRange * c.hiddenDim as real == c.gamma + Epsilon
    && c.gamma + Epsilon >= 0.0
  }

  lemma ConstructedIsValid(name: string, nentity: nat, nrelation: nat, hiddenDim: nat, gamma: real,
                           doubleEntity: bool, doubleRelation: bool, doubleTem: bool)
    requires Construct(name, nentity, nrelation, hiddenDim, gamma, doubleEntity, doubleRelation, doubleTem).Success?
    ensures Valid(Construct(name, nentity, nrelation, hiddenDim, gamma, doubleEntity, doubleRelation, doubleTem).value)
  {
  }

  /** A valid ComplEx configuration has entity and relation rows of one even width, so
      `torch.chunk(x, 2)` splits every row into equal real and imaginary halves. */
  lemma ComplExHalvesAlign(c: KGEConfig)
    requires Valid(c) && c.name == ComplEx
    ensures c.entityDim == c.relationDim && c.entityDim % 2 == 0
  {
  }

  /** A valid RotatE configuration has relation rows half as wide as entity rows:
      one phase per complex coordinate. */
  lemma RotatEPhasePerCoordinate(c: KGEConfig)
    requires Valid(c) && c.name == RotatE
    ensures c.entityDim == 2 * c.relationDim
  {
  }

  /** The tables of a constructed model are drawn from a non-empty interval [-range, range]:
      the range is never negative, and is positive exactly when gamma exceeds -epsilon. */
  lemma EmbeddingRangeSign(c: KGEConfig)
    requires Valid(c)
    ensures c.embeddingRange >= 0.0
    ensures c.embeddingRange > 0.0 <==> c.gamma > -Epsilon
  {
    var h := c.hiddenDim as real;
    assert h > 0.0;
    if c.embeddingRange > 0.0 {
      assert c.embeddingRange * h > 0.0;
    } else {
      assert c.embeddingRange * h <= 0.0;
    }
  }
}
