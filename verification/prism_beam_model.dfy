/** The value types the composer exchanges: path/value pairs and the error
    record with its step tags. Entities themselves are `DotProp.Json` values. */
module PrismBeamModel {
  import opened DotProp

  /** A value a path/value pair may carry: a string, a number or a boolean.
      Numbers are only ever copied, so an integer stands for them. */
  datatype Primitive = PStr(s: string) | PNum(n: int) | PBool(b: bool)

  function AsJson(p: Primitive): Json
  {
    match p
    case PStr(s) => Str(s)
    case PNum(n) => Num(n)
    case PBool(b) => Bool(b)
  }

  /** PrismBeamPathValue: a leaf path and the primitive found there. */
  datatype PathValue = PathValue(path: Path, value: Primitive)

  /** The paths of a list of pairs, in order. */
  function PathsOf(pvs: seq<PathValue>): (r: seq<Path>)
    ensures |r| == |pvs| && forall i :: 0 <= i < |pvs| ==> r[i] == pvs[i].path
  {
    seq(|pvs|, i requires 0 <= i < |pvs| => pvs[i].path)
  }

  datatype ValidationError = ValidationError(message: string, path: string)

  /** Steps at which a schema-validated composition can fail. */
  datatype ValidationStep =
    | SingleValidateOutput | SingleValidateFirstEntity
    | PairValidateOutput | PairValidateFirstEntity | PairValidateSecondEntity
    | TripleValidateOutput | TripleValidateFirstEntity
    | TripleValidateSecondEntity | TripleValidateThirdEntity

  /** Steps at which composition itself can fail. */
  datatype ComposeStep = Compose | FirstSupported | SecondSupported | ThirdSupported

  /** PrismBeamError; the free-text message is not modelled, only the step. */
  datatype PrismBeamError =
    | ValidationFailure(validationStep: ValidationStep, errors: seq<ValidationError>)
    | ComposeFailure(step: ComposeStep)

  /** The literal `step` tag a caller branches on. */
  function ComposeStepTag(step: ComposeStep): string
  {
    match step
    case Compose => "compose"
    case FirstSupported => "compose/first/supported"
    case SecondSupported => "compose/second/supported"
    case ThirdSupported => "compose/third/supported"
  }

  /** Distinct composition steps carry distinct tags, so a caller can tell
      which slot failed from the tag alone. */
  lemma ComposeStepTagsDistinct(a: ComposeStep, b: ComposeStep)
    requires a != b
    ensures ComposeStepTag(a) != ComposeStepTag(b)
  {
    var ta, tb := ComposeStepTag(a), ComposeStepTag(b);
    if a == Compose || b == Compose {
      assert |ta| != |tb|;
    } else {
      assert ta[8] != tb[8];
    }
  }
}
