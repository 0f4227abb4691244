/**
 * The values threaded through code generation: the generation locations and
 * their indices, the traversal behaviours a generator answers with, the
 * generation steps, and the environment a macro generator receives.
 */
module CodeGenEnv {
  import opened Entities

  /** ECodeGenLocation; `Count` is the number of real locations, not a location. */
  datatype CodeGenLocation = HeaderFileHeader | ClassFooter | HeaderFileFooter | SourceFileHeader | Count

  /** The index of a location in the per-location tables. */
  function LocationIndex(l: CodeGenLocation): (i: nat)
    ensures i <= 4
    ensures (i == 4) == (l == Count)
  {
    match l
    case HeaderFileHeader => 0
    case ClassFooter => 1
    case HeaderFileFooter => 2
    case SourceFileHeader => 3
    case Count => 4
  }

  /** `static_cast<ECodeGenLocation>(i)` for a real location index. */
  function LocationAt(i: nat): (l: CodeGenLocation)
    requires i < 4
    ensures LocationIndex(l) == i
  {
    if i == 0 then HeaderFileHeader else if i == 1 then ClassFooter
    else if i == 2 then HeaderFileFooter else SourceFileHeader
  }

  /** ETraversalBehaviour: how the traversal goes on after a generator saw an entity. */
  datatype TraversalBehaviour = Recurse | Continue | AbortWithFailure

  /** ECodeGenStep, in the order the steps happen. */
  datatype CodeGenStep = PreGeneration | InitialGeneration | PerEntityGeneration | FinalGeneration | PostGeneration

  /**
   * MacroCodeGenEnv: the parse result, whether a logger is set, the current
   * step, and the location and separator the unit sets before each call.
   */
  datatype MacroCodeGenEnv = MacroCodeGenEnv(
    file: FileParsingResult, hasLogger: bool, step: CodeGenStep,
    codeGenLocation: CodeGenLocation, separator: string)

  /** What a hook answers (`result`) and the text it appends to `inout_result` (`text`). */
  datatype Output<R> = Output(result: R, text: string)
}
