/**
 * MacroCodeGenModule: the location switch that routes a per-entity
 * generation call, or an entity-independent initial/final call, to the
 * module's overridable hooks, with the pre/post veto around the first and
 * last locations.
 *
 * The hooks are a record of functions. A hook answers with its result and
 * the text it appended to `inout_result`; a dispatch answers with its
 * result, the text appended by the hooks it ran, and the trace of the hooks
 * it ran, in order.
 */
module MacroModule {
  import opened Entities
  import opened CodeGenEnv

  /** One hook invocation in a dispatch trace. */
  datatype Hook =
    | PreHook
    | PostHook
    | GenerateHook(location: CodeGenLocation)
    | InitialHook(location: CodeGenLocation)
    | FinalHook(location: CodeGenLocation)

  /** The answer of a dispatcher: result, appended text, hooks run in order. */
  datatype Dispatch<R> = Dispatch(result: R, text: string, calls: seq<Hook>)

  /** The locations with an entity-independent (initial / final) form. */
  predicate HasFileLevelForm(l: CodeGenLocation)
  {
    l == HeaderFileHeader || l == HeaderFileFooter || l == SourceFileHeader
  }

  /** The virtual hooks of a MacroCodeGenModule. */
  datatype MacroModuleHooks = MacroModuleHooks(
    preGenerateCode: (EntityRef, MacroCodeGenEnv) -> bool,
    postGenerateCode: (EntityRef, MacroCodeGenEnv) -> bool,
    generateHeaderFileHeaderCode: (EntityRef, MacroCodeGenEnv) -> Output<TraversalBehaviour>,
    generateClassFooterCode: (EntityRef, MacroCodeGenEnv) -> Output<TraversalBehaviour>,
    generateHeaderFileFooterCode: (EntityRef, MacroCodeGenEnv) -> Output<TraversalBehaviour>,
    generateSourceFileHeaderCode: (EntityRef, MacroCodeGenEnv) -> Output<TraversalBehaviour>,
    initialGenerateHeaderFileHeaderCode: MacroCodeGenEnv -> Output<bool>,
    initialGenerateHeaderFileFooterCode: MacroCodeGenEnv -> Output<bool>,
    initialGenerateSourceFileHeaderCode: MacroCodeGenEnv -> Output<bool>,
    finalGenerateHeaderFileHeaderCode: MacroCodeGenEnv -> Output<bool>,
    finalGenerateHeaderFileFooterCode: MacroCodeGenEnv -> Output<bool>,
    finalGenerateSourceFileHeaderCode: MacroCodeGenEnv -> Output<bool>)

  /** The per-entity hook that owns a real location. */
  function EntityHook(h: MacroModuleHooks, l: CodeGenLocation): (EntityRef, MacroCodeGenEnv) -> Output<TraversalBehaviour>
    requires l != Count
  {
    match l
    case HeaderFileHeader => h.generateHeaderFileHeaderCode
    case ClassFooter => h.generateClassFooterCode
    case HeaderFileFooter => h.generateHeaderFileFooterCode
    case SourceFileHeader => h.generateSourceFileHeaderCode
  }

  /** The initial hook that owns a location with a file-level form. */
  function InitialHookAt(h: MacroModuleHooks, l: CodeGenLocation): MacroCodeGenEnv -> Output<bool>
    requires HasFileLevelForm(l)
  {
    if l == HeaderFileHeader then h.initialGenerateHeaderFileHeaderCode
    else if l == HeaderFileFooter then h.initialGenerateHeaderFileFooterCode
    else h.initialGenerateSourceFileHeaderCode
  }

  /** The final hook that owns a location with a file-level form. */
  function FinalHookAt(h: MacroModuleHooks, l: CodeGenLocation): MacroCodeGenEnv -> Output<bool>
    requires HasFileLevelForm(l)
  {
    if l == HeaderFileHeader then h.finalGenerateHeaderFileHeaderCode
    else if l == HeaderFileFooter then h.finalGenerateHeaderFileFooterCode
    else h.finalGenerateSourceFileHeaderCode
  }

  /**
   * MacroCodeGenModule::generateCode. HeaderFileHeader is vetoed by
   * preGenerateCode; SourceFileHeader always runs its hook and then
   * postGenerateCode, which can turn the result into an abort; the two other
   * locations forward; Count aborts.
   */
  function GenerateCode(h: MacroModuleHooks, e: EntityRef, env: MacroCodeGenEnv): (d: Dispatch<TraversalBehaviour>)
    // Count is never a valid location: abort, run nothing, append nothing.
    ensures env.codeGenLocation == Count ==> d == Dispatch(AbortWithFailure, "", [])
    // Only the hook of the current location can run, at most once, and the
    // veto hooks belong to the first and the last location only.
    ensures forall c :: c in d.calls ==>
              c == PreHook || c == PostHook || c == GenerateHook(env.codeGenLocation)
    ensures env.codeGenLocation != Count ==> 1 <= |d.calls| <= 2
    ensures (PreHook in d.calls) <==> env.codeGenLocation == HeaderFileHeader
    ensures (PostHook in d.calls) <==> env.codeGenLocation == SourceFileHeader
    // Whenever the location's hook ran, its text is the whole appended text
    // and the result is the hook's result or an abort; otherwise nothing
    // was appended and the result is an abort.
    ensures env.codeGenLocation != Count ==>
              var g := EntityHook(h, env.codeGenLocation)(e, env);
              if GenerateHook(env.codeGenLocation) in d.calls
              then d.text == g.text && d.result in {g.result, AbortWithFailure}
              else d.text == "" && d.result == AbortWithFailure
    // The veto of preGenerateCode, which runs before the hook.
    ensures env.codeGenLocation == HeaderFileHeader ==>
              d.calls[0] == PreHook &&
              (GenerateHook(HeaderFileHeader) in d.calls <==> h.preGenerateCode(e, env)) &&
              (h.preGenerateCode(e, env) ==> d.result == h.generateHeaderFileHeaderCode(e, env).result)
    // postGenerateCode runs after the hook even when the hook aborted, and
    // its false answer is an abort.
    ensures env.codeGenLocation == SourceFileHeader ==>
              d.calls == [GenerateHook(SourceFileHeader), PostHook] &&
              (d.result == AbortWithFailure <==>
                 (!h.postGenerateCode(e, env) || h.generateSourceFileHeaderCode(e, env).result == AbortWithFailure))
    // ClassFooter and HeaderFileFooter forward without veto.
    ensures env.codeGenLocation in {ClassFooter, HeaderFileFooter} ==>
              d.calls == [GenerateHook(env.codeGenLocation)] &&
              d.result == EntityHook(h, env.codeGenLocation)(e, env).result
  {
    match env.codeGenLocation
    case HeaderFileHeader =>
      if h.preGenerateCode(e, env) then
        var g := h.generateHeaderFileHeaderCode(e, env);
        Dispatch(g.result, g.text, [PreHook, GenerateHook(HeaderFileHeader)])
      else
        Dispatch(AbortWithFailure, "", [PreHook])
    case ClassFooter =>
      var g := h.generateClassFooterCode(e, env);
      Dispatch(g.result, g.text, [GenerateHook(ClassFooter)])
    case HeaderFileFooter =>
      var g := h.generateHeaderFileFooterCode(e, env);
      Dispatch(g.result, g.text, [GenerateHook(HeaderFileFooter)])
    case SourceFileHeader =>
      var g := h.generateSourceFileHeaderCode(e, env);
      Dispatch(if h.postGenerateCode(e, env) then g.result else AbortWithFailure,
               g.text, [GenerateHook(SourceFileHeader), PostHook])
    case Count =>
      Dispatch(AbortWithFailure, "", [])
  }

  /**
   * MacroCodeGenModule::initialGenerateCode: the initial hook of the
   * location; ClassFooter and Count fail without running any hook.
   */
  function InitialGenerateCode(h: MacroModuleHooks, env: MacroCodeGenEnv): (d: Dispatch<bool>)
    ensures !HasFileLevelForm(env.codeGenLocation) ==> d == Dispatch(false, "", [])
    ensures HasFileLevelForm(env.codeGenLocation) ==>
              var o := InitialHookAt(h, env.codeGenLocation)(env);
              d == Dispatch(o.result, o.text, [InitialHook(env.codeGenLocation)])
    ensures d.result ==> env.codeGenLocation in {HeaderFileHeader, HeaderFileFooter, SourceFileHeader}
  {
    match env.codeGenLocation
    case HeaderFileHeader =>
      var o := h.initialGenerateHeaderFileHeaderCode(env);
      Dispatch(o.result, o.text, [InitialHook(HeaderFileHeader)])
    case HeaderFileFooter =>
      var o := h.initialGenerateHeaderFileFooterCode(env);
      Dispatch(o.result, o.text, [InitialHook(HeaderFileFooter)])
    case SourceFileHeader =>
      var o := h.initialGenerateSourceFileHeaderCode(env);
      Dispatch(o.result, o.text, [InitialHook(SourceFileHeader)])
    case _ =>
      Dispatch(false, "", [])
  }

  /** MacroCodeGenModule::finalGenerateCode, the mirror of the initial dispatch. */
  function FinalGenerateCode(h: MacroModuleHooks, env: MacroCodeGenEnv): (d: Dispatch<bool>)
    ensures !HasFileLevelForm(env.codeGenLocation) ==> d == Dispatch(false, "", [])
    ensures HasFileLevelForm(env.codeGenLocation) ==>
              var o := FinalHookAt(h, env.codeGenLocation)(env);
              d == Dispatch(o.result, o.text, [FinalHook(env.codeGenLocation)])
    ensures d.result ==> env.codeGenLocation in {HeaderFileHeader, HeaderFileFooter, SourceFileHeader}
  {
    match env.codeGenLocation
    case HeaderFileHeader =>
      var o := h.finalGenerateHeaderFileHeaderCode(env);
      Dispatch(o.result, o.text, [FinalHook(HeaderFileHeader)])
    case HeaderFileFooter =>
      var o := h.finalGenerateHeaderFileFooterCode(env);
      Dispatch(o.result, o.text, [FinalHook(HeaderFileFooter)])
    case SourceFileHeader =>
      var o := h.finalGenerateSourceFileHeaderCode(env);
      Dispatch(o.result, o.text, [FinalHook(SourceFileHeader)])
    case _ =>
      Dispatch(false, "", [])
  }

  /**
   * The hooks MacroCodeGenModule itself defines: per-entity hooks answer
   * `least` (CodeGenHelpers::leastPrioritizedTraversalBehaviour), every other
   * hook answers true, and none appends text.
   */
  function DefaultMacroModuleHooks(least: TraversalBehaviour): MacroModuleHooks
  {
    MacroModuleHooks(
      (e, env) => true, (e, env) => true,
      (e, env) => Output(least, ""), (e, env) => Output(least, ""),
      (e, env) => Output(least, ""), (e, env) => Output(least, ""),
      env => Output(true, ""), env => Output(true, ""), env => Output(true, ""),
      env => Output(true, ""), env => Output(true, ""), env => Output(true, ""))
  }

  /**
   * A module that overrides nothing appends no text anywhere; per entity it
   * answers `least` at every real location and aborts at Count; its initial
   * and final generation succeed exactly at the locations that have a
   * file-level form.
   */
  lemma DefaultModuleGeneratesNothing(least: TraversalBehaviour, e: EntityRef, env: MacroCodeGenEnv)
    ensures GenerateCode(DefaultMacroModuleHooks(least), e, env).text == ""
    ensures GenerateCode(DefaultMacroModuleHooks(least), e, env).result ==
              (if env.codeGenLocation == Count then AbortWithFailure else least)
    ensures InitialGenerateCode(DefaultMacroModuleHooks(least), env).text == ""
    ensures InitialGenerateCode(DefaultMacroModuleHooks(least), env).result == HasFileLevelForm(env.codeGenLocation)
    ensures FinalGenerateCode(DefaultMacroModuleHooks(least), env).text == ""
    ensures FinalGenerateCode(DefaultMacroModuleHooks(least), env).result == HasFileLevelForm(env.codeGenLocation)
  {
  }
}
