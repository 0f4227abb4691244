/**
 * MacroPropertyCodeGen: the location switch of a property generator. Its
 * hooks answer booleans and are chained with C++'s short-circuit `&&`, so a
 * false pre hook skips the HeaderFileHeader hook, and a false
 * SourceFileHeader hook skips the post hook (unlike the module, whose post
 * hook always runs).
 */
module MacroProperty {
  import opened Entities
  import opened CodeGenEnv
  import opened MacroModule

  /** The virtual hooks of a MacroPropertyCodeGen; each per-entity hook sees the property and its index. */
  datatype PropertyHooks = PropertyHooks(
    preGenerateCode: (EntityRef, Property, nat, MacroCodeGenEnv) -> bool,
    postGenerateCode: (EntityRef, Property, nat, MacroCodeGenEnv) -> bool,
    generateHeaderFileHeaderCode: (EntityRef, Property, nat, MacroCodeGenEnv) -> Output<bool>,
    generateClassFooterCode: (EntityRef, Property, nat, MacroCodeGenEnv) -> Output<bool>,
    generateHeaderFileFooterCode: (EntityRef, Property, nat, MacroCodeGenEnv) -> Output<bool>,
    generateSourceFileHeaderCode: (EntityRef, Property, nat, MacroCodeGenEnv) -> Output<bool>,
    initialGenerateHeaderFileHeaderCode: MacroCodeGenEnv -> Output<bool>,
    initialGenerateHeaderFileFooterCode: MacroCodeGenEnv -> Output<bool>,
    initialGenerateSourceFileHeaderCode: MacroCodeGenEnv -> Output<bool>,
    finalGenerateHeaderFileHeaderCode: MacroCodeGenEnv -> Output<bool>,
    finalGenerateHeaderFileFooterCode: MacroCodeGenEnv -> Output<bool>,
    finalGenerateSourceFileHeaderCode: MacroCodeGenEnv -> Output<bool>)

  /** The per-entity hook that owns a real location. */
  function PropertyHook(h: PropertyHooks, l: CodeGenLocation): (EntityRef, Property, nat, MacroCodeGenEnv) -> Output<bool>
    requires l != Count
  {
    match l
    case HeaderFileHeader => h.generateHeaderFileHeaderCode
    case ClassFooter => h.generateClassFooterCode
    case HeaderFileFooter => h.generateHeaderFileFooterCode
    case SourceFileHeader => h.generateSourceFileHeaderCode
  }

  /**
   * MacroPropertyCodeGen::generateCode: `pre && generate` at
   * HeaderFileHeader, `generate && post` at SourceFileHeader, the hook alone
   * at the two other locations, false at Count.
   */
  function GenerateCode(h: PropertyHooks, e: EntityRef, p: Property, index: nat, env: MacroCodeGenEnv): (d: Dispatch<bool>)
    ensures env.codeGenLocation == Count ==> d == Dispatch(false, "", [])
    // Success means every hook that guards the location answered true.
    ensures env.codeGenLocation != Count ==>
              var g := PropertyHook(h, env.codeGenLocation)(e, p, index, env);
              d.result ==
                ((env.codeGenLocation == HeaderFileHeader ==> h.preGenerateCode(e, p, index, env))
                 && g.result
                 && (env.codeGenLocation == SourceFileHeader ==> h.postGenerateCode(e, p, index, env)))
    // Only the current location's hook can run; its text is all that is appended.
    ensures forall c :: c in d.calls ==>
              c == PreHook || c == PostHook || c == GenerateHook(env.codeGenLocation)
    ensures env.codeGenLocation != Count ==>
              if GenerateHook(env.codeGenLocation) in d.calls
              then d.text == PropertyHook(h, env.codeGenLocation)(e, p, index, env).text
              else d.text == ""
    // Short-circuit: pre runs first and a false pre skips the hook ...
    ensures (PreHook in d.calls) <==> env.codeGenLocation == HeaderFileHeader
    ensures env.codeGenLocation == HeaderFileHeader ==>
              d.calls[0] == PreHook &&
              (GenerateHook(HeaderFileHeader) in d.calls <==> h.preGenerateCode(e, p, index, env))
    // ... and a failed SourceFileHeader hook skips post.
    ensures (PostHook in d.calls) <==>
              (env.codeGenLocation == SourceFileHeader &&
               h.generateSourceFileHeaderCode(e, p, index, env).result)
    ensures env.codeGenLocation in {ClassFooter, HeaderFileFooter, SourceFileHeader} ==>
              |d.calls| > 0 && d.calls[0] == GenerateHook(env.codeGenLocation)
  {
    match env.codeGenLocation
    case HeaderFileHeader =>
      if h.preGenerateCode(e, p, index, env) then
        var g := h.generateHeaderFileHeaderCode(e, p, index, env);
        Dispatch(g.result, g.text, [PreHook, GenerateHook(HeaderFileHeader)])
      else
        Dispatch(false, "", [PreHook])
    case ClassFooter =>
      var g := h.generateClassFooterCode(e, p, index, env);
      Dispatch(g.result, g.text, [GenerateHook(ClassFooter)])
    case HeaderFileFooter =>
      var g := h.generateHeaderFileFooterCode(e, p, index, env);
      Dispatch(g.result, g.text, [GenerateHook(HeaderFileFooter)])
    case SourceFileHeader =>
      var g := h.generateSourceFileHeaderCode(e, p, index, env);
      if g.result then
        Dispatch(h.postGenerateCode(e, p, index, env), g.text, [GenerateHook(SourceFileHeader), PostHook])
      else
        Dispatch(false, g.text, [GenerateHook(SourceFileHeader)])
    case Count =>
      Dispatch(false, "", [])
  }

  /** The initial hook that owns a location with a file-level form. */
  function InitialPropertyHookAt(h: PropertyHooks, l: CodeGenLocation): MacroCodeGenEnv -> Output<bool>
    requires HasFileLevelForm(l)
  {
    if l == HeaderFileHeader then h.initialGenerateHeaderFileHeaderCode
    else if l == HeaderFileFooter then h.initialGenerateHeaderFileFooterCode
    else h.initialGenerateSourceFileHeaderCode
  }

  /** The final hook that owns a location with a file-level form. */
  function FinalPropertyHookAt(h: PropertyHooks, l: CodeGenLocation): MacroCodeGenEnv -> Output<bool>
    requires HasFileLevelForm(l)
  {
    if l == HeaderFileHeader then h.finalGenerateHeaderFileHeaderCode
    else if l == HeaderFileFooter then h.finalGenerateHeaderFileFooterCode
    else h.finalGenerateSourceFileHeaderCode
  }

  /** MacroPropertyCodeGen::initialGenerateCode. */
  function InitialGenerateCode(h: PropertyHooks, env: MacroCodeGenEnv): (d: Dispatch<bool>)
    ensures !HasFileLevelForm(env.codeGenLocation) ==> d == Dispatch(false, "", [])
    ensures HasFileLevelForm(env.codeGenLocation) ==>
              var o := InitialPropertyHookAt(h, env.codeGenLocation)(env);
              d == Dispatch(o.result, o.text, [InitialHook(env.codeGenLocation)])
  {
    match env.codeGenLocation
    case HeaderFileHeader =>
      var o := h.initialGenerateHeaderFileHeaderCode(env);
      Dispatch(o.result, o.text, [InitialHook(HeaderFileHeader)])
    case HeaderFileFooter =>
      var o := h.initialGenerateHeaderFileFooterCode(env);
      Dispatch(o.result, o.text, [InitialHook(HeaderFileFooter)])
    case SourceFileHeader =>
      var o := h.initialGenerateSourceFileHeaderCode(env);
      Dispatch(o.result, o.text, [InitialHook(SourceFileHeader)])
    case _ =>
      Dispatch(false, "", [])
  }

  /** MacroPropertyCodeGen::finalGenerateCode. */
  function FinalGenerateCode(h: PropertyHooks, env: MacroCodeGenEnv): (d: Dispatch<bool>)
    ensures !HasFileLevelForm(env.codeGenLocation) ==> d == Dispatch(false, "", [])
    ensures HasFileLevelForm(env.codeGenLocation) ==>
              var o := FinalPropertyHookAt(h, env.codeGenLocation)(env);
              d == Dispatch(o.result, o.text, [FinalHook(env.codeGenLocation)])
  {
    match env.codeGenLocation
    case HeaderFileHeader =>
      var o := h.finalGenerateHeaderFileHeaderCode(env);
      Dispatch(o.result, o.text, [FinalHook(HeaderFileHeader)])
    case HeaderFileFooter =>
      var o := h.finalGenerateHeaderFileFooterCode(env);
      Dispatch(o.result, o.text, [FinalHook(HeaderFileFooter)])
    case SourceFileHeader =>
      var o := h.finalGenerateSourceFileHeaderCode(env);
      Dispatch(o.result, o.text, [FinalHook(SourceFileHeader)])
    case _ =>
      Dispatch(false, "", [])
  }

  /** The hooks MacroPropertyCodeGen itself defines: all answer true and append nothing. */
  function DefaultPropertyHooks(): PropertyHooks
  {
    PropertyHooks(
      (e, p, i, env) => true, (e, p, i, env) => true,
      (e, p, i, env) => Output(true, ""), (e, p, i, env) => Output(true, ""),
      (e, p, i, env) => Output(true, ""), (e, p, i, env) => Output(true, ""),
      env => Output(true, ""), env => Output(true, ""), env => Output(true, ""),
      env => Output(true, ""), env => Output(true, ""), env => Output(true, ""))
  }

  /**
   * A property generator that overrides nothing appends nothing, succeeds at
   * every real location and fails at Count; its initial and final generation
   * succeed exactly at the locations that have a file-level form.
   */
  lemma DefaultPropertyGeneratesNothing(e: EntityRef, p: Property, index: nat, env: MacroCodeGenEnv)
    ensures GenerateCode(DefaultPropertyHooks(), e, p, index, env).text == ""
    ensures GenerateCode(DefaultPropertyHooks(), e, p, index, env).result == (env.codeGenLocation != Count)
    ensures InitialGenerateCode(DefaultPropertyHooks(), env) ==
              Dispatch(HasFileLevelForm(env.codeGenLocation), "",
                       if HasFileLevelForm(env.codeGenLocation) then [InitialHook(env.codeGenLocation)] else [])
    ensures FinalGenerateCode(DefaultPropertyHooks(), env) ==
              Dispatch(HasFileLevelForm(env.codeGenLocation), "",
                       if HasFileLevelForm(env.codeGenLocation) then [FinalHook(env.codeGenLocation)] else [])
  {
  }

  /**
   * At SourceFileHeader, when the generation hook fails, the module still
   * runs its post hook while the property generator does not; both fail.
   */
  lemma PostHookAfterFailedGeneration(mh: MacroModuleHooks, ph: PropertyHooks, e: EntityRef, p: Property,
                                      index: nat, env: MacroCodeGenEnv)
    requires env.codeGenLocation == SourceFileHeader
    requires mh.generateSourceFileHeaderCode(e, env).result == AbortWithFailure
    requires !ph.generateSourceFileHeaderCode(e, p, index, env).result
    ensures PostHook in MacroModule.GenerateCode(mh, e, env).calls
    ensures PostHook !in GenerateCode(ph, e, p, index, env).calls
    ensures MacroModule.GenerateCode(mh, e, env).result == AbortWithFailure
    ensures !GenerateCode(ph, e, p, index, env).result
  {
  }
}
