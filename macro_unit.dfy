/**
 * MacroCodeGenUnit: the per-file orchestrator of macro code generation. It
 * keeps one text buffer per generation location and one class-footer text
 * per struct/class, runs a generator once per location for every entity,
 * and finally assembles the generated header and source files.
 *
 * Structs and classes are identified by their index in the file's arena,
 * which plays the part of the StructClassInfo pointer keying the source's map.
 */
module MacroUnit {
  import opened Wrappers
  import opened EntityKinds
  import opened Entities
  import opened CodeGenEnv
  import opened Traversal
  import opened Revisions

  /** The separator of each real location, in location order. */
  const Separators: seq<string> := ["\n", "\\\n", "\\\n", "\n"]

  /** The locations whose code ends up inside a macro definition. */
  predicate MacroWrapped(l: CodeGenLocation)
  {
    l == ClassFooter || l == HeaderFileFooter
  }

  /**
   * One separator per real location; every separator ends a line, and it is
   * escaped with a backslash exactly at the macro-wrapped locations.
   */
  lemma SeparatorsMatchWrapping()
    ensures |Separators| == LocationIndex(Count)
    ensures forall i :: 0 <= i < |Separators| ==> Separators[i][|Separators[i]| - 1] == '\n'
    ensures forall i :: 0 <= i < |Separators| ==>
              (Separators[i] == "\\\n" <==> MacroWrapped(LocationAt(i)))
    ensures forall i :: 0 <= i < |Separators| ==>
              (Separators[i] == "\n" <==> !MacroWrapped(LocationAt(i)))
  {
    assert LocationAt(0) == HeaderFileHeader && LocationAt(1) == ClassFooter;
    assert LocationAt(2) == HeaderFileFooter && LocationAt(3) == SourceFileHeader;
  }

  /** The environment the unit hands to the generator at location `i`. */
  function EnvAt(env: MacroCodeGenEnv, i: nat): MacroCodeGenEnv
    requires i < 4
  {
    env.(codeGenLocation := LocationAt(i), separator := Separators[i])
  }

  /**
   * The settings the unit reads: the entity-macros file name, the names of
   * the class-footer and header-file-footer macros, and the paths of the
   * generated files of a source file.
   */
  datatype UnitSettings = UnitSettings(
    entityMacrosFilename: string,
    classFooterMacro: Entity -> string,
    headerFileFooterMacro: string -> string,
    generatedHeaderPath: string -> string,
    generatedSourcePath: string -> string)

  /** The generate callback: the text it appends for an entity in an environment. */
  type Generator = (EntityRef, MacroCodeGenEnv) -> string

  /** The kinds whose ClassFooter generation is forwarded. */
  predicate HasClassFooter(k: EntityKind)
  {
    k == Struct || k == Class || k == Method || k == Field
  }

  /** A field or method has an outer entity, and it is a struct or class. */
  ghost predicate OuterIsStructOrClass(f: FileParsingResult, id: nat)
    requires WellFormedFile(f) && id < |f.nodes|
  {
    var k := f.nodes[id].kind;
    (k == Method || k == Field) ==>
      f.outer[id].Some? && f.outer[id].value < |f.nodes| && IsStructOrClass(f.nodes[f.outer[id].value].kind)
  }

  /** The struct/class whose footer receives the ClassFooter code of entity `id`. */
  function FooterOwner(f: FileParsingResult, id: nat): (c: nat)
    requires WellFormedFile(f) && id < |f.nodes|
    requires HasClassFooter(f.nodes[id].kind) && OuterIsStructOrClass(f, id)
    ensures c < |f.nodes| && IsStructOrClass(f.nodes[c].kind)
    ensures IsStructOrClass(f.nodes[id].kind) ==> c == id
    ensures !IsStructOrClass(f.nodes[id].kind) ==> f.outer[id] == Some(c)
  {
    if IsStructOrClass(f.nodes[id].kind) then id else f.outer[id].value
  }

  /** The text of `c` in a footer map; a missing entry reads as empty. */
  function Lookup(m: map<nat, string>, c: nat): string
  {
    if c in m then m[c] else ""
  }

  /**
   * `m[c] += text` on a map whose `operator[]` creates a missing entry
   * empty: `c` gains the text at its end, and no other entry changes.
   */
  function AppendFooter(m: map<nat, string>, c: nat, text: string): (r: map<nat, string>)
    ensures r.Keys == m.Keys + {c}
    ensures r[c] == Lookup(m, c) + text
    ensures forall d :: d in m && d != c ==> r[d] == m[d]
  {
    m[c := Lookup(m, c) + text]
  }

  // ---------------------------------------------------------------------
  // Class footers over a whole run

  /** One ClassFooter write: the struct/class it goes to and the text. */
  datatype FooterWrite = FooterWrite(owner: nat, text: string)

  /** The footer map after the writes `w`, in order, from an empty map. */
  function Footers(w: seq<FooterWrite>): map<nat, string>
  {
    if w == [] then map[] else AppendFooter(Footers(w[..|w| - 1]), w[|w| - 1].owner, w[|w| - 1].text)
  }

  /** The texts of the writes to `c`, in order, concatenated. */
  function Collected(w: seq<FooterWrite>, c: nat): string
  {
    if w == [] then "" else (if w[0].owner == c then w[0].text else "") + Collected(w[1..], c)
  }

  lemma {:induction false} CollectedSnoc(w: seq<FooterWrite>, x: FooterWrite, c: nat)
    ensures Collected(w + [x], c) == Collected(w, c) + (if x.owner == c then x.text else "")
  {
    if w != [] {
      assert (w + [x])[1..] == w[1..] + [x];
      CollectedSnoc(w[1..], x, c);
    } else {
      assert [x][1..] == [];
    }
  }

  /**
   * After a run, the footer of a struct/class is the concatenation, in
   * generation order, of the ClassFooter texts written to it; it has an
   * entry exactly when something was written to it, even an empty text.
   */
  lemma {:induction false} FootersCollect(w: seq<FooterWrite>, c: nat)
    ensures Lookup(Footers(w), c) == Collected(w, c)
    ensures c in Footers(w) <==> exists k :: 0 <= k < |w| && w[k].owner == c
  {
    if w != [] {
      var front, x := w[..|w| - 1], w[|w| - 1];
      assert w == front + [x];
      FootersCollect(front, c);
      CollectedSnoc(front, x, c);
      if c in Footers(w) && x.owner != c {
        var k :| 0 <= k < |front| && front[k].owner == c;
        assert w[k].owner == c;
      }
      if exists k :: 0 <= k < |w| && w[k].owner == c {
        var k :| 0 <= k < |w| && w[k].owner == c;
        assert k < |front| ==> front[k].owner == c;
      }
    }
  }

  // ---------------------------------------------------------------------
  // Generated files

  /** A line written by GeneratedFile: a plain line, or a `#define` of a macro. */
  datatype FileLine = Line(text: string) | Macro(name: string, body: string)

  datatype GeneratedFile = GeneratedFile(path: string, lines: seq<FileLine>)

  /** The first line of both generated files. */
  const PragmaOnce: FileLine := Line("#pragma once\n")

  /** An include line of a generated file: the path quoted, then `trailer`. */
  function Include(path: string, trailer: string): FileLine
  {
    Line("#include \"" + path + "\"" + trailer)
  }

  /** The class-footer macro of each struct/class of `ids`, in order. */
  function FooterMacros(s: UnitSettings, f: FileParsingResult, footers: map<nat, string>, ids: seq<nat>): (r: seq<FileLine>)
    requires forall k :: 0 <= k < |ids| ==> ids[k] < |f.nodes|
    ensures |r| == |ids|
    ensures forall k :: 0 <= k < |ids| ==>
              r[k] == Macro(s.classFooterMacro(f.nodes[ids[k]]), Lookup(footers, ids[k]))
  {
    if ids == [] then []
    else
      var c := ids[|ids| - 1];
      FooterMacros(s, f, footers, ids[..|ids| - 1]) + [Macro(s.classFooterMacro(f.nodes[c]), Lookup(footers, c))]
  }

  /** Extending the listed ids by the next one appends that id's footer macro. */
  lemma FooterMacrosStep(s: UnitSettings, f: FileParsingResult, footers: map<nat, string>, ids: seq<nat>, k: nat)
    requires k < |ids| && forall j :: 0 <= j < |ids| ==> ids[j] < |f.nodes|
    ensures FooterMacros(s, f, footers, ids[..k + 1])
            == FooterMacros(s, f, footers, ids[..k]) + [Macro(s.classFooterMacro(f.nodes[ids[k]]), Lookup(footers, ids[k]))]
  {
    assert ids[..k + 1][..k] == ids[..k];
  }

  /** The loop of generateHeaderFile: one footer macro per listed struct or class, appended in order. */
  method WriteFooterMacros(s: UnitSettings, f: FileParsingResult, footers: map<nat, string>, classes: seq<nat>,
                           start: seq<FileLine>) returns (lines: seq<FileLine>)
    requires forall j :: 0 <= j < |classes| ==> classes[j] < |f.nodes|
    ensures lines == start + FooterMacros(s, f, footers, classes)
  {
    lines := start;
    for k := 0 to |classes|
      invariant lines == start + FooterMacros(s, f, footers, classes[..k])
    {
      var c := classes[k];
      FooterMacrosStep(s, f, footers, classes, k);
      lines := lines + [Macro(s.classFooterMacro(f.nodes[c]), Lookup(footers, c))];
    }
    assert classes[..|classes|] == classes;
  }

  /** The structs and classes of a file, in the order the footer macros are written. */
  function StructsAndClasses(f: FileParsingResult): (ids: seq<nat>)
    requires WellFormedFile(f)
    ensures forall k :: 0 <= k < |ids| ==> ids[k] < |f.nodes|
  {
    StructClassWalk(f);
    WalkFile(f, {Class, Struct}, AsWritten)
  }

  /** The structs and classes listed are those of the file, in pre-order. */
  lemma StructsAndClassesInPreorder(f: FileParsingResult)
    requires WellFormedFile(f)
    ensures StructsAndClasses(f) == Filter(f.nodes, FilePreorder(f), {Class, Struct})
    ensures forall k :: 0 <= k < |StructsAndClasses(f)| ==> IsStructOrClass(f.nodes[StructsAndClasses(f)[k]].kind)
  {
    StructClassWalk(f);
    assert KindsIn(f.nodes, StructsAndClasses(f), {Class, Struct});
  }

  /** The generated header, line by line. */
  function HeaderLines(s: UnitSettings, f: FileParsingResult, buffers: seq<string>, footers: map<nat, string>): (r: seq<FileLine>)
    requires WellFormedFile(f) && |buffers| == 4
  {
    [PragmaOnce, Include(s.entityMacrosFilename, ""), Line(buffers[0])]
    + FooterMacros(s, f, footers, StructsAndClasses(f))
    + [Macro(s.headerFileFooterMacro(f.parsedFile), buffers[2])]
  }

  /** The generated source, line by line. */
  function SourceLines(f: FileParsingResult, buffers: seq<string>): (r: seq<FileLine>)
    requires |buffers| == 4
  {
    [PragmaOnce, Include(f.parsedFile, "\n"), Line(buffers[3])]
  }

  /**
   * The generated header opens with the pragma, the include of the entity
   * macros and the HeaderFileHeader code; then comes one class-footer macro
   * per struct and class of the file, in pre-order, whose body is that
   * class's footer code or empty; the HeaderFileFooter macro closes it. The
   * ClassFooter buffer appears nowhere.
   */
  lemma HeaderLayout(s: UnitSettings, f: FileParsingResult, buffers: seq<string>, footers: map<nat, string>)
    requires WellFormedFile(f) && |buffers| == 4
    ensures var r := HeaderLines(s, f, buffers, footers);
            var p := Filter(f.nodes, FilePreorder(f), {Class, Struct});
            && |r| == |p| + 4
            && r[0] == PragmaOnce
            && r[1] == Include(s.entityMacrosFilename, "")
            && r[2] == Line(buffers[0])
            && (forall k :: 0 <= k < |p| ==> p[k] < |f.nodes|)
            && (forall k :: 0 <= k < |p| ==>
                  IsStructOrClass(f.nodes[p[k]].kind) &&
                  r[k + 3] == Macro(s.classFooterMacro(f.nodes[p[k]]), Lookup(footers, p[k])))
            && r[|r| - 1] == Macro(s.headerFileFooterMacro(f.parsedFile), buffers[2])
  {
    StructsAndClassesInPreorder(f);
    var ids := StructsAndClasses(f);
    var head := [PragmaOnce, Include(s.entityMacrosFilename, ""), Line(buffers[0])];
    var m := FooterMacros(s, f, footers, ids);
    var r := HeaderLines(s, f, buffers, footers);
    var tail := [Macro(s.headerFileFooterMacro(f.parsedFile), buffers[2])];
    assert r == head + m + tail;
    forall k | 0 <= k < |ids|
      ensures r[k + 3] == m[k]
    {
      MiddleIndex(head, m, tail, k);
    }
  }

  lemma MiddleIndex<T>(a: seq<T>, b: seq<T>, c: seq<T>, k: nat)
    requires k < |b|
    ensures (a + b + c)[|a| + k] == b[k]
  {
  }

  // ---------------------------------------------------------------------
  // Staleness

  /** The answer of isUpToDate and the files afterwards (path to modification time). */
  datatype Staleness = Staleness(upToDate: bool, files: map<string, nat>)

  /**
   * MacroCodeGenUnit::isUpToDate. A missing generated header is created
   * (stamped `now`) and the answer is false; otherwise both generated files
   * must be strictly newer than the source.
   */
  function IsUpToDate(s: UnitSettings, files: map<string, nat>, sourceFile: string, now: nat): (r: Staleness)
    requires sourceFile in files
    ensures r.upToDate <==>
              var h, g := s.generatedHeaderPath(sourceFile), s.generatedSourcePath(sourceFile);
              h in files && g in files && files[h] > files[sourceFile] && files[g] > files[sourceFile]
    ensures r.files == if s.generatedHeaderPath(sourceFile) in files then files
                       else files[s.generatedHeaderPath(sourceFile) := now]
  {
    var h := s.generatedHeaderPath(sourceFile);
    if h !in files then Staleness(false, files[h := now])
    else if files[h] > files[sourceFile] then
      var g := s.generatedSourcePath(sourceFile);
      Staleness(g in files && files[g] > files[sourceFile], files)
    else Staleness(false, files)
  }

  /** Touching the source file makes the next check answer false. */
  lemma TouchMakesStale(s: UnitSettings, files: map<string, nat>, sourceFile: string, now: nat, touched: nat)
    requires sourceFile in files
    requires s.generatedHeaderPath(sourceFile) != sourceFile
    requires s.generatedHeaderPath(sourceFile) in files
    requires touched >= files[s.generatedHeaderPath(sourceFile)]
    ensures !IsUpToDate(s, files[sourceFile := touched], sourceFile, now).upToDate
  {
  }

  /**
   * The header a failed check creates empty is stamped later than the
   * source, so a second check answers true as soon as a newer generated
   * source exists, although nothing was generated into the header.
   */
  lemma CreatedHeaderCountsAsFresh(s: UnitSettings, files: map<string, nat>, sourceFile: string, now: nat, later: nat)
    requires sourceFile in files
    requires s.generatedHeaderPath(sourceFile) !in files
    requires s.generatedHeaderPath(sourceFile) != s.generatedSourcePath(sourceFile)
    requires s.generatedSourcePath(sourceFile) in files
    requires files[s.generatedSourcePath(sourceFile)] > files[sourceFile]
    requires now > files[sourceFile]
    ensures var first := IsUpToDate(s, files, sourceFile, now);
            && !first.upToDate
            && s.generatedHeaderPath(sourceFile) in first.files
            && IsUpToDate(s, first.files, sourceFile, later).upToDate
  {
    var first := IsUpToDate(s, files, sourceFile, now);
    assert first.files[sourceFile] == files[sourceFile];
  }

  // ---------------------------------------------------------------------
  // The unit

  class MacroCodeGenUnit {
    const settings: UnitSettings
    /** One code buffer per real location; the ClassFooter one is never written. */
    const generatedCodePerLocation: array<string>
    /** The class-footer code of each struct/class, by arena index. */
    var classFooterGeneratedCode: map<nat, string>

    ghost predicate Valid()
      reads this
    {
      generatedCodePerLocation.Length == LocationIndex(Count)
    }

    constructor (settings: UnitSettings)
      ensures Valid() && fresh(generatedCodePerLocation)
      ensures this.settings == settings
      ensures generatedCodePerLocation[..] == ["", "", "", ""] && classFooterGeneratedCode == map[]
    {
      this.settings := settings;
      generatedCodePerLocation := new string[4](_ => "");
      classFooterGeneratedCode := map[];
    }

    /**
     * generateCodeForEntity: the generator runs at each location in index
     * order with the location and its separator set in the environment.
     * ClassFooter code goes to the footer of the entity's struct/class and
     * is skipped for the other kinds; the other locations append to their
     * own buffer. The environment is left at the last location.
     */
    method GenerateCodeForEntity(id: nat, env: MacroCodeGenEnv, generate: Generator) returns (envOut: MacroCodeGenEnv)
      requires Valid()
      requires WellFormedFile(env.file) && id < |env.file.nodes|
      requires OuterIsStructOrClass(env.file, id)
      modifies this, generatedCodePerLocation
      ensures envOut == EnvAt(env, 3)
      ensures forall k :: 0 <= k < 4 ==>
                generatedCodePerLocation[k] ==
                  if k == 1 then old(generatedCodePerLocation[k])
                  else old(generatedCodePerLocation[k]) + generate(View(env.file, id), EnvAt(env, k))
      ensures classFooterGeneratedCode ==
                if HasClassFooter(env.file.nodes[id].kind)
                then AppendFooter(old(classFooterGeneratedCode), FooterOwner(env.file, id),
                                  generate(View(env.file, id), EnvAt(env, 1)))
                else old(classFooterGeneratedCode)
    {
      var e := View(env.file, id);
      var macroEnv := env;
      for i := 0 to 4
        invariant macroEnv == if i == 0 then env else EnvAt(env, i - 1)
        invariant forall k :: 0 <= k < 4 ==>
                    generatedCodePerLocation[k] ==
                      if k == 1 || k >= i then old(generatedCodePerLocation[k])
                      else old(generatedCodePerLocation[k]) + generate(e, EnvAt(env, k))
        invariant classFooterGeneratedCode ==
                    if i > 1 && HasClassFooter(e.entity.kind)
                    then AppendFooter(old(classFooterGeneratedCode), FooterOwner(env.file, id), generate(e, EnvAt(env, 1)))
                    else old(classFooterGeneratedCode)
      {
        macroEnv := macroEnv.(codeGenLocation := LocationAt(i), separator := Separators[i]);
        assert macroEnv == EnvAt(env, i);
        if macroEnv.codeGenLocation == ClassFooter {
          if !HasClassFooter(e.entity.kind) {
            continue;
          } else {
            GenerateEntityClassFooterCode(id, macroEnv, generate);
          }
        } else {
          generatedCodePerLocation[i] := generatedCodePerLocation[i] + generate(e, macroEnv);
        }
      }
      envOut := macroEnv;
    }

    /**
     * generateEntityClassFooterCode: a struct/class appends to its own
     * footer, a field or method to its outer struct/class's footer.
     */
    method GenerateEntityClassFooterCode(id: nat, env: MacroCodeGenEnv, generate: Generator)
      requires WellFormedFile(env.file) && id < |env.file.nodes|
      requires HasClassFooter(env.file.nodes[id].kind) && OuterIsStructOrClass(env.file, id)
      modifies this
      ensures classFooterGeneratedCode ==
                AppendFooter(old(classFooterGeneratedCode), FooterOwner(env.file, id), generate(View(env.file, id), env))
    {
      var e := View(env.file, id);
      var owner: nat;
      if e.entity.kind == Struct || e.entity.kind == Class {
        owner := id;
      } else {
        owner := env.file.outer[id].value;
      }
      classFooterGeneratedCode := classFooterGeneratedCode[owner := Lookup(classFooterGeneratedCode, owner) + generate(e, env)];
    }

    /**
     * preGenerateCode: when the base unit's pre-generation succeeds
     * (`baseOk`), every buffer and the footer map are emptied and the answer
     * is true; otherwise nothing changes and the answer is false.
     */
    method PreGenerateCode(baseOk: bool) returns (ok: bool)
      modifies this, generatedCodePerLocation
      ensures ok == baseOk
      ensures baseOk ==> classFooterGeneratedCode == map[] &&
                         forall k :: 0 <= k < generatedCodePerLocation.Length ==> generatedCodePerLocation[k] == ""
      ensures !baseOk ==> unchanged(this) && unchanged(generatedCodePerLocation)
    {
      if baseOk {
        classFooterGeneratedCode := map[];
        for i := 0 to generatedCodePerLocation.Length
          invariant classFooterGeneratedCode == map[]
          invariant forall k :: 0 <= k < i ==> generatedCodePerLocation[k] == ""
        {
          generatedCodePerLocation[i] := "";
        }
        ok := true;
      } else {
        ok := false;
      }
    }

    /** generateHeaderFile: the lines are written one by one, a footer macro per struct/class. */
    method GenerateHeaderFile(env: MacroCodeGenEnv) returns (header: GeneratedFile)
      requires Valid() && WellFormedFile(env.file)
      ensures header == GeneratedFile(settings.generatedHeaderPath(env.file.parsedFile),
                                      HeaderLines(settings, env.file, generatedCodePerLocation[..], classFooterGeneratedCode))
    {
      var lines := [PragmaOnce];
      lines := lines + [Include(settings.entityMacrosFilename, "")];
      lines := lines + [Line(generatedCodePerLocation[0])];
      lines := WriteFooterMacros(settings, env.file, classFooterGeneratedCode, StructsAndClasses(env.file), lines);
      lines := lines + [Macro(settings.headerFileFooterMacro(env.file.parsedFile), generatedCodePerLocation[2])];
      header := GeneratedFile(settings.generatedHeaderPath(env.file.parsedFile), lines);
    }

    /** generateSourceFile. */
    method GenerateSourceFile(env: MacroCodeGenEnv) returns (source: GeneratedFile)
      requires Valid()
      ensures source == GeneratedFile(settings.generatedSourcePath(env.file.parsedFile),
                                      SourceLines(env.file, generatedCodePerLocation[..]))
    {
      var lines := [PragmaOnce];
      lines := lines + [Include(env.file.parsedFile, "\n")];
      lines := lines + [Line(generatedCodePerLocation[3])];
      source := GeneratedFile(settings.generatedSourcePath(env.file.parsedFile), lines);
    }

    /** postGenerateCode: write the header, then the source; always succeeds. */
    method PostGenerateCode(env: MacroCodeGenEnv) returns (ok: bool, header: GeneratedFile, source: GeneratedFile)
      requires Valid() && WellFormedFile(env.file)
      ensures ok
      ensures header.path == settings.generatedHeaderPath(env.file.parsedFile)
      ensures header.lines == HeaderLines(settings, env.file, generatedCodePerLocation[..], classFooterGeneratedCode)
      ensures source.path == settings.generatedSourcePath(env.file.parsedFile)
      ensures source.lines == SourceLines(env.file, generatedCodePerLocation[..])
    {
      header := GenerateHeaderFile(env);
      source := GenerateSourceFile(env);
      ok := true;
    }
  }
}
