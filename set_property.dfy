/**
 * The example Set property generator: it is bound to the property "Set" on
 * fields, validates the property's arguments before generation, declares
 * one setter per field in the owning class's footer, and defines it in the
 * generated source unless the property says "explicit".
 *
 * Two hooks carry discrepancies; each is modelled as written and corrected,
 * selected by a `Revision`, and the generator uses the corrected one.
 */
module SetProperty {
  import opened Wrappers
  import opened EntityKinds
  import opened Entities
  import opened CodeGenEnv
  import opened MacroModule
  import opened MacroProperty
  import opened PropertyCodeGen
  import opened Revisions

  const SetPropertyName: string := "Set"
  const SetEligibleMask: Mask := {Field}

  /** The argument check of the pre hook: no more than one argument, and a single one must be "explicit". */
  predicate ValidSetArguments(args: seq<string>)
  {
    if |args| > 1 then false
    else if |args| > 0 && args[0] != "explicit" then false
    else true
  }

  /** The Set property accepts exactly two argument lists: none, and "explicit" alone. */
  lemma ValidSetArgumentsIff(args: seq<string>)
    ensures ValidSetArguments(args) <==> args == [] || args == ["explicit"]
  {
    if |args| == 1 && args[0] == "explicit" {
      assert args == [args[0]];
    }
  }

  /** std::toupper on the ASCII letters; every other character is kept. */
  function ToUpper(c: char): (u: char)
    ensures 'a' <= c <= 'z' ==> 'A' <= u <= 'Z' && u as int == c as int - 32
    ensures !('a' <= c <= 'z') ==> u == c
  {
    if 'a' <= c <= 'z' then (c as int - 32) as char else c
  }

  /** The last part of a type: the part its top-level qualifiers apply to. */
  function LastPart(t: TypeInfo): TypePart
    requires |t.typeParts| > 0
  {
    t.typeParts[|t.typeParts| - 1]
  }

  /** Large or unsized values that are neither pointers nor lvalue references are passed by const reference. */
  predicate PassByConstRef(t: TypeInfo)
    requires |t.typeParts| > 0
  {
    (t.sizeInBytes == 0 || t.sizeInBytes > 4) && Ptr !in LastPart(t).descriptor && LRef !in LastPart(t).descriptor
  }

  function ParamName(fieldName: string): string
  {
    "_kodgen" + fieldName
  }

  /** The setter's name: "set" followed by the field's name with its first letter upper-cased. */
  function SetterName(fieldName: string): (n: string)
    requires |fieldName| > 0
  {
    "set" + [ToUpper(fieldName[0])] + fieldName[1..]
  }

  /** `setX(<type><passing><param>)`, shared by the declaration and the definition. */
  function SetterSignature(fieldName: string, t: TypeInfo): string
    requires |fieldName| > 0 && |t.typeParts| > 0
  {
    SetterName(fieldName) + "(" + t.canonicalName
    + (if PassByConstRef(t) then " const& " else " ")
    + ParamName(fieldName) + ")"
  }

  /**
   * The in-place construction of `methodName` in both generation hooks:
   * replace the first character by its upper case, insert "set" in front,
   * then append the parameter list.
   */
  method BuildSetterSignature(fieldName: string, t: TypeInfo) returns (methodName: string)
    requires |fieldName| > 0 && |t.typeParts| > 0
    ensures methodName == SetterSignature(fieldName, t)
    ensures |methodName| > 3 && methodName[..3] == "set" && methodName[3] == ToUpper(fieldName[0])
  {
    var paramName := "_kodgen" + fieldName;
    methodName := fieldName;
    methodName := [ToUpper(methodName[0])] + methodName[1..];
    methodName := "set" + methodName;
    methodName := methodName + "(";
    methodName := methodName + t.canonicalName;
    methodName := methodName + (if (t.sizeInBytes == 0 || t.sizeInBytes > 4)
                                   && Ptr !in t.typeParts[|t.typeParts| - 1].descriptor
                                   && LRef !in t.typeParts[|t.typeParts| - 1].descriptor
                                then " const& " else " ");
    methodName := methodName + paramName;
    methodName := methodName + ")";
  }

  /**
   * Whether the field is const qualified. As written the last part's
   * descriptor must equal Const exactly, so a `const volatile` field is not
   * recognised; corrected, the Const flag is tested.
   */
  predicate IsConstQualified(t: TypeInfo, rev: Revision)
    requires |t.typeParts| > 0
  {
    if rev == AsWritten then LastPart(t).descriptor == {Const} else Const in LastPart(t).descriptor
  }

  /** The qualifier written before "void" for a static field: as written it lacks its trailing space. */
  function StaticQualifier(isStatic: bool, rev: Revision): string
  {
    if !isStatic then "" else if rev == AsWritten then "static" else "static "
  }

  /** The declaration line the class footer receives. */
  function SetterDeclaration(fieldName: string, t: TypeInfo, isStatic: bool, separator: string, rev: Revision): string
    requires |fieldName| > 0 && |t.typeParts| > 0
  {
    StaticQualifier(isStatic, rev) + "void " + SetterSignature(fieldName, t) + ";" + separator
  }

  /** The definition line the generated source receives. */
  function SetterDefinition(outerName: string, fieldName: string, t: TypeInfo, separator: string): string
    requires |fieldName| > 0 && |t.typeParts| > 0
  {
    "void " + outerName + "::" + SetterSignature(fieldName, t)
    + " { " + fieldName + " = " + ParamName(fieldName) + "; }" + separator
  }

  /** The entity is a field with a non-empty name and a non-empty type. */
  predicate IsSettableField(e: EntityRef)
  {
    e.entity.details.FieldDetails? && |e.entity.name| > 0 && |e.entity.details.fieldType.typeParts| > 0
  }

  /**
   * generateClassFooterCodeForEntity: refuse a const field, otherwise
   * append the setter's declaration.
   */
  function ClassFooterCode(e: EntityRef, env: MacroCodeGenEnv, rev: Revision): (o: Output<bool>)
    ensures !IsSettableField(e) ==> o == Output(false, "")
    ensures IsSettableField(e) ==>
              var t := e.entity.details.fieldType;
              o == if IsConstQualified(t, rev) then Output(false, "")
                   else Output(true, SetterDeclaration(e.entity.name, t, e.entity.details.isStatic, env.separator, rev))
  {
    if !IsSettableField(e) then Output(false, "")
    else
      var t := e.entity.details.fieldType;
      if IsConstQualified(t, rev) then Output(false, "")
      else Output(true, SetterDeclaration(e.entity.name, t, e.entity.details.isStatic, env.separator, rev))
  }

  /**
   * generateSourceFileHeaderCodeForEntity: nothing for an explicit setter
   * (any argument), otherwise the setter's definition, qualified by the
   * outer entity's full name.
   */
  function SourceFileHeaderCode(e: EntityRef, p: Property, env: MacroCodeGenEnv): (o: Output<bool>)
    ensures |p.arguments| > 0 ==> o == Output(true, "")
    ensures |p.arguments| == 0 && IsSettableField(e) && e.outer.Some? ==>
              o == Output(true, SetterDefinition(e.outer.value.fullName, e.entity.name,
                                                 e.entity.details.fieldType, env.separator))
    ensures |p.arguments| == 0 && !(IsSettableField(e) && e.outer.Some?) ==> o == Output(false, "")
  {
    if |p.arguments| > 0 then Output(true, "")
    else if IsSettableField(e) && e.outer.Some? then
      Output(true, SetterDefinition(e.outer.value.fullName, e.entity.name, e.entity.details.fieldType, env.separator))
    else Output(false, "")
  }

  /** The Set generator's hooks: the three it overrides, the defaults elsewhere. */
  function SetHooks(rev: Revision): PropertyHooks
  {
    DefaultPropertyHooks().(
      preGenerateCode := (e: EntityRef, p: Property, i: nat, env: MacroCodeGenEnv) => ValidSetArguments(p.arguments),
      generateClassFooterCode := (e: EntityRef, p: Property, i: nat, env: MacroCodeGenEnv) => ClassFooterCode(e, env, rev),
      generateSourceFileHeaderCode := (e: EntityRef, p: Property, i: nat, env: MacroCodeGenEnv) => SourceFileHeaderCode(e, p, env))
  }

  /** SetPropertyCodeGen's constructor: property "Set", eligible kind Field. */
  method NewSetPropertyCodeGen() returns (g: MacroPropertyCodeGen)
    ensures fresh(g)
    ensures g.propertyName == SetPropertyName && g.eligibleEntityMask == SetEligibleMask
    ensures g.hooks == SetHooks(Intended)
  {
    g := new MacroPropertyCodeGen(SetPropertyName, SetEligibleMask, SetHooks(Intended));
  }

  // ---------------------------------------------------------------------
  // What the generator produces

  /**
   * The declaration and the definition name the same setter: both are
   * `void <signature>`, the definition qualified by the owning entity.
   */
  lemma DeclarationMatchesDefinition(e: EntityRef, p: Property, env: MacroCodeGenEnv, rev: Revision)
    requires IsSettableField(e) && e.outer.Some? && |p.arguments| == 0
    requires !IsConstQualified(e.entity.details.fieldType, rev)
    ensures var sig := SetterSignature(e.entity.name, e.entity.details.fieldType);
            && ClassFooterCode(e, env, rev).text
               == StaticQualifier(e.entity.details.isStatic, rev) + "void " + sig + ";" + env.separator
            && SourceFileHeaderCode(e, p, env).text
               == "void " + e.outer.value.fullName + "::" + sig
                  + " { " + e.entity.name + " = " + ParamName(e.entity.name) + "; }" + env.separator
  {
  }

  /**
   * Dispatched through the property generator, a valid Set property on a
   * settable, non-const field of an outer entity: passes the pre hook at
   * HeaderFileHeader with no text, declares the setter in the class
   * footer, and defines it in the source unless the argument is "explicit".
   */
  lemma SetGeneration(e: EntityRef, p: Property, index: nat, env: MacroCodeGenEnv)
    requires IsSettableField(e) && e.outer.Some?
    requires p.name == SetPropertyName && ValidSetArguments(p.arguments)
    requires !IsConstQualified(e.entity.details.fieldType, Intended)
    ensures var h := SetHooks(Intended);
            var t := e.entity.details.fieldType;
            && MacroProperty.GenerateCode(h, e, p, index, env.(codeGenLocation := HeaderFileHeader))
               == Dispatch(true, "", [PreHook, GenerateHook(HeaderFileHeader)])
            && MacroProperty.GenerateCode(h, e, p, index, env.(codeGenLocation := ClassFooter))
               == Dispatch(true, SetterDeclaration(e.entity.name, t, e.entity.details.isStatic, env.separator, Intended),
                           [GenerateHook(ClassFooter)])
            && MacroProperty.GenerateCode(h, e, p, index, env.(codeGenLocation := SourceFileHeader)).result
            && MacroProperty.GenerateCode(h, e, p, index, env.(codeGenLocation := SourceFileHeader)).text
               == (if p.arguments == ["explicit"] then ""
                   else SetterDefinition(e.outer.value.fullName, e.entity.name, t, env.separator))
  {
    ValidSetArgumentsIff(p.arguments);
  }

  /** Invalid arguments abort generation at HeaderFileHeader before the generation hook runs. */
  lemma InvalidArgumentsAbort(e: EntityRef, p: Property, index: nat, env: MacroCodeGenEnv)
    requires env.codeGenLocation == HeaderFileHeader
    requires p.arguments != [] && p.arguments != ["explicit"]
    ensures MacroProperty.GenerateCode(SetHooks(Intended), e, p, index, env) == Dispatch(false, "", [PreHook])
  {
    ValidSetArgumentsIff(p.arguments);
  }

  // ---------------------------------------------------------------------
  // The two discrepancies

  /** A 4-byte `int`, passed by value. */
  function IntType(): TypeInfo
  {
    TypeInfo("int", 4, [TypePart({})])
  }

  /** A static `int` field named "x". */
  function StaticIntField(): EntityRef
  {
    EntityRef(1, Entity(Field, "x", "C::x", [Property("Set", [])], NoChildren, FieldDetails(IntType(), true)),
              Some(Entity(Class, "C", "C", [], NoChildren.(fields := [1]), StructClassDetails(false, false))))
  }

  lemma IntSetterSignature()
    ensures SetterSignature("x", IntType()) == "setX(int _kodgenx)"
  {
    assert ToUpper('x') == 'X';
    assert SetterName("x") == "setX";
    assert !PassByConstRef(IntType());
    assert ParamName("x") == "_kodgenx";
    assert SetterSignature("x", IntType()) == "setX" + "(" + "int" + " " + "_kodgenx" + ")";
  }

  /**
   * As written, the static setter is declared as `staticvoid setX(int _kodgenx);`,
   * which does not compile; corrected, `static void setX(int _kodgenx);`.
   */
  lemma StaticSetterLosesSpace(env: MacroCodeGenEnv)
    ensures ClassFooterCode(StaticIntField(), env, AsWritten)
            == Output(true, "staticvoid setX(int _kodgenx);" + env.separator)
    ensures ClassFooterCode(StaticIntField(), env, Intended)
            == Output(true, "static void setX(int _kodgenx);" + env.separator)
  {
    StaticIntFieldFooter(env, AsWritten);
    StaticIntFieldFooter(env, Intended);
    StaticIntSetterDeclarations(env.separator);
  }

  /** The static int field is settable and not const, so its footer is its setter declaration. */
  lemma StaticIntFieldFooter(env: MacroCodeGenEnv, rev: Revision)
    ensures ClassFooterCode(StaticIntField(), env, rev)
            == Output(true, SetterDeclaration("x", IntType(), true, env.separator, rev))
  {
    var e := StaticIntField();
    assert IsSettableField(e) && e.entity.name == "x" && e.entity.details == FieldDetails(IntType(), true);
    assert !IsConstQualified(IntType(), rev);
  }

  lemma StaticIntSetterDeclarations(separator: string)
    ensures SetterDeclaration("x", IntType(), true, separator, AsWritten)
            == "staticvoid setX(int _kodgenx);" + separator
    ensures SetterDeclaration("x", IntType(), true, separator, Intended)
            == "static void setX(int _kodgenx);" + separator
  {
    IntSetterSignature();
    AsWrittenStaticLine();
    IntendedStaticLine();
  }

  lemma AsWrittenStaticLine()
    ensures "static" + "void " + "setX(int _kodgenx)" + ";" == "staticvoid setX(int _kodgenx);"
  {
  }

  lemma IntendedStaticLine()
    ensures "static " + "void " + "setX(int _kodgenx)" + ";" == "static void setX(int _kodgenx);"
  {
  }

  /** A `const volatile int` field named "v". */
  function ConstVolatileField(): EntityRef
  {
    EntityRef(1, Entity(Field, "v", "C::v", [Property("Set", [])], NoChildren,
                        FieldDetails(TypeInfo("const volatile int", 4, [TypePart({Const, Volatile})]), false)),
              Some(Entity(Class, "C", "C", [], NoChildren.(fields := [1]), StructClassDetails(false, false))))
  }

  /**
   * As written, a `const volatile` field passes the const check and gets a
   * setter that assigns to it; corrected, the generation is refused.
   */
  lemma ConstVolatileFieldGetsSetter(env: MacroCodeGenEnv)
    ensures ClassFooterCode(ConstVolatileField(), env, AsWritten).result
    ensures ClassFooterCode(ConstVolatileField(), env, Intended) == Output(false, "")
  {
    var written: set<TypeDescriptor> := {Const, Volatile};
    assert Volatile in written && written != {Const};
  }

  /** The corrected const check refuses every field the written one refuses, and more. */
  lemma ConstCheckWidens(t: TypeInfo)
    requires |t.typeParts| > 0
    ensures IsConstQualified(t, AsWritten) ==> IsConstQualified(t, Intended)
  {
  }

  /**
   * With the qualifier corrected, a static setter's declaration starts with
   * "static void " and any other with "void ".
   */
  lemma StaticDeclarationSpaced(fieldName: string, t: TypeInfo, isStatic: bool, separator: string)
    requires |fieldName| > 0 && |t.typeParts| > 0
    ensures var d := SetterDeclaration(fieldName, t, isStatic, separator, Intended);
            (isStatic ==> |d| >= 12 && d[..12] == "static void ")
            && (!isStatic ==> |d| >= 5 && d[..5] == "void ")
  {
    var rest := SetterSignature(fieldName, t) + ";" + separator;
    var d := SetterDeclaration(fieldName, t, isStatic, separator, Intended);
    if isStatic {
      assert d == "static void " + rest;
      PrefixOfConcat("static void ", rest);
    } else {
      assert d == "void " + rest;
      PrefixOfConcat("void ", rest);
    }
  }

  lemma PrefixOfConcat(a: string, b: string)
    ensures |a + b| >= |a| && (a + b)[..|a|] == a
  {
  }

  /** With the corrected check, no field whose last type part carries Const receives a setter. */
  lemma ConstFieldsGetNoSetter(e: EntityRef, env: MacroCodeGenEnv)
    requires IsSettableField(e) && Const in LastPart(e.entity.details.fieldType).descriptor
    ensures ClassFooterCode(e, env, Intended) == Output(false, "")
  {
  }
}
