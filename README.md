# Kodgen macro code generation, modelled in Dafny

Kodgen parses C++ headers into a tree of entity descriptions: namespaces, structs and classes, enums and their values, fields, methods, functions and variables. Code generators then walk that tree and write generated code. This project models the macro-based generation core:

- **Entity traversal.** `foreachEntityOfType` on files, namespaces and structs/classes visits the entities of a kind mask in pre-order and descends only where the mask can still match. `refreshOuterEntity` re-links every nested entity to its owner (`Traversal`, `OuterEntity`, `Entities`).
- **Module and property dispatch.** `MacroCodeGenModule` and `MacroPropertyCodeGen` route `generateCode`, `initialGenerateCode` and `finalGenerateCode` to one hook per generation location: header-file header, class footer, header-file footer, source-file header (`MacroModule`, `MacroProperty`, `CodeGenEnv`).
- **Property generators.** `PropertyCodeGen::generateCode` runs a visitor over the properties of an eligible entity, stops at the first abort, and otherwise says whether to descend (`PropertyCodeGen`). `CodeGenModule` owns its list of property generators: it adds to it, removes by identity, and calls a visitor (`CodeGenModules`).
- **The `Set` example generator.** It emits a setter declaration into the class footer and its definition into the generated source. `GetSetCGM` is the module that registers it (`SetProperty`, `CodeGenModules`).
- **The per-file unit.** `MacroCodeGenUnit` keeps one buffer per location and one class-footer text per struct/class. It assembles the generated header and source files and decides whether they are up to date (`MacroUnit`).
- **Settings.** `CodeGenManagerSettings` holds the sets of files and directories to process or ignore, and the supported extensions. It loads them from a settings section (`Settings`).

Entities live in an arena (`seq<Entity>`). A child's index is greater than its parent's, and outer-entity links are a separate `seq`/`array` of optional indices. An entity pointer is an index into the arena. C++ objects whose fields change (the unit, the module, the property generator, the settings) are classes. Buffers the source mutates are arrays or fields, and loops are `while`/`for` loops with invariants. Each such method is tied to a specification function, and the lemmas are proved about that function.

Where the source is wrong, the model keeps both forms. A `Revision` (`AsWritten` or `Intended`) selects the code as written or the corrected behaviour. The rest of the model uses the corrected form (see "## Findings").

`isUpToDate` creates a missing generated header empty, because the parsed file includes it (MacroCodeGenUnit.h:117-121). The empty header is stamped at creation, later than the source, so the next check can answer "up to date" once a newer generated source exists (`MacroUnit.CreatedHeaderCountsAsFresh`, following MacroCodeGenUnit.cpp:133-141).

## Model

| member | source | states |
|---|---|---|
| Entities.DefaultStructClassInfo | Kodgen/Source/InfoStructures/StructClassInfo.cpp:7-12 | a default struct/class description is neither final nor a forward declaration and has no children and no properties |
| Entities.NewStructClassInfo | Kodgen/Source/InfoStructures/StructClassInfo.cpp:14-20 | a struct/class built from a cursor keeps its kind, name and properties, is never final, and is a forward declaration exactly as given |
| Traversal.WalkIsFilteredPreorder | Kodgen/Include/Kodgen/InfoStructures/NamespaceInfo.h:54-109 | with the corrected descent tests, walking any entity with a mask visits exactly the pre-order of its subtree filtered by the mask |
| Traversal.NamespaceIsFilteredPreorder | Kodgen/Include/Kodgen/InfoStructures/NamespaceInfo.h:54-109 | a namespace's walk with a mask is its full walk filtered by the mask: the descent tests skip only subtrees the mask cannot match |
| Traversal.StructClassIsFilteredPreorder | Kodgen/Include/Kodgen/InfoStructures/StructClassInfo.h:83-130 | a struct/class's walk with a mask is its full walk filtered by the mask (structs, classes, enums, fields, methods, in that order) |
| Traversal.WalkKinds | Kodgen/Include/Kodgen/InfoStructures/StructClassInfo.h:42 | every entity a walk visits has a kind that can be nested in the starting entity's kind |
| Traversal.WalkFileIsFilteredPreorder | Kodgen/Include/Kodgen/Parsing/ParsingResults/FileParsingResult.h:60-106 | a file's walk is the file-level pre-order (namespaces, classes, structs, enums, functions, variables) filtered by the mask |
| Traversal.WalkFileSound | Kodgen/Include/Kodgen/Parsing/ParsingResults/FileParsingResult.h:60-106 | every entity a file walk visits has a kind in the mask |
| Traversal.WalkRevisionsAgree | Kodgen/Include/Kodgen/InfoStructures/StructClassInfo.h:115-129 | for a mask without Field and EnumValue the written and corrected walks of an entity are identical |
| Traversal.WalkFileRevisionsAgree | Kodgen/Include/Kodgen/Parsing/ParsingResults/FileParsingResult.h:60-106 | for a mask without Field and EnumValue the written and corrected file walks are identical |
| Traversal.StructClassWalk | Kodgen/Include/Kodgen/Parsing/ParsingResults/FileParsingResult.h:70-81 | the Class/Struct walk is the same written or corrected, lists exactly the file's structs and classes in pre-order, and nothing else |
| Traversal.FieldMaskVisitsMethods | Kodgen/Include/Kodgen/InfoStructures/StructClassInfo.h:115-121 | as written, a Field mask visits a class's method instead of its field, and the mask Field and Method visits the method twice; corrected, the field and then the method |
| Traversal.EnumValueMaskMissesNestedValues | Kodgen/Include/Kodgen/Parsing/ParsingResults/FileParsingResult.h:62-81 | as written, an EnumValue mask finds no value of an enum nested in a class; corrected, it finds it |
| OuterEntity.RefreshOuterEntity | Kodgen/Source/InfoStructures/StructClassInfo.cpp:22-51 | the outer links after a refresh are the old links overlaid with the writes of the refresh, in source order: nested classes, structs, enums (recursively), fields, methods |
| OuterEntity.RefreshNestedList | Kodgen/Source/InfoStructures/StructClassInfo.cpp:24-34 | refreshing a list of nested structs/classes links each to the owner and refreshes each recursively |
| OuterEntity.RefreshEnumList | Kodgen/Source/InfoStructures/StructClassInfo.cpp:36-40 | refreshing the nested enums links each to the owner and refreshes its values |
| OuterEntity.LinkAll | Kodgen/Source/InfoStructures/StructClassInfo.cpp:42-50 | the loop over fields or methods links every listed entity to the owner and changes no other link |
| OuterEntity.RefreshWritesSound | Kodgen/Source/InfoStructures/StructClassInfo.cpp:22-51 | every link a refresh writes joins a child to the entity that lists it, inside the refreshed subtree |
| OuterEntity.RefreshLinksOwners | Kodgen/Source/InfoStructures/StructClassInfo.cpp:22-51 | after a refresh every written child points to its owner, the refreshed entity's own link is kept, and entities outside the subtree are unchanged |
| OuterEntity.DirectChildrenLinked | Kodgen/Source/InfoStructures/StructClassInfo.cpp:24-50 | every nested struct, class, enum, field and method is linked to the refreshed entity |
| OuterEntity.OverlayIdempotent | Kodgen/Source/InfoStructures/StructClassInfo.cpp:22-51 | refreshing twice leaves the same links as refreshing once |
| OuterEntity.OverlayAt | Kodgen/Source/InfoStructures/StructClassInfo.cpp:22-51 | each entity's link after the writes is the last write to it, or its old link when none names it |
| OuterEntity.LastWriteUnique | Kodgen/Source/InfoStructures/StructClassInfo.cpp:22-51 | when every write to an entity names the same owner, that owner is its final link |
| MacroModule.GenerateCode | Kodgen/Source/CodeGen/Macro/MacroCodeGenModule.cpp:11-54 | Count aborts with no hook called; otherwise exactly the location's hook runs, the pre hook only at the header-file header (its failure aborts), the post hook only at the source-file header (its failure turns the result into an abort) |
| MacroModule.InitialGenerateCode | Kodgen/Source/CodeGen/Macro/MacroCodeGenModule.cpp:56-99 | the file-level locations run their initial hook; the class footer and Count answer false with no text |
| MacroModule.FinalGenerateCode | Kodgen/Source/CodeGen/Macro/MacroCodeGenModule.cpp:101-133 | the file-level locations run their final hook; the class footer and Count answer false with no text |
| MacroModule.DefaultModuleGeneratesNothing | Kodgen/Source/CodeGen/Macro/MacroCodeGenModule.cpp:135-210 | with the default hooks a module writes nothing, answers the least prioritised behaviour per entity, and succeeds at every file-level location |
| MacroProperty.GenerateCode | Kodgen/Source/CodeGen/Macro/MacroPropertyCodeGen.cpp:7-38 | Count fails with no hook called; otherwise the location's hook runs, the pre hook only at the header-file header, the post hook only at the source-file header and only after the hook succeeded |
| MacroProperty.InitialGenerateCode | Kodgen/Source/CodeGen/Macro/MacroPropertyCodeGen.cpp:40-83 | the file-level locations run their initial hook and answer its result and text; the class footer and Count answer false with no text |
| MacroProperty.FinalGenerateCode | Kodgen/Source/CodeGen/Macro/MacroPropertyCodeGen.cpp:85-117 | the file-level locations run their final hook and answer its result and text; the class footer and Count answer false with no text |
| MacroProperty.DefaultPropertyGeneratesNothing | Kodgen/Source/CodeGen/Macro/MacroPropertyCodeGen.cpp:119-193 | with the default hooks a property generator writes nothing and succeeds at every real location |
| MacroProperty.PostHookAfterFailedGeneration | Kodgen/Source/CodeGen/Macro/MacroPropertyCodeGen.cpp:23-24 | unlike the module, a property generator whose source-file-header hook fails does not call its post hook |
| PropertyCodeGen.MacroPropertyCodeGen.constructor | Kodgen/Source/CodeGen/PropertyCodeGen.cpp:5-8 | a generator keeps the eligible-entity mask, the property name and the hooks it is built with |
| PropertyCodeGen.MacroPropertyCodeGen.Initialize | Kodgen/Source/CodeGen/PropertyCodeGen.cpp:10-13 | initialisation always succeeds |
| PropertyCodeGen.MacroPropertyCodeGen.GenerateCode | Kodgen/Source/CodeGen/PropertyCodeGen.cpp:40-66 | the loop visits, in index order, the properties the generator handles until the first abort; the result is the abort, or Recurse/Continue from the descent test of the given revision (as written, an entity's own nested-kind constants; corrected, with EnumValue counted in) |
| PropertyCodeGen.MacroPropertyCodeGen.VisitProperties | Kodgen/Source/CodeGen/PropertyCodeGen.cpp:50-62 | the loop over the properties yields the run of the visitor over the matching properties: the visited indices, their text and whether one aborted |
| PropertyCodeGen.MatchingPropertiesIff | Kodgen/Source/CodeGen/PropertyCodeGen.cpp:50-56 | an index is visited if and only if it is below the bound and the generator handles that property |
| PropertyCodeGen.MatchingPropertiesIncreasing | Kodgen/Source/CodeGen/PropertyCodeGen.cpp:50 | visited indices are strictly increasing |
| PropertyCodeGen.EligiblePropertiesIff | Kodgen/Source/CodeGen/PropertyCodeGen.cpp:45-56 | a property is visited if and only if the entity's kind is eligible and the generator handles the property |
| PropertyCodeGen.RunStopsAtFirstAbort | Kodgen/Source/CodeGen/PropertyCodeGen.cpp:50-62 | an aborted run has visited exactly the matching properties up to the first one whose visitor aborts |
| PropertyCodeGen.RunAbortedStays | Kodgen/Source/CodeGen/PropertyCodeGen.cpp:57-60 | once a run has aborted, further properties change neither its visits nor its text |
| PropertyCodeGen.NoDescentFindsNothing | Kodgen/Source/CodeGen/PropertyCodeGen.cpp:15-38 | when the corrected descent test says not to descend, the entity's subtree below it holds nothing of the mask |
| PropertyCodeGen.NoDescentStructClass | Kodgen/Source/CodeGen/PropertyCodeGen.cpp:22-25 | a struct/class whose nested kinds miss the mask has an empty walk |
| PropertyCodeGen.ShouldIterateMissesNestedEnumValues | Kodgen/Source/CodeGen/PropertyCodeGen.cpp:22-25 | as written, an EnumValue generator is told not to descend into a class holding an enum with values; corrected, it descends |
| PropertyCodeGen.GenerateCodeInterface | Kodgen/Source/CodeGen/PropertyCodeGen.cpp:68-73 | the visitor entry point answers Recurse when the generator succeeds on the property and AbortWithFailure when it fails, with the same text and hook calls |
| PropertyCodeGen.InterfaceVisitorAborts | Kodgen/Source/CodeGen/PropertyCodeGen.cpp:68-73 | the visitor entry point aborts exactly when the generator fails on that property |
| PropertyCodeGen.U8CounterWraps | Kodgen/Source/CodeGen/PropertyCodeGen.cpp:50 | the 8-bit property counter after n increments is n modulo 256 |
| PropertyCodeGen.U8LoopNeverExits | Kodgen/Source/CodeGen/PropertyCodeGen.cpp:50 | with 256 or more properties the 8-bit counter never reaches the count, so the loop condition never fails |
| SetProperty.ValidSetArgumentsIff | Kodgen/Examples/CppProperties/Generator/Include/SetPropertyCodeGen.h:26-47 | Set arguments are valid if and only if there are none, or exactly one that is "explicit" |
| SetProperty.ToUpper | Kodgen/Examples/CppProperties/Generator/Include/SetPropertyCodeGen.h:72 | lower-case ASCII letters become upper case; every other character is kept |
| SetProperty.BuildSetterSignature | Kodgen/Examples/CppProperties/Generator/Include/SetPropertyCodeGen.h:71-82 | for a non-empty field name and a type with at least one part (h:72 reads `at(0)` and h:78 reads `typeParts.back()`), the step-by-step `replace`/`insert`/`+=` construction of `methodName` yields exactly `SetterSignature`: "set", then the field name's first character upper-cased, then the rest of the name and the parameter list |
| SetProperty.IntSetterSignature | Kodgen/Examples/CppProperties/Generator/Include/SetPropertyCodeGen.h:71-82 | an int field x gets the setter signature "setX(int _kodgenx)": the name capitalised after "set", and the parameter name prefixed |
| SetProperty.ClassFooterCode | Kodgen/Examples/CppProperties/Generator/Include/SetPropertyCodeGen.h:50-92 | a non-field fails with no text; a const field fails; any other field receives the setter declaration |
| SetProperty.SourceFileHeaderCode | Kodgen/Examples/CppProperties/Generator/Include/SetPropertyCodeGen.h:94-126 | a Set property with an argument ("explicit") writes nothing and succeeds; otherwise a field gets the definition qualified by its owner's full name |
| SetProperty.NewSetPropertyCodeGen | Kodgen/Examples/CppProperties/Generator/Include/SetPropertyCodeGen.h:17-19 | the Set generator handles the property "Set" on fields, with the corrected hooks |
| SetProperty.DeclarationMatchesDefinition | Kodgen/Examples/CppProperties/Generator/Include/SetPropertyCodeGen.h:84-123 | the declaration in the class footer and the definition in the source carry the same setter signature |
| SetProperty.SetGeneration | Kodgen/Examples/CppProperties/Generator/Include/SetPropertyCodeGen.h:21-126 | for a valid non-const field the Set generator writes the declaration in the class footer and the definition in the source |
| SetProperty.InvalidArgumentsAbort | Kodgen/Examples/CppProperties/Generator/Include/SetPropertyCodeGen.h:26-43 | invalid arguments fail at the header-file header before any code is written |
| SetProperty.StaticSetterLosesSpace | Kodgen/Examples/CppProperties/Generator/Include/SetPropertyCodeGen.h:84-89 | as written, a static int field x is declared "staticvoid setX(int _kodgenx);"; corrected, "static void setX(int _kodgenx);" |
| SetProperty.StaticDeclarationSpaced | Kodgen/Examples/CppProperties/Generator/Include/SetPropertyCodeGen.h:84-89 | corrected, every static setter declaration starts with "static void " and every other with "void " |
| SetProperty.ConstVolatileFieldGetsSetter | Kodgen/Examples/CppProperties/Generator/Include/SetPropertyCodeGen.h:56 | as written, a const volatile field receives a setter; corrected, it does not |
| SetProperty.ConstFieldsGetNoSetter | Kodgen/Examples/CppProperties/Generator/Include/SetPropertyCodeGen.h:56 | corrected, no field whose type is const-qualified receives a setter |
| SetProperty.ConstCheckWidens | Kodgen/Examples/CppProperties/Generator/Include/SetPropertyCodeGen.h:56 | the corrected const test refuses every field the written one refuses |
| CodeGenModules.MacroCodeGenModule.constructor | Kodgen/Include/Kodgen/CodeGen/ICodeGenOrderable.h:17-25 | a new module has no property generators and generation order 0 |
| CodeGenModules.MacroCodeGenModule.GetSetCGM | Kodgen/Examples/CppProperties/Generator/Include/GetSetCGM.h:15-19 | the module registers the Get generator and then a new Set generator, in that order, and uses the default hooks; the Set generator has the Set property name, the Field mask and the Set generator's own hooks (corrected revision) |
| CodeGenModules.MacroCodeGenModule.Initialize | Kodgen/Source/CodeGen/CodeGenModule.cpp:10-13 | initialisation always succeeds |
| CodeGenModules.MacroCodeGenModule.GenerateCodeWithData | Kodgen/Source/CodeGen/CodeGenModule.cpp:15-18 | the four-argument generateCode answers what the three-argument one does |
| CodeGenModules.DataIsIgnored | Kodgen/Source/CodeGen/CodeGenModule.cpp:15-18 | the additional data never changes the answer |
| CodeGenModules.MacroCodeGenModule.AddPropertyCodeGen | Kodgen/Source/CodeGen/CodeGenModule.cpp:20-23 | the generator is appended at the end, even when already registered |
| CodeGenModules.MacroCodeGenModule.RemovePropertyCodeGen | Kodgen/Source/CodeGen/CodeGenModule.cpp:25-37 | the answer is whether the generator was registered; the list loses its first registration and nothing else |
| CodeGenModules.RemoveFirst | Kodgen/Source/CodeGen/CodeGenModule.cpp:25-37 | removal shortens the list by one exactly when the element is present, and leaves it unchanged otherwise |
| CodeGenModules.RemoveFirstAt | Kodgen/Source/CodeGen/CodeGenModule.cpp:27-34 | removal keeps everything before and after the first occurrence, in order |
| CodeGenModules.RemoveFirstMultiset | Kodgen/Source/CodeGen/CodeGenModule.cpp:25-37 | exactly one registration of the generator goes |
| CodeGenModules.AddThenRemove | Kodgen/Source/CodeGen/CodeGenModule.cpp:20-37 | adding then removing a new generator restores the list; for one already present the earlier registration goes |
| CodeGenModules.MacroCodeGenModule.CallVisitorOnEntity | Kodgen/Source/CodeGen/CodeGenModule.cpp:39-44 | the visitor is called once with the module, the entity, the environment and no data, and its answer is returned |
| MacroUnit.SeparatorsMatchWrapping | Kodgen/Source/CodeGen/Macro/MacroCodeGenUnit.cpp:11-17 | there is one separator per location; each ends a line, with a backslash exactly at the two locations whose code goes inside a macro |
| MacroUnit.FooterOwner | Kodgen/Source/CodeGen/Macro/MacroCodeGenUnit.cpp:147-161 | a struct/class's footer code is kept under itself, a field's or method's under its outer struct/class |
| MacroUnit.AppendFooter | Kodgen/Source/CodeGen/Macro/MacroCodeGenUnit.cpp:147-161 | appending creates the owner's entry if missing, extends only that entry, and keeps all others |
| MacroUnit.FootersCollect | Kodgen/Include/Kodgen/CodeGen/Macro/MacroCodeGenUnit.h:28-35 | after a series of appends each owner's footer is the concatenation of its texts in order, and an owner has an entry if and only if something was written for it |
| MacroUnit.FooterMacros | Kodgen/Source/CodeGen/Macro/MacroCodeGenUnit.cpp:100-109 | one macro per struct/class, named by the footer macro of that entity, whose body is its collected footer code |
| MacroUnit.StructsAndClassesInPreorder | Kodgen/Source/CodeGen/Macro/MacroCodeGenUnit.cpp:98-109 | the header lists the file's structs and classes in pre-order, and only those |
| MacroUnit.HeaderLayout | Kodgen/Source/CodeGen/Macro/MacroCodeGenUnit.cpp:84-114 | the header is pragma once, the entity-macros include, the header-header buffer, one macro per struct/class in pre-order, then the file footer macro |
| MacroUnit.IsUpToDate | Kodgen/Source/CodeGen/Macro/MacroCodeGenUnit.cpp:128-145 | up to date if and only if both generated files exist and are strictly newer than the source; a missing header is created |
| MacroUnit.TouchMakesStale | Kodgen/Source/CodeGen/Macro/MacroCodeGenUnit.cpp:137-141 | touching the source at or after the header's time makes the unit stale |
| MacroUnit.CreatedHeaderCountsAsFresh | Kodgen/Source/CodeGen/Macro/MacroCodeGenUnit.cpp:133-141 | a first check that finds no header reports stale and creates it; the next check reports up to date as soon as the generated source is newer than the source file |
| MacroUnit.MacroCodeGenUnit.constructor | Kodgen/Include/Kodgen/CodeGen/Macro/MacroCodeGenUnit.h:28-35 | a new unit has four empty location buffers and no class-footer code |
| MacroUnit.MacroCodeGenUnit.GenerateCodeForEntity | Kodgen/Source/CodeGen/Macro/MacroCodeGenUnit.cpp:19-50 | each location's buffer gains the text generated with that location and its separator; the class-footer text goes to the owning struct/class's footer instead, or nowhere for an entity without a class footer; the environment ends at the last location |
| MacroUnit.MacroCodeGenUnit.GenerateEntityClassFooterCode | Kodgen/Source/CodeGen/Macro/MacroCodeGenUnit.cpp:147-162 | the generated text is appended to the footer of the entity's owning struct/class |
| MacroUnit.MacroCodeGenUnit.PreGenerateCode | Kodgen/Source/CodeGen/Macro/MacroCodeGenUnit.cpp:57-73 | when the base step succeeds, all buffers and footers are cleared; otherwise nothing changes |
| MacroUnit.MacroCodeGenUnit.GenerateHeaderFile | Kodgen/Source/CodeGen/Macro/MacroCodeGenUnit.cpp:84-114 | the header file is written at the generated header path with the header layout |
| MacroUnit.WriteFooterMacros | Kodgen/Source/CodeGen/Macro/MacroCodeGenUnit.cpp:98-108 | one class footer macro per struct or class, in the order listed, each holding that entity's footer code or nothing |
| MacroUnit.MacroCodeGenUnit.GenerateSourceFile | Kodgen/Source/CodeGen/Macro/MacroCodeGenUnit.cpp:116-126 | the source file is pragma once, the include of the parsed file, and the source-header buffer, at the generated source path |
| MacroUnit.MacroCodeGenUnit.PostGenerateCode | Kodgen/Source/CodeGen/Macro/MacroCodeGenUnit.cpp:75-82 | the header is written at the generated header path and the source at the generated source path of the parsed file, both from the buffers, and the step succeeds |
| Settings.LoadedIff | Kodgen/Source/CodeGen/CodeGenManagerSettings.cpp:170-197 | a loaded set holds a key if and only if some accepted item has that key |
| Settings.LoadedAreAccepted | Kodgen/Source/CodeGen/CodeGenManagerSettings.cpp:30-76 | every key in a loaded set comes from an item the set accepts |
| Settings.ExtensionsAfterLoad | Kodgen/Source/CodeGen/CodeGenManagerSettings.cpp:142-168 | corrected, or with a logger, the extensions are those loaded from the setting; as written and without a logger the set stays empty |
| Settings.MissingLoggerDropsExtensions | Kodgen/Source/CodeGen/CodeGenManagerSettings.cpp:148 | as written, a valid ".h" is dropped when no logger is passed; corrected, it is kept |
| Settings.CodeGenManagerSettings.AddToProcessFile | Kodgen/Source/CodeGen/CodeGenManagerSettings.cpp:30-40 | the answer is true if and only if the sanitised path is a non-empty non-directory not yet present; only the to-process files change |
| Settings.CodeGenManagerSettings.AddToProcessDirectory | Kodgen/Source/CodeGen/CodeGenManagerSettings.cpp:42-52 | the answer is true if and only if the sanitised path is a new directory; only the to-process directories change |
| Settings.CodeGenManagerSettings.AddIgnoredFile | Kodgen/Source/CodeGen/CodeGenManagerSettings.cpp:54-64 | the answer is true if and only if the sanitised path is a new non-directory; only the ignored files change |
| Settings.CodeGenManagerSettings.AddIgnoredDirectory | Kodgen/Source/CodeGen/CodeGenManagerSettings.cpp:66-76 | the answer is true if and only if the sanitised path is a new directory; only the ignored directories change |
| Settings.CodeGenManagerSettings.AddSupportedExtension | Kodgen/Source/CodeGen/CodeGenManagerSettings.cpp:78-90 | the answer is true for every valid extension, present or not; only the extensions change |
| Settings.CodeGenManagerSettings.RemoveToProcessFile | Kodgen/Source/CodeGen/CodeGenManagerSettings.cpp:92-95 | the sanitised path leaves the to-process files; nothing else changes |
| Settings.CodeGenManagerSettings.RemoveToProcessDirectory | Kodgen/Source/CodeGen/CodeGenManagerSettings.cpp:97-100 | the sanitised path leaves the to-process directories; nothing else changes |
| Settings.CodeGenManagerSettings.RemoveIgnoredFile | Kodgen/Source/CodeGen/CodeGenManagerSettings.cpp:102-105 | the sanitised path leaves the ignored files; nothing else changes |
| Settings.CodeGenManagerSettings.RemoveSupportedExtension | Kodgen/Source/CodeGen/CodeGenManagerSettings.cpp:107-110 | the extension, unsanitised, leaves the supported extensions; nothing else changes |
| Settings.CodeGenManagerSettings.RemoveIgnoredDirectory | Kodgen/Source/CodeGen/CodeGenManagerSettings.cpp:112-115 | the sanitised path leaves the ignored directories; nothing else changes |
| Settings.CodeGenManagerSettings.ClearToProcessFiles | Kodgen/Source/CodeGen/CodeGenManagerSettings.cpp:117-120 | the to-process files become empty; nothing else changes |
| Settings.CodeGenManagerSettings.ClearToProcessDirectories | Kodgen/Source/CodeGen/CodeGenManagerSettings.cpp:122-125 | the to-process directories become empty; nothing else changes |
| Settings.CodeGenManagerSettings.ClearIgnoredFiles | Kodgen/Source/CodeGen/CodeGenManagerSettings.cpp:127-130 | the ignored files become empty; nothing else changes |
| Settings.CodeGenManagerSettings.ClearIgnoredDirectories | Kodgen/Source/CodeGen/CodeGenManagerSettings.cpp:132-135 | the ignored directories become empty; nothing else changes |
| Settings.CodeGenManagerSettings.ClearSupportedExtensions | Kodgen/Source/CodeGen/CodeGenManagerSettings.cpp:137-140 | the supported extensions become empty; nothing else changes |
| Settings.CodeGenManagerSettings.LoadSupportedExtensions | Kodgen/Source/CodeGen/CodeGenManagerSettings.cpp:142-168 | the extensions become those loaded from the setting, under the written or corrected logger condition; nothing else changes |
| Settings.CodeGenManagerSettings.LoadToProcessFiles | Kodgen/Source/CodeGen/CodeGenManagerSettings.cpp:170-197 | the to-process files become the accepted sanitised items, or empty when the setting is missing; nothing else changes |
| Settings.CodeGenManagerSettings.LoadToProcessDirectories | Kodgen/Source/CodeGen/CodeGenManagerSettings.cpp:199-226 | the to-process directories become the accepted sanitised items, or empty; nothing else changes |
| Settings.CodeGenManagerSettings.LoadIgnoredFiles | Kodgen/Source/CodeGen/CodeGenManagerSettings.cpp:228-255 | the ignored files become the accepted sanitised items, or empty; nothing else changes |
| Settings.CodeGenManagerSettings.LoadIgnoredDirectories | Kodgen/Source/CodeGen/CodeGenManagerSettings.cpp:257-284 | the ignored directories become the accepted sanitised items, or empty; nothing else changes |
| Settings.CodeGenManagerSettings.LoadSettingsValues | Kodgen/Source/CodeGen/CodeGenManagerSettings.cpp:8-28 | the answer is whether the section exists; if it does, all five sets are replaced by what their settings load; if not, nothing changes |

## Left out

- Logging: every `logger->log` call is left out. It has no effect on results.
- The generation driver is not part of this model. That covers phase sequencing, sorting modules by generation order, combining traversal behaviours across modules, and propagating aborts between them. So is `MacroCodeGenUnit::addModule`, which forwards to it.
- The check that the environment is a `MacroCodeGenEnv` (`dynamic_cast`) is left out: the model's environment always is one.
- Filesystem queries are the functions of a `PathOracle`, and file time stamps are a map. Path sanitising, directory tests and extension stems are parameters. `isFileNewerThan` is a strict `>` on time stamps.
- Reading the TOML settings file is left out. A setting is given as the sequence of its items, or `None` when it cannot be read.
- The GeneratedFile writer is reduced to its lines. `#define` continuation and the generated-file header comment are left out.
- MacroUnit.MacroCodeGenUnit.GenerateHeaderFile: the source moves the buffers into the written file. The model keeps them, because the next run clears them in `preGenerateCode` before any use.
- Generators are modelled as appending text for an entity and environment. They cannot change the environment they are given.
- `EnumInfo::foreachEntityOfType` and `EnumInfo::refreshOuterEntity` are modelled by analogy with the struct/class versions: enum values are visited and linked to their enum. Only `EnumInfo.h:23` (its nested kinds) is part of this model. `NamespaceInfo::refreshOuterEntity` is not part of this model.
- SetProperty.SourceFileHeaderCode: on a non-field, an entity without an outer entity, a field with an empty name or a field with an empty type it answers false. The source is undefined or terminates there: the static cast, the null outer-entity dereference, `typeParts.back()` on no parts (SetPropertyCodeGen.h:116-117), and `methodName.at(0)` throwing inside a `noexcept` function (h:111).
- SetProperty.ClassFooterCode: on a non-field, a field with an empty name or a field with an empty type it answers false with no text. The source is undefined or terminates there: the unconditional static cast (SetPropertyCodeGen.h:53), `typeParts.back()` on no parts (h:56), and `methodName.at(0)` throwing inside a `noexcept` function (h:72). The property dispatcher only runs the generator on fields, so the model gives these inputs a defined refusal.
- The default `shouldGenerateCode` (a property is handled when its name equals the generator's) follows its documented contract. PropertyCodeGen.h is not part of this model.
- The Set generator's `*ForEntity` overrides are modelled as the corresponding property hooks.
- MacroCodeGenUnit.h declares some members under names and signatures that differ from MacroCodeGenUnit.cpp. The model follows the .cpp.
- `GetSetCGM`'s copy constructor and `clone` are left out: the model has no object copying.
- `MacroCodeGenUnitSettings` path computation is left out. The generated header/source paths and the macro names are functions passed in the unit's settings.
- Settings.CodeGenManagerSettings.LoadSettingsValues: uses the corrected extension condition (see "## Findings"). The written one is `LoadSupportedExtensions` with `AsWritten`.
- The iteration order of the `unordered_set`s is left out: the sets the model computes do not depend on it.
- `getToProcessFiles` and the other getters are left out. They return a set unchanged.

## Findings

| source | as written | input that shows it | evidently intended | confidence | as-written member | corrected member |
|---|---|---|---|---|---|---|
| Kodgen/Include/Kodgen/InfoStructures/StructClassInfo.h:115-121 | the Field branch tests the Field flag but iterates over the methods | a class with one field and one method, mask Field | visit the fields | not executed; high | Traversal.FieldMaskVisitsMethods | Traversal.WalkIsFilteredPreorder |
| Kodgen/Include/Kodgen/Parsing/ParsingResults/FileParsingResult.h:62-81 | the descent tests use the namespaces' and structs/classes' nested kinds, which omit EnumValue | a class holding an enum with one value, mask EnumValue | descend wherever an enum value can be nested | not executed; medium | Traversal.EnumValueMaskMissesNestedValues | Traversal.WalkFileIsFilteredPreorder |
| Kodgen/Source/CodeGen/PropertyCodeGen.cpp:22-25 | shouldIterateOnNestedEntities inherits the same omission | an EnumValue generator visiting a class holding an enum | answer Recurse | not executed; medium | PropertyCodeGen.ShouldIterateMissesNestedEnumValues | PropertyCodeGen.NoDescentFindsNothing |
| Kodgen/Examples/CppProperties/Generator/Include/SetPropertyCodeGen.h:84-89 | "static" is written without a trailing space before "void " | a static int field x | "static void setX(int _kodgenx);" | not executed; high | SetProperty.StaticSetterLosesSpace | SetProperty.StaticDeclarationSpaced |
| Kodgen/Examples/CppProperties/Generator/Include/SetPropertyCodeGen.h:56 | the const test compares the descriptor with Const for equality | a const volatile int field | refuse every const-qualified field | not executed; medium | SetProperty.ConstVolatileFieldGetsSetter | SetProperty.ConstFieldsGetNoSetter |
| Kodgen/Source/CodeGen/PropertyCodeGen.cpp:50 | the property index is an 8-bit counter compared with the property count | an entity with 256 properties | a counter as wide as the count | not executed; low | PropertyCodeGen.U8LoopNeverExits | PropertyCodeGen.MacroPropertyCodeGen.GenerateCode |
| Kodgen/Source/CodeGen/CodeGenManagerSettings.cpp:148 | loading extensions also requires a non-null logger | settings listing ".h" loaded without a logger | load regardless of the logger, which is only used for reporting | not executed; medium | Settings.MissingLoggerDropsExtensions | Settings.CodeGenManagerSettings.LoadSettingsValues |
