/**
 * CodeGenManagerSettings: the files and directories to process or to
 * ignore, and the supported extensions, each kept as a set and loaded from
 * a settings section.
 *
 * The filesystem queries the settings make (sanitising a path, asking
 * whether it names a directory, whether an extension has a stem) are the
 * functions of a PathOracle. A setting read from the section is the
 * sequence of its items, or None when it could not be read.
 */
module Settings {
  import opened Wrappers
  import opened Revisions

  datatype PathOracle = PathOracle(
    sanitize: string -> string,
    isDirectory: string -> bool,
    hasStem: string -> bool)

  /** What a set accepts: existing files, existing directories, or extensions. */
  datatype Rule = FileRule | DirectoryRule | ExtensionRule

  /** The key an item is stored under: the sanitised path, or an extension as given. */
  function Key(o: PathOracle, rule: Rule, x: string): string
  {
    if rule == ExtensionRule then x else o.sanitize(x)
  }

  /**
   * Paths are accepted when their sanitised form is non-empty and is a
   * directory exactly for the directory sets; extensions when they are
   * non-empty, start with '.' and have a stem.
   */
  predicate Accepts(o: PathOracle, rule: Rule, x: string)
  {
    match rule
    case FileRule => o.sanitize(x) != "" && !o.isDirectory(o.sanitize(x))
    case DirectoryRule => o.sanitize(x) != "" && o.isDirectory(o.sanitize(x))
    case ExtensionRule => x != "" && x[0] == '.' && o.hasStem(x)
  }

  /** The set after adding the items one at a time, from an empty set. */
  function Loaded(o: PathOracle, rule: Rule, items: seq<string>): set<string>
  {
    if items == [] then {}
    else
      var x := items[|items| - 1];
      Loaded(o, rule, items[..|items| - 1]) + (if Accepts(o, rule, x) then {Key(o, rule, x)} else {})
  }

  /** A setting that could not be read leaves its set empty. */
  function LoadedOrEmpty(o: PathOracle, rule: Rule, items: Option<seq<string>>): set<string>
  {
    if items.Some? then Loaded(o, rule, items.value) else {}
  }

  /**
   * A loaded set holds exactly the keys of the accepted items, whatever
   * their order and however often they repeat.
   */
  lemma {:induction false} LoadedIff(o: PathOracle, rule: Rule, items: seq<string>, q: string)
    ensures q in Loaded(o, rule, items) <==>
              exists k :: 0 <= k < |items| && Accepts(o, rule, items[k]) && Key(o, rule, items[k]) == q
  {
    if items != [] {
      var front, x := items[..|items| - 1], items[|items| - 1];
      LoadedIff(o, rule, front, q);
      if q in Loaded(o, rule, front) {
        var k :| 0 <= k < |front| && Accepts(o, rule, front[k]) && Key(o, rule, front[k]) == q;
        assert items[k] == front[k];
      }
      if exists k :: 0 <= k < |items| && Accepts(o, rule, items[k]) && Key(o, rule, items[k]) == q {
        var k :| 0 <= k < |items| && Accepts(o, rule, items[k]) && Key(o, rule, items[k]) == q;
        if k < |front| {
          assert front[k] == items[k];
        }
      }
    }
  }

  /** Every path loaded into a file set is a non-empty non-directory, into a directory set a directory. */
  lemma LoadedAreAccepted(o: PathOracle, rule: Rule, items: seq<string>, q: string)
    requires q in Loaded(o, rule, items)
    ensures rule != ExtensionRule ==> q != "" && (o.isDirectory(q) <==> rule == DirectoryRule)
    ensures rule == ExtensionRule ==> q != "" && q[0] == '.' && o.hasStem(q)
  {
    LoadedIff(o, rule, items, q);
  }

  /** The five sets of the settings, as a value. */
  datatype PathSets = PathSets(
    toProcessFiles: set<string>, toProcessDirectories: set<string>,
    ignoredFiles: set<string>, ignoredDirectories: set<string>,
    supportedExtensions: set<string>)

  /** A settings section: each setting, or None when it could not be read. */
  datatype SettingsSection = SettingsSection(
    supportedExtensions: Option<seq<string>>,
    toProcessFiles: Option<seq<string>>, toProcessDirectories: Option<seq<string>>,
    ignoredFiles: Option<seq<string>>, ignoredDirectories: Option<seq<string>>)

  /**
   * The supported extensions after loadSupportedExtensions. As written, a
   * missing logger skips the loading and leaves the set empty; in the
   * correction the logger only decides whether loading is reported.
   */
  function ExtensionsAfterLoad(o: PathOracle, items: Option<seq<string>>, hasLogger: bool, rev: Revision): (r: set<string>)
    ensures rev == Intended || hasLogger ==> r == LoadedOrEmpty(o, ExtensionRule, items)
    ensures rev == AsWritten && !hasLogger ==> r == {}
  {
    if items.Some? && (hasLogger || rev == Intended) then Loaded(o, ExtensionRule, items.value) else {}
  }

  /** A valid extension in the settings is dropped when no logger is given, and kept by the correction. */
  lemma MissingLoggerDropsExtensions(o: PathOracle)
    requires o.hasStem(".h")
    ensures ExtensionsAfterLoad(o, Some([".h"]), false, AsWritten) == {}
    ensures ExtensionsAfterLoad(o, Some([".h"]), false, Intended) == {".h"}
  {
    var items := [".h"];
    assert Accepts(o, ExtensionRule, items[0]) && Key(o, ExtensionRule, items[0]) == ".h";
    assert items[..0] == [];
    assert Loaded(o, ExtensionRule, items) == Loaded(o, ExtensionRule, []) + {".h"};
  }

  class CodeGenManagerSettings {
    const oracle: PathOracle
    var toProcessFiles: set<string>
    var toProcessDirectories: set<string>
    var ignoredFiles: set<string>
    var ignoredDirectories: set<string>
    var supportedExtensions: set<string>

    function Sets(): PathSets
      reads this
    {
      PathSets(toProcessFiles, toProcessDirectories, ignoredFiles, ignoredDirectories, supportedExtensions)
    }

    constructor (oracle: PathOracle)
      ensures this.oracle == oracle
      ensures Sets() == PathSets({}, {}, {}, {}, {})
    {
      this.oracle := oracle;
      toProcessFiles, toProcessDirectories := {}, {};
      ignoredFiles, ignoredDirectories := {}, {};
      supportedExtensions := {};
    }

    /** addToProcessFile: true iff the sanitised path is a new, acceptable file. */
    method AddToProcessFile(path: string) returns (added: bool)
      modifies this
      ensures added <==> Accepts(oracle, FileRule, path) && oracle.sanitize(path) !in old(toProcessFiles)
      ensures Sets() == old(Sets()).(toProcessFiles :=
                if Accepts(oracle, FileRule, path) then old(toProcessFiles) + {oracle.sanitize(path)} else old(toProcessFiles))
    {
      var sanitizedPath := oracle.sanitize(path);
      if sanitizedPath != "" && !oracle.isDirectory(sanitizedPath) {
        added := sanitizedPath !in toProcessFiles;
        toProcessFiles := toProcessFiles + {sanitizedPath};
      } else {
        added := false;
      }
    }

    /** addToProcessDirectory: true iff the sanitised path is a new directory. */
    method AddToProcessDirectory(path: string) returns (added: bool)
      modifies this
      ensures added <==> Accepts(oracle, DirectoryRule, path) && oracle.sanitize(path) !in old(toProcessDirectories)
      ensures Sets() == old(Sets()).(toProcessDirectories :=
                if Accepts(oracle, DirectoryRule, path) then old(toProcessDirectories) + {oracle.sanitize(path)}
                else old(toProcessDirectories))
    {
      var sanitizedPath := oracle.sanitize(path);
      if sanitizedPath != "" && oracle.isDirectory(sanitizedPath) {
        added := sanitizedPath !in toProcessDirectories;
        toProcessDirectories := toProcessDirectories + {sanitizedPath};
      } else {
        added := false;
      }
    }

    /** addIgnoredFile: true iff the sanitised path is a new, acceptable file. */
    method AddIgnoredFile(path: string) returns (added: bool)
      modifies this
      ensures added <==> Accepts(oracle, FileRule, path) && oracle.sanitize(path) !in old(ignoredFiles)
      ensures Sets() == old(Sets()).(ignoredFiles :=
                if Accepts(oracle, FileRule, path) then old(ignoredFiles) + {oracle.sanitize(path)} else old(ignoredFiles))
    {
      var sanitizedPath := oracle.sanitize(path);
      if sanitizedPath != "" && !oracle.isDirectory(sanitizedPath) {
        added := sanitizedPath !in ignoredFiles;
        ignoredFiles := ignoredFiles + {sanitizedPath};
      } else {
        added := false;
      }
    }

    /** addIgnoredDirectory: true iff the sanitised path is a new directory. */
    method AddIgnoredDirectory(path: string) returns (added: bool)
      modifies this
      ensures added <==> Accepts(oracle, DirectoryRule, path) && oracle.sanitize(path) !in old(ignoredDirectories)
      ensures Sets() == old(Sets()).(ignoredDirectories :=
                if Accepts(oracle, DirectoryRule, path) then old(ignoredDirectories) + {oracle.sanitize(path)}
                else old(ignoredDirectories))
    {
      var sanitizedPath := oracle.sanitize(path);
      if sanitizedPath != "" && oracle.isDirectory(sanitizedPath) {
        added := sanitizedPath !in ignoredDirectories;
        ignoredDirectories := ignoredDirectories + {sanitizedPath};
      } else {
        added := false;
      }
    }

    /** addSupportedExtension: true for every valid extension, already present or not. */
    method AddSupportedExtension(extension: string) returns (added: bool)
      modifies this
      ensures added <==> Accepts(oracle, ExtensionRule, extension)
      ensures Sets() == old(Sets()).(supportedExtensions :=
                if added then old(supportedExtensions) + {extension} else old(supportedExtensions))
    {
      if extension != "" && extension[0] == '.' && oracle.hasStem(extension) {
        supportedExtensions := supportedExtensions + {extension};
        added := true;
      } else {
        added := false;
      }
    }

    method RemoveToProcessFile(path: string)
      modifies this
      ensures Sets() == old(Sets()).(toProcessFiles := old(toProcessFiles) - {oracle.sanitize(path)})
    {
      toProcessFiles := toProcessFiles - {oracle.sanitize(path)};
    }

    method RemoveToProcessDirectory(path: string)
      modifies this
      ensures Sets() == old(Sets()).(toProcessDirectories := old(toProcessDirectories) - {oracle.sanitize(path)})
    {
      toProcessDirectories := toProcessDirectories - {oracle.sanitize(path)};
    }

    method RemoveIgnoredFile(path: string)
      modifies this
      ensures Sets() == old(Sets()).(ignoredFiles := old(ignoredFiles) - {oracle.sanitize(path)})
    {
      ignoredFiles := ignoredFiles - {oracle.sanitize(path)};
    }

    /** removeSupportedExtension erases the extension as given, unsanitised. */
    method RemoveSupportedExtension(extension: string)
      modifies this
      ensures Sets() == old(Sets()).(supportedExtensions := old(supportedExtensions) - {extension})
    {
      supportedExtensions := supportedExtensions - {extension};
    }

    method RemoveIgnoredDirectory(path: string)
      modifies this
      ensures Sets() == old(Sets()).(ignoredDirectories := old(ignoredDirectories) - {oracle.sanitize(path)})
    {
      ignoredDirectories := ignoredDirectories - {oracle.sanitize(path)};
    }

    method ClearToProcessFiles()
      modifies this
      ensures Sets() == old(Sets()).(toProcessFiles := {})
    {
      toProcessFiles := {};
    }

    method ClearToProcessDirectories()
      modifies this
      ensures Sets() == old(Sets()).(toProcessDirectories := {})
    {
      toProcessDirectories := {};
    }

    method ClearIgnoredFiles()
      modifies this
      ensures Sets() == old(Sets()).(ignoredFiles := {})
    {
      ignoredFiles := {};
    }

    method ClearIgnoredDirectories()
      modifies this
      ensures Sets() == old(Sets()).(ignoredDirectories := {})
    {
      ignoredDirectories := {};
    }

    method ClearSupportedExtensions()
      modifies this
      ensures Sets() == old(Sets()).(supportedExtensions := {})
    {
      supportedExtensions := {};
    }

    /**
     * loadSupportedExtensions: clear, then add each item. `rev` selects the
     * source's condition, which also requires a logger, or the correction.
     */
    method LoadSupportedExtensions(items: Option<seq<string>>, hasLogger: bool, rev: Revision)
      modifies this
      ensures Sets() == old(Sets()).(supportedExtensions := ExtensionsAfterLoad(oracle, items, hasLogger, rev))
    {
      ClearSupportedExtensions();
      if items.Some? && (hasLogger || rev == Intended) {
        var extensions := items.value;
        for k := 0 to |extensions|
          invariant Sets() == old(Sets()).(supportedExtensions := Loaded(oracle, ExtensionRule, extensions[..k]))
        {
          assert extensions[..k + 1][..k] == extensions[..k];
          var added := AddSupportedExtension(extensions[k]);
        }
        assert extensions[..|extensions|] == extensions;
      }
    }

    /** loadToProcessFiles: clear, then add each item. */
    method LoadToProcessFiles(items: Option<seq<string>>)
      modifies this
      ensures Sets() == old(Sets()).(toProcessFiles := LoadedOrEmpty(oracle, FileRule, items))
    {
      ClearToProcessFiles();
      if items.Some? {
        var paths := items.value;
        for k := 0 to |paths|
          invariant Sets() == old(Sets()).(toProcessFiles := Loaded(oracle, FileRule, paths[..k]))
        {
          assert paths[..k + 1][..k] == paths[..k];
          var success := AddToProcessFile(paths[k]);
        }
        assert paths[..|paths|] == paths;
      }
    }

    /** loadToProcessDirectories: clear, then add each item. */
    method LoadToProcessDirectories(items: Option<seq<string>>)
      modifies this
      ensures Sets() == old(Sets()).(toProcessDirectories := LoadedOrEmpty(oracle, DirectoryRule, items))
    {
      ClearToProcessDirectories();
      if items.Some? {
        var paths := items.value;
        for k := 0 to |paths|
          invariant Sets() == old(Sets()).(toProcessDirectories := Loaded(oracle, DirectoryRule, paths[..k]))
        {
          assert paths[..k + 1][..k] == paths[..k];
          var success := AddToProcessDirectory(paths[k]);
        }
        assert paths[..|paths|] == paths;
      }
    }

    /** loadIgnoredFiles: clear, then add each item. */
    method LoadIgnoredFiles(items: Option<seq<string>>)
      modifies this
      ensures Sets() == old(Sets()).(ignoredFiles := LoadedOrEmpty(oracle, FileRule, items))
    {
      ClearIgnoredFiles();
      if items.Some? {
        var paths := items.value;
        for k := 0 to |paths|
          invariant Sets() == old(Sets()).(ignoredFiles := Loaded(oracle, FileRule, paths[..k]))
        {
          assert paths[..k + 1][..k] == paths[..k];
          var success := AddIgnoredFile(paths[k]);
        }
        assert paths[..|paths|] == paths;
      }
    }

    /** loadIgnoredDirectories: clear, then add each item. */
    method LoadIgnoredDirectories(items: Option<seq<string>>)
      modifies this
      ensures Sets() == old(Sets()).(ignoredDirectories := LoadedOrEmpty(oracle, DirectoryRule, items))
    {
      ClearIgnoredDirectories();
      if items.Some? {
        var paths := items.value;
        for k := 0 to |paths|
          invariant Sets() == old(Sets()).(ignoredDirectories := Loaded(oracle, DirectoryRule, paths[..k]))
        {
          assert paths[..k + 1][..k] == paths[..k];
          var success := AddIgnoredDirectory(paths[k]);
        }
        assert paths[..|paths|] == paths;
      }
    }

    /**
     * loadSettingsValues: when the section exists, every set is replaced by
     * what its setting loads (extensions with the corrected condition) and
     * the answer is true; otherwise nothing changes and the answer is false.
     */
    method LoadSettingsValues(section: Option<SettingsSection>, hasLogger: bool) returns (found: bool)
      modifies this
      ensures found == section.Some?
      ensures !found ==> Sets() == old(Sets())
      ensures found ==>
                var v := section.value;
                Sets() == PathSets(
                  LoadedOrEmpty(oracle, FileRule, v.toProcessFiles),
                  LoadedOrEmpty(oracle, DirectoryRule, v.toProcessDirectories),
                  LoadedOrEmpty(oracle, FileRule, v.ignoredFiles),
                  LoadedOrEmpty(oracle, DirectoryRule, v.ignoredDirectories),
                  LoadedOrEmpty(oracle, ExtensionRule, v.supportedExtensions))
    {
      if section.Some? {
        var v := section.value;
        LoadSupportedExtensions(v.supportedExtensions, hasLogger, Intended);
        LoadToProcessFiles(v.toProcessFiles);
        LoadToProcessDirectories(v.toProcessDirectories);
        LoadIgnoredFiles(v.ignoredFiles);
        LoadIgnoredDirectories(v.ignoredDirectories);
        found := true;
      } else {
        found := false;
      }
    }
  }
}
