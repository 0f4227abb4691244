/**
 * CodeGenModule / MacroCodeGenModule as one object: the module's hooks,
 * its generation order and the list of property generators it owns, kept
 * by reference, appended to and removed from by identity.
 */
module CodeGenModules {
  import opened Wrappers
  import opened Entities
  import opened CodeGenEnv
  import opened MacroModule
  import opened PropertyCodeGen
  import opened SetProperty
  import opened Revisions

  /** PropertyCodeGen::AdditionalData: the property a visitor call is about, and its index. */
  datatype PropertyData = PropertyData(property: Property, propertyIndex: nat)

  /** The visitor a unit runs on a module: module, entity, environment, optional property data. */
  type ModuleVisitor = (MacroCodeGenModule, EntityRef, MacroCodeGenEnv, Option<PropertyData>) -> TraversalBehaviour

  class MacroCodeGenModule {
    /** The property generators, in registration order; duplicates are allowed. */
    var propertyCodeGenerators: seq<MacroPropertyCodeGen>
    const hooks: MacroModuleHooks
    /** ICodeGenOrderable: lower runs first; 0 unless overridden. */
    const generationOrder: int

    constructor (hooks: MacroModuleHooks)
      ensures propertyCodeGenerators == []
      ensures this.hooks == hooks && generationOrder == 0
    {
      propertyCodeGenerators := [];
      this.hooks := hooks;
      generationOrder := 0;
    }

    /**
     * GetSetCGM: a module with the default hooks that registers its Get
     * generator, then its own Set generator.
     */
    constructor GetSetCGM(least: TraversalBehaviour, getPropertyCodeGen: MacroPropertyCodeGen)
      ensures |propertyCodeGenerators| == 2
      ensures propertyCodeGenerators[0] == getPropertyCodeGen
      ensures fresh(propertyCodeGenerators[1])
      ensures propertyCodeGenerators[1].propertyName == SetPropertyName
      ensures propertyCodeGenerators[1].eligibleEntityMask == SetEligibleMask
      ensures propertyCodeGenerators[1].hooks == SetHooks(Intended)
      ensures hooks == DefaultMacroModuleHooks(least) && generationOrder == 0
    {
      propertyCodeGenerators := [];
      hooks := DefaultMacroModuleHooks(least);
      generationOrder := 0;
      new;
      var setPropertyCodeGen := NewSetPropertyCodeGen();
      AddPropertyCodeGen(getPropertyCodeGen);
      AddPropertyCodeGen(setPropertyCodeGen);
    }

    /** CodeGenModule::initialize. */
    method Initialize(env: MacroCodeGenEnv) returns (ok: bool)
      ensures ok
    {
      ok := true;
    }

    /** The four-argument generateCode: the property data is ignored. */
    function GenerateCodeWithData(e: EntityRef, env: MacroCodeGenEnv, data: Option<PropertyData>): (d: Dispatch<TraversalBehaviour>)
      ensures d == MacroModule.GenerateCode(hooks, e, env)
    {
      MacroModule.GenerateCode(hooks, e, env)
    }

    /** addPropertyCodeGen: append at the end, even when already registered. */
    method AddPropertyCodeGen(g: MacroPropertyCodeGen)
      modifies this
      ensures propertyCodeGenerators == old(propertyCodeGenerators) + [g]
    {
      propertyCodeGenerators := propertyCodeGenerators + [g];
    }

    /**
     * removePropertyCodeGen: find the first registration of `g` and erase
     * it; answer whether there was one.
     */
    method RemovePropertyCodeGen(g: MacroPropertyCodeGen) returns (removed: bool)
      modifies this
      ensures removed == (g in old(propertyCodeGenerators))
      ensures propertyCodeGenerators == RemoveFirst(old(propertyCodeGenerators), g)
    {
      var k := 0;
      while k < |propertyCodeGenerators| && propertyCodeGenerators[k] != g
        invariant 0 <= k <= |propertyCodeGenerators|
        invariant forall j :: 0 <= j < k ==> propertyCodeGenerators[j] != g
      {
        k := k + 1;
      }
      if k < |propertyCodeGenerators| {
        RemoveFirstAt(propertyCodeGenerators, g, k);
        propertyCodeGenerators := propertyCodeGenerators[..k] + propertyCodeGenerators[k + 1..];
        removed := true;
      } else {
        removed := false;
      }
    }

    /** callVisitorOnEntity: one visitor call on this module, the entity, the environment and no data. */
    method CallVisitorOnEntity(e: EntityRef, env: MacroCodeGenEnv, visitor: ModuleVisitor) returns (r: TraversalBehaviour)
      ensures r == visitor(this, e, env, None)
    {
      r := visitor(this, e, env, None);
    }
  }

  /** The four-argument generateCode answers the same whatever the data. */
  lemma DataIsIgnored(m: MacroCodeGenModule, e: EntityRef, env: MacroCodeGenEnv, a: Option<PropertyData>, b: Option<PropertyData>)
    ensures m.GenerateCodeWithData(e, env, a) == m.GenerateCodeWithData(e, env, b)
  {
  }

  // ---------------------------------------------------------------------
  // Removal by identity

  /** `s` without its first occurrence of `x`; `s` itself when `x` is absent. */
  function RemoveFirst<T(==)>(s: seq<T>, x: T): (r: seq<T>)
    ensures |r| == if x in s then |s| - 1 else |s|
    ensures x !in s ==> r == s
  {
    if s == [] then []
    else if s[0] == x then s[1..]
    else [s[0]] + RemoveFirst(s[1..], x)
  }

  /** Removing the first occurrence at `k` keeps everything before and after it, in order. */
  lemma {:induction false} RemoveFirstAt<T>(s: seq<T>, x: T, k: nat)
    requires k < |s| && s[k] == x
    requires forall j :: 0 <= j < k ==> s[j] != x
    ensures RemoveFirst(s, x) == s[..k] + s[k + 1..]
  {
    if k > 0 {
      RemoveFirstAt(s[1..], x, k - 1);
      assert s[1..][..k - 1] == s[1..k];
      assert s[1..][k..] == s[k + 1..];
      assert s[..k] == [s[0]] + s[1..k];
    }
  }

  /** Exactly one registration of `x` goes, and nothing else does. */
  lemma {:induction false} RemoveFirstMultiset<T>(s: seq<T>, x: T)
    ensures multiset(RemoveFirst(s, x)) == multiset(s) - multiset{x}
  {
    if s != [] {
      RemoveFirstMultiset(s[1..], x);
      if s[0] == x {
        HeadRemovedMultiset(s, x);
      } else {
        HeadKeptMultiset(s, x);
      }
    }
  }

  lemma HeadRemovedMultiset<T>(s: seq<T>, x: T)
    requires s != [] && s[0] == x
    ensures multiset(RemoveFirst(s, x)) == multiset(s) - multiset{x}
  {
    assert s == [x] + s[1..];
    assert multiset(s) == multiset{x} + multiset(s[1..]);
  }

  lemma HeadKeptMultiset<T>(s: seq<T>, x: T)
    requires s != [] && s[0] != x
    requires multiset(RemoveFirst(s[1..], x)) == multiset(s[1..]) - multiset{x}
    ensures multiset(RemoveFirst(s, x)) == multiset(s) - multiset{x}
  {
    var a, rest := s[0], s[1..];
    var kept := RemoveFirst(rest, x);
    RemoveFirstKeepsHead(s, x);
    MultisetCons(a, kept);
    MultisetCons(a, rest);
    AddOtherThenRemove(a, multiset(rest), x);
    calc {
      multiset(RemoveFirst(s, x));
      multiset([a] + kept);
      multiset{a} + multiset(kept);
      multiset{a} + (multiset(rest) - multiset{x});
      (multiset{a} + multiset(rest)) - multiset{x};
      multiset([a] + rest) - multiset{x};
    }
  }

  /** A head other than `x` stays in front, and `s` is its head followed by its tail. */
  lemma RemoveFirstKeepsHead<T>(s: seq<T>, x: T)
    requires s != [] && s[0] != x
    ensures RemoveFirst(s, x) == [s[0]] + RemoveFirst(s[1..], x)
    ensures s == [s[0]] + s[1..]
  {
  }

  lemma MultisetCons<T>(a: T, t: seq<T>)
    ensures multiset([a] + t) == multiset{a} + multiset(t)
  {
  }

  /** Adding an element other than `x` commutes with removing one `x`. */
  lemma AddOtherThenRemove<T>(a: T, m: multiset<T>, x: T)
    requires a != x
    ensures multiset{a} + (m - multiset{x}) == (multiset{a} + m) - multiset{x}
  {
  }

  /**
   * Adding a generator and removing it restores the list when it was not
   * registered before; when it was, the earlier registration goes and the
   * new one stays at the end.
   */
  lemma {:induction false} AddThenRemove<T>(s: seq<T>, x: T)
    ensures x !in s ==> RemoveFirst(s + [x], x) == s
    ensures x in s ==> RemoveFirst(s + [x], x) == RemoveFirst(s, x) + [x]
  {
    if s != [] {
      AddThenRemove(s[1..], x);
      assert (s + [x])[1..] == s[1..] + [x];
      if s[0] != x {
        assert x in s ==> x in s[1..];
      }
    } else {
      assert [x][1..] == [];
    }
  }
}
