/**
 * PropertyCodeGen / MacroPropertyCodeGen as one object: a generator bound
 * to a property name and a mask of eligible entity kinds, the loop that runs
 * the visitor on the matching properties of an entity, the test deciding
 * whether the traversal should descend below the entity, and the adapter
 * from the generator's boolean answer to a traversal behaviour.
 */
module PropertyCodeGen {
  import opened EntityKinds
  import opened Entities
  import opened CodeGenEnv
  import opened MacroModule
  import opened MacroProperty
  import opened Traversal
  import opened Revisions

  /**
   * A macro property generator. It is a reference because a module keeps
   * its generators by address and removes them by identity.
   */
  class MacroPropertyCodeGen {
    const propertyName: string
    const eligibleEntityMask: Mask
    const hooks: PropertyHooks

    constructor (propertyName: string, eligibleEntityMask: Mask, hooks: PropertyHooks)
      ensures this.propertyName == propertyName
      ensures this.eligibleEntityMask == eligibleEntityMask
      ensures this.hooks == hooks
    {
      this.propertyName := propertyName;
      this.eligibleEntityMask := eligibleEntityMask;
      this.hooks := hooks;
    }

    /** shouldGenerateCode: the property carries the generator's name and the entity's kind is eligible. */
    predicate ShouldGenerateCode(e: EntityRef, p: Property, index: nat)
    {
      p.name == propertyName && Overlap(eligibleEntityMask, {e.entity.kind})
    }

    /** PropertyCodeGen::initialize. */
    method Initialize(env: MacroCodeGenEnv) returns (ok: bool)
      ensures ok
    {
      ok := true;
    }

    /**
     * PropertyCodeGen::generateCode: when the entity's kind is eligible, run
     * the visitor on each property the generator handles, in index order,
     * stopping at the first abort; otherwise answer whether the traversal
     * should descend below the entity, by the descent test of `rev`.
     */
    method GenerateCode(e: EntityRef, env: MacroCodeGenEnv, visitor: Visitor, rev: Revision)
      returns (r: TraversalBehaviour, visited: seq<nat>, text: string)
      ensures var run := RunVisitor(this, e, env, visitor, EligibleProperties(this, e));
              visited == run.visited && text == run.text &&
              r == (if run.aborted then AbortWithFailure
                    else if ShouldIterateOnNestedEntities(e.entity.kind, eligibleEntityMask, rev) then Recurse
                    else Continue)
    {
      var aborted := false;
      visited, text := [], "";
      if Overlap(eligibleEntityMask, {e.entity.kind}) {
        aborted, visited, text := VisitProperties(e, env, visitor);
      }
      r := if aborted then AbortWithFailure
           else if ShouldIterateOnNestedEntities(e.entity.kind, eligibleEntityMask, rev) then Recurse
           else Continue;
    }

    /**
     * The property loop of generateCode: visit, in index order, the
     * properties the generator handles, and stop at the first abort.
     */
    method VisitProperties(e: EntityRef, env: MacroCodeGenEnv, visitor: Visitor)
      returns (aborted: bool, visited: seq<nat>, text: string)
      ensures RunVisitor(this, e, env, visitor, MatchingProperties(this, e, |e.entity.properties|))
              == VisitRun(aborted, visited, text)
    {
      var properties := e.entity.properties;
      visited, text := [], "";
      var i := 0;
      while i < |properties|
        invariant 0 <= i <= |properties|
        invariant RunVisitor(this, e, env, visitor, MatchingProperties(this, e, i)) == VisitRun(false, visited, text)
      {
        var p := properties[i];
        if ShouldGenerateCode(e, p, i) {
          var o := visitor(this, e, env, p, i);
          RunVisits(this, e, env, visitor, i, visited, text);
          visited, text := visited + [i], text + o.text;
          if o.result == AbortWithFailure {
            RunAbortedAll(this, e, env, visitor, i + 1);
            return true, visited, text;
          }
        } else {
          RunSkips(this, e, env, visitor, i);
        }
        i := i + 1;
      }
      aborted := false;
    }
  }

  /** The visitor run on each matching property: generator, entity, environment, property, property index. */
  type Visitor = (MacroPropertyCodeGen, EntityRef, MacroCodeGenEnv, Property, nat) -> Output<TraversalBehaviour>

  // ---------------------------------------------------------------------
  // Specification of the property loop

  /** The indices among the first `n` properties of `e` that `g` handles, in increasing order. */
  function MatchingProperties(g: MacroPropertyCodeGen, e: EntityRef, n: nat): (ids: seq<nat>)
    requires n <= |e.entity.properties|
    ensures forall k :: 0 <= k < |ids| ==> ids[k] < n
    decreases n
  {
    if n == 0 then []
    else
      MatchingProperties(g, e, n - 1)
      + When(g.ShouldGenerateCode(e, e.entity.properties[n - 1], n - 1), [n - 1])
  }

  /** The properties the loop hands to the visitor when nothing aborts. */
  function EligibleProperties(g: MacroPropertyCodeGen, e: EntityRef): (ids: seq<nat>)
    ensures forall k :: 0 <= k < |ids| ==> ids[k] < |e.entity.properties|
  {
    When(Overlap(g.eligibleEntityMask, {e.entity.kind}), MatchingProperties(g, e, |e.entity.properties|))
  }

  /** The outcome of running the visitor over a list of property indices. */
  datatype VisitRun = VisitRun(aborted: bool, visited: seq<nat>, text: string)

  predicate Aborts(g: MacroPropertyCodeGen, e: EntityRef, env: MacroCodeGenEnv, visitor: Visitor, id: nat)
    requires id < |e.entity.properties|
  {
    visitor(g, e, env, e.entity.properties[id], id).result == AbortWithFailure
  }

  /** The visitor run over `ids` in order, stopping after the first abort. */
  function RunVisitor(g: MacroPropertyCodeGen, e: EntityRef, env: MacroCodeGenEnv, visitor: Visitor, ids: seq<nat>): VisitRun
    requires forall k :: 0 <= k < |ids| ==> ids[k] < |e.entity.properties|
    decreases |ids|
  {
    if ids == [] then VisitRun(false, [], "")
    else
      var prev := RunVisitor(g, e, env, visitor, ids[..|ids| - 1]);
      if prev.aborted then prev
      else
        var last := ids[|ids| - 1];
        var o := visitor(g, e, env, e.entity.properties[last], last);
        VisitRun(o.result == AbortWithFailure, prev.visited + [last], prev.text + o.text)
  }

  /** A longer property count only appends matching indices. */
  lemma {:induction false} MatchingPrefix(g: MacroPropertyCodeGen, e: EntityRef, n: nat, m: nat)
    requires n <= m <= |e.entity.properties|
    ensures MatchingProperties(g, e, n) <= MatchingProperties(g, e, m)
    decreases m - n
  {
    if n < m {
      MatchingPrefix(g, e, n, m - 1);
    }
  }

  /** A property the generator handles, reached before any abort, is visited and extends the run. */
  lemma RunVisits(g: MacroPropertyCodeGen, e: EntityRef, env: MacroCodeGenEnv, visitor: Visitor, i: nat,
                  visited: seq<nat>, text: string)
    requires i < |e.entity.properties| && g.ShouldGenerateCode(e, e.entity.properties[i], i)
    requires RunVisitor(g, e, env, visitor, MatchingProperties(g, e, i)) == VisitRun(false, visited, text)
    ensures var o := visitor(g, e, env, e.entity.properties[i], i);
            RunVisitor(g, e, env, visitor, MatchingProperties(g, e, i + 1))
            == VisitRun(o.result == AbortWithFailure, visited + [i], text + o.text)
  {
    var ids := MatchingProperties(g, e, i + 1);
    assert ids == MatchingProperties(g, e, i) + [i];
    assert ids[..|ids| - 1] == MatchingProperties(g, e, i);
  }

  /** A property the generator does not handle leaves the run as it was. */
  lemma RunSkips(g: MacroPropertyCodeGen, e: EntityRef, env: MacroCodeGenEnv, visitor: Visitor, i: nat)
    requires i < |e.entity.properties| && !g.ShouldGenerateCode(e, e.entity.properties[i], i)
    ensures RunVisitor(g, e, env, visitor, MatchingProperties(g, e, i + 1))
            == RunVisitor(g, e, env, visitor, MatchingProperties(g, e, i))
  {
    assert MatchingProperties(g, e, i + 1) == MatchingProperties(g, e, i);
  }

  /** After an abort the next property changes nothing. */
  lemma RunAbortedNext(g: MacroPropertyCodeGen, e: EntityRef, env: MacroCodeGenEnv, visitor: Visitor, n: nat)
    requires n < |e.entity.properties|
    requires RunVisitor(g, e, env, visitor, MatchingProperties(g, e, n)).aborted
    ensures RunVisitor(g, e, env, visitor, MatchingProperties(g, e, n + 1)) ==
            RunVisitor(g, e, env, visitor, MatchingProperties(g, e, n))
  {
    var ids := MatchingProperties(g, e, n + 1);
    if g.ShouldGenerateCode(e, e.entity.properties[n], n) {
      assert ids == MatchingProperties(g, e, n) + [n];
      assert ids[..|ids| - 1] == MatchingProperties(g, e, n);
    } else {
      assert ids == MatchingProperties(g, e, n);
    }
  }

  /** A run aborted on the first `n` properties is the whole loop's run. */
  lemma {:induction false} RunAbortedAll(g: MacroPropertyCodeGen, e: EntityRef, env: MacroCodeGenEnv, visitor: Visitor, n: nat)
    requires n <= |e.entity.properties|
    requires RunVisitor(g, e, env, visitor, MatchingProperties(g, e, n)).aborted
    ensures RunVisitor(g, e, env, visitor, MatchingProperties(g, e, |e.entity.properties|)) ==
            RunVisitor(g, e, env, visitor, MatchingProperties(g, e, n))
    decreases |e.entity.properties| - n
  {
    if n < |e.entity.properties| {
      RunAbortedNext(g, e, env, visitor, n);
      RunAbortedAll(g, e, env, visitor, n + 1);
    }
  }

  /** Once the run aborted, further indices change nothing. */
  lemma {:induction false} RunAbortedStays(g: MacroPropertyCodeGen, e: EntityRef, env: MacroCodeGenEnv, visitor: Visitor,
                                           ids: seq<nat>, rest: seq<nat>)
    requires forall k :: 0 <= k < |ids| ==> ids[k] < |e.entity.properties|
    requires forall k :: 0 <= k < |rest| ==> rest[k] < |e.entity.properties|
    requires RunVisitor(g, e, env, visitor, ids).aborted
    ensures RunVisitor(g, e, env, visitor, ids + rest) == RunVisitor(g, e, env, visitor, ids)
    decreases |rest|
  {
    if rest != [] {
      var front := rest[..|rest| - 1];
      RunAbortedStays(g, e, env, visitor, ids, front);
      var all := ids + rest;
      assert all[..|all| - 1] == ids + front;
      assert RunVisitor(g, e, env, visitor, all[..|all| - 1]).aborted;
    } else {
      assert ids + rest == ids;
    }
  }

  /** The visited indices are a prefix of the list, and all of it when nothing aborted. */
  lemma {:induction false} RunVisitsPrefix(g: MacroPropertyCodeGen, e: EntityRef, env: MacroCodeGenEnv,
                                           visitor: Visitor, ids: seq<nat>)
    requires forall k :: 0 <= k < |ids| ==> ids[k] < |e.entity.properties|
    ensures var run := RunVisitor(g, e, env, visitor, ids);
            run.visited <= ids && (!run.aborted ==> run.visited == ids)
    decreases |ids|
  {
    if ids != [] {
      var front := ids[..|ids| - 1];
      RunVisitsPrefix(g, e, env, visitor, front);
      assert ids == front + [ids[|ids| - 1]];
    }
  }

  /** The run aborted iff some index of the list aborts. */
  lemma {:induction false} RunAbortsIff(g: MacroPropertyCodeGen, e: EntityRef, env: MacroCodeGenEnv,
                                        visitor: Visitor, ids: seq<nat>)
    requires forall k :: 0 <= k < |ids| ==> ids[k] < |e.entity.properties|
    ensures RunVisitor(g, e, env, visitor, ids).aborted <==>
            exists k :: 0 <= k < |ids| && Aborts(g, e, env, visitor, ids[k])
    decreases |ids|
  {
    if ids != [] {
      var front := ids[..|ids| - 1];
      RunAbortsIff(g, e, env, visitor, front);
      if RunVisitor(g, e, env, visitor, front).aborted {
        var k :| 0 <= k < |front| && Aborts(g, e, env, visitor, front[k]);
        assert ids[k] == front[k];
      } else {
        assert forall k :: 0 <= k < |front| ==> ids[k] == front[k];
      }
    }
  }

  /** An aborted run ends on the index that aborted. */
  lemma {:induction false} RunEndsOnAbort(g: MacroPropertyCodeGen, e: EntityRef, env: MacroCodeGenEnv,
                                          visitor: Visitor, ids: seq<nat>)
    requires forall k :: 0 <= k < |ids| ==> ids[k] < |e.entity.properties|
    ensures var run := RunVisitor(g, e, env, visitor, ids);
            && run.visited <= ids
            && (run.aborted ==> |run.visited| > 0 && Aborts(g, e, env, visitor, run.visited[|run.visited| - 1]))
    decreases |ids|
  {
    RunVisitsPrefix(g, e, env, visitor, ids);
    if ids != [] {
      RunEndsOnAbort(g, e, env, visitor, ids[..|ids| - 1]);
    }
  }

  /** No visited index but the last one aborted. */
  lemma {:induction false} RunNoEarlyAbort(g: MacroPropertyCodeGen, e: EntityRef, env: MacroCodeGenEnv,
                                           visitor: Visitor, ids: seq<nat>)
    requires forall k :: 0 <= k < |ids| ==> ids[k] < |e.entity.properties|
    ensures var run := RunVisitor(g, e, env, visitor, ids);
            && run.visited <= ids
            && forall k :: 0 <= k < |run.visited| - 1 ==> !Aborts(g, e, env, visitor, run.visited[k])
    decreases |ids|
  {
    RunVisitsPrefix(g, e, env, visitor, ids);
    if ids != [] {
      var front := ids[..|ids| - 1];
      RunNoEarlyAbort(g, e, env, visitor, front);
      RunEndsOnAbort(g, e, env, visitor, front);
    }
  }

  /**
   * The loop stops exactly at the first abort: the visited indices are a
   * prefix of the list, all of them but the last did not abort, the run
   * aborted iff some index of the list aborts, and it then ends on the
   * first one that does; without an abort every index was visited.
   */
  lemma RunStopsAtFirstAbort(g: MacroPropertyCodeGen, e: EntityRef, env: MacroCodeGenEnv,
                             visitor: Visitor, ids: seq<nat>)
    requires forall k :: 0 <= k < |ids| ==> ids[k] < |e.entity.properties|
    ensures var run := RunVisitor(g, e, env, visitor, ids);
            && run.visited <= ids
            && (forall k :: 0 <= k < |run.visited| - 1 ==> !Aborts(g, e, env, visitor, run.visited[k]))
            && (run.aborted <==> exists k :: 0 <= k < |ids| && Aborts(g, e, env, visitor, ids[k]))
            && (run.aborted ==> |run.visited| > 0 && Aborts(g, e, env, visitor, run.visited[|run.visited| - 1]))
            && (!run.aborted ==> run.visited == ids)
  {
    RunVisitsPrefix(g, e, env, visitor, ids);
    RunAbortsIff(g, e, env, visitor, ids);
    RunEndsOnAbort(g, e, env, visitor, ids);
    RunNoEarlyAbort(g, e, env, visitor, ids);
  }

  /** An index is handed out by the loop iff the kind is eligible and the generator handles that property. */
  lemma {:induction false} MatchingPropertiesIff(g: MacroPropertyCodeGen, e: EntityRef, n: nat, k: nat)
    requires n <= |e.entity.properties|
    ensures k in MatchingProperties(g, e, n) <==>
              k < n && g.ShouldGenerateCode(e, e.entity.properties[k], k)
    decreases n
  {
    if n > 0 {
      MatchingPropertiesIff(g, e, n - 1, k);
    }
  }

  /** The matching indices are strictly increasing: property order, each property at most once. */
  lemma {:induction false} MatchingPropertiesIncreasing(g: MacroPropertyCodeGen, e: EntityRef, n: nat)
    requires n <= |e.entity.properties|
    ensures forall a, b :: 0 <= a < b < |MatchingProperties(g, e, n)| ==>
              MatchingProperties(g, e, n)[a] < MatchingProperties(g, e, n)[b]
    decreases n
  {
    if n > 0 {
      MatchingPropertiesIncreasing(g, e, n - 1);
    }
  }

  /**
   * The visitor is only ever called on the eligible properties: none at
   * all when the entity's kind is not in the mask, otherwise exactly the
   * properties the generator handles, in increasing index order.
   */
  lemma EligiblePropertiesIff(g: MacroPropertyCodeGen, e: EntityRef, k: nat)
    ensures k in EligibleProperties(g, e) <==>
              && Overlap(g.eligibleEntityMask, {e.entity.kind})
              && k < |e.entity.properties|
              && g.ShouldGenerateCode(e, e.entity.properties[k], k)
    ensures forall a, b :: 0 <= a < b < |EligibleProperties(g, e)| ==>
              EligibleProperties(g, e)[a] < EligibleProperties(g, e)[b]
  {
    MatchingPropertiesIff(g, e, |e.entity.properties|, k);
    MatchingPropertiesIncreasing(g, e, |e.entity.properties|);
  }

  // ---------------------------------------------------------------------
  // Descent and the boolean-to-behaviour adapter

  /**
   * PropertyCodeGen::shouldIterateOnNestedEntities for an entity of kind
   * `k`: whether the mask meets the kinds nested in such an entity.
   * `AsWritten` uses the nestedEntityTypes constants, which leave EnumValue
   * out for namespaces and structs/classes; `Intended` counts it in.
   */
  function ShouldIterateOnNestedEntities(k: EntityKind, mask: Mask, rev: Revision): bool
  {
    match k
    case Namespace => Overlap(NamespaceDescent(rev), mask)
    case Struct => Overlap(StructClassDescent(rev), mask)
    case Class => Overlap(StructClassDescent(rev), mask)
    case Enum => Overlap(EnumNestedTypes, mask)
    case _ => false
  }

  lemma InAllKinds(x: EntityKind)
    ensures x in AllKinds
  {
    match x
    case Namespace => case Class => case Struct => case Enum => case EnumValue =>
    case Function => case Variable => case Method => case Field =>
  }

  /** `a && b` is symmetric. */
  lemma OverlapSymmetric(a: Mask, b: Mask)
    ensures Overlap(a, b) == Overlap(b, a)
  {
    assert a * b == b * a;
  }

  /**
   * When the corrected test says not to descend, descending would find
   * nothing: the only entity of the subtree the mask selects is, possibly,
   * the entity itself.
   */
  lemma NoDescentFindsNothing(nodes: seq<Entity>, i: nat, mask: Mask)
    requires WellFormed(nodes) && i < |nodes|
    requires !ShouldIterateOnNestedEntities(nodes[i].kind, mask, Intended)
    ensures Filter(nodes, Preorder(nodes, i), mask) == When(nodes[i].kind in mask, [i])
  {
    WalkIsFilteredPreorder(nodes, i, mask);
    var c := nodes[i].children;
    assert ChildrenOk(nodes, c, i);
    match nodes[i].kind
    case Namespace =>
      OverlapSymmetric(NamespaceDescent(Intended), mask);
      assert mask == {} by {
        forall x | x in mask ensures x in mask * NamespaceDescent(Intended) {
          InAllKinds(x);
        }
      }
      assert WalkNamespace(nodes, i, mask, Intended) == [] + [] + [] + [] + [] + [] + [];
    case Class =>
      NoDescentStructClass(nodes, i, mask);
    case Struct =>
      NoDescentStructClass(nodes, i, mask);
    case Enum =>
      assert EnumValue in mask ==> EnumValue in EnumNestedTypes * mask;
    case _ =>
  }

  lemma NoDescentStructClass(nodes: seq<Entity>, i: nat, mask: Mask)
    requires WellFormed(nodes) && i < |nodes| && IsStructOrClass(nodes[i].kind)
    requires !Overlap(StructClassDescent(Intended), mask)
    ensures Walk(nodes, i, mask, Intended) == []
  {
    var c := nodes[i].children;
    assert ChildrenOk(nodes, c, i);
    OverlapSymmetric(StructClassDescent(Intended), mask);
    assert mask * EnumDescent <= mask * StructClassDescent(Intended);
    assert WalkStructClass(nodes, i, mask, Intended) == [] + [] + [] + [] + [] + [];
  }

  /**
   * As written, a generator for enum values only says not to descend into a
   * class that holds an enum, although the class's subtree holds an enum
   * value it would handle.
   */
  lemma ShouldIterateMissesNestedEnumValues()
    ensures WellFormedFile(FileWithNestedEnum())
    ensures !ShouldIterateOnNestedEntities(FileWithNestedEnum().nodes[0].kind, {EnumValue}, AsWritten)
    ensures ShouldIterateOnNestedEntities(FileWithNestedEnum().nodes[0].kind, {EnumValue}, Intended)
    ensures Filter(FileWithNestedEnum().nodes, Preorder(FileWithNestedEnum().nodes, 0), {EnumValue}) == [2]
  {
    var f := FileWithNestedEnum();
    var nodes := f.nodes;
    FileWithNestedEnumWellFormed();
    var m: Mask := {EnumValue};
    assert m * StructClassDescent(AsWritten) == {};
    assert EnumValue in StructClassDescent(Intended) * m;
    assert EnumValue in m * StructClassDescent(Intended);
    NestedEnumClassWalk();
    WalkIsFilteredPreorder(nodes, 0, m);
  }

  /**
   * PropertyCodeGen::generateCodeInterface: run the macro dispatch for one
   * property and turn its boolean into Recurse (true) or AbortWithFailure
   * (false); the appended text and the hooks run are the dispatch's.
   */
  function GenerateCodeInterface(g: MacroPropertyCodeGen, e: EntityRef, p: Property, index: nat,
                                 env: MacroCodeGenEnv): (d: Dispatch<TraversalBehaviour>)
    ensures var b := MacroProperty.GenerateCode(g.hooks, e, p, index, env);
            && (d.result == Recurse <==> b.result)
            && (d.result == AbortWithFailure <==> !b.result)
            && d.text == b.text && d.calls == b.calls
  {
    var b := MacroProperty.GenerateCode(g.hooks, e, p, index, env);
    Dispatch(if b.result then Recurse else AbortWithFailure, b.text, b.calls)
  }

  /**
   * The visitor a unit hands to the loop, generating each property through
   * generateCodeInterface. It never answers Continue, so with it a run
   * aborts exactly when one of the property dispatches fails.
   */
  function InterfaceVisitor(): Visitor
  {
    (g: MacroPropertyCodeGen, e: EntityRef, env: MacroCodeGenEnv, p: Property, index: nat) =>
      var d := GenerateCodeInterface(g, e, p, index, env);
      Output(d.result, d.text)
  }

  lemma InterfaceVisitorAborts(g: MacroPropertyCodeGen, e: EntityRef, env: MacroCodeGenEnv, id: nat)
    requires id < |e.entity.properties|
    ensures Aborts(g, e, env, InterfaceVisitor(), id) <==>
              !MacroProperty.GenerateCode(g.hooks, e, e.entity.properties[id], id, env).result
  {
  }

  // ---------------------------------------------------------------------
  // The 8-bit loop counter

  /** `i++` on the loop's `uint8` counter: 255 wraps to 0. */
  function U8Increment(i: nat): (j: nat)
    requires i < 256
    ensures j < 256
  {
    if i == 255 then 0 else i + 1
  }

  /** The value of the `uint8` counter after `k` iterations. */
  function U8CounterAfter(k: nat): (i: nat)
    ensures i < 256
  {
    if k == 0 then 0 else U8Increment(U8CounterAfter(k - 1))
  }

  /** The counter after `k` iterations is `k` modulo 256. */
  lemma {:induction false} U8CounterWraps(k: nat)
    ensures U8CounterAfter(k) == k % 256
  {
    if k > 0 {
      U8CounterWraps(k - 1);
      var d, r := (k - 1) / 256, (k - 1) % 256;
      assert k - 1 == 256 * d + r;
      if r == 255 {
        assert k == 256 * (d + 1);
      } else {
        assert k == 256 * d + (r + 1);
      }
    }
  }

  /**
   * With 256 properties or more the loop guard `i < size` holds after every
   * iteration, so the loop as written never exits; after 256 iterations it
   * is back on the first property.
   */
  lemma U8LoopNeverExits(size: nat, k: nat)
    requires size >= 256
    ensures U8CounterAfter(k) < size
    ensures U8CounterAfter(k + 256) == U8CounterAfter(k)
  {
    U8CounterWraps(k);
    U8CounterWraps(k + 256);
  }
}
