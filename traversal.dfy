/**
 * foreachEntityOfType: the masked, depth-first, pre-order walks of a file, a
 * namespace, a struct/class and an enum, each modelled as the sequence of
 * arena indices handed to the visitor, in visiting order.
 *
 * `AsWritten` follows the source. `Intended` corrects two discrepancies:
 * a Field mask visits the fields (the source visits the methods instead), and
 * a mask with EnumValue descends into namespaces and structs/classes (the
 * source's descent tests leave EnumValue out, so nested enum values are missed).
 */
module Traversal {
  import opened EntityKinds
  import opened Entities
  import opened Revisions

  /** Kinds for which a namespace (or the file) descends into its nested namespaces. */
  function NamespaceDescent(rev: Revision): Mask
  {
    if rev == AsWritten then NamespaceNestedTypes else NamespaceNestedTypes + {EnumValue}
  }

  /** Kinds for which nested classes and structs are descended into. */
  function StructClassDescent(rev: Revision): Mask
  {
    if rev == AsWritten then StructClassNestedTypes else StructClassNestedTypes + {EnumValue}
  }

  /** Kinds for which nested enums are descended into: Enum or EnumInfo::nestedEntityTypes. */
  const EnumDescent: Mask := {Enum} + EnumNestedTypes

  /** The entities a struct/class hands to the visitor when the mask carries Field. */
  function FieldVisits(c: Children, rev: Revision): seq<nat>
  {
    if rev == AsWritten then c.methods else c.fields
  }

  /** A part of a walk, taken only when `cond` holds. */
  function When(cond: bool, s: seq<nat>): seq<nat>
  {
    if cond then s else []
  }

  /** Walk of one entity, dispatched on its kind. */
  function Walk(nodes: seq<Entity>, i: nat, mask: Mask, rev: Revision): seq<nat>
    requires WellFormed(nodes) && i < |nodes|
    decreases |nodes| - i, 2, 0
  {
    match nodes[i].kind
    case Namespace => WalkNamespace(nodes, i, mask, rev)
    case Class => WalkStructClass(nodes, i, mask, rev)
    case Struct => WalkStructClass(nodes, i, mask, rev)
    case Enum => WalkEnum(nodes, i, mask)
    case _ => When(nodes[i].kind in mask, [i])
  }

  /** The walks of a nested collection when the mask meets `descent`, else nothing. */
  function Descend(nodes: seq<Entity>, ids: seq<nat>, mask: Mask, rev: Revision, parent: int, descent: Mask): seq<nat>
    requires WellFormed(nodes) && -1 <= parent
    requires forall k :: 0 <= k < |ids| ==> parent < ids[k] < |nodes|
    decreases |nodes| - parent, 0, |ids| + 1
  {
    if Overlap(mask, descent) then WalkList(nodes, ids, mask, rev, parent) else []
  }

  /** Walks of the entities of one nested collection, one after the other. */
  function WalkList(nodes: seq<Entity>, ids: seq<nat>, mask: Mask, rev: Revision, parent: int): seq<nat>
    requires WellFormed(nodes) && -1 <= parent
    requires forall k :: 0 <= k < |ids| ==> parent < ids[k] < |nodes|
    decreases |nodes| - parent, 0, |ids|
  {
    if ids == [] then [] else Walk(nodes, ids[0], mask, rev) + WalkList(nodes, ids[1..], mask, rev, parent)
  }

  /** NamespaceInfo::foreachEntityOfType. */
  function WalkNamespace(nodes: seq<Entity>, i: nat, mask: Mask, rev: Revision): seq<nat>
    requires WellFormed(nodes) && i < |nodes| && nodes[i].kind == Namespace
    decreases |nodes| - i, 1, 0
  {
    var c := nodes[i].children;
    assert ChildrenOk(nodes, c, i);
    When(Namespace in mask, [i])
    + Descend(nodes, c.namespaces, mask, rev, i, NamespaceDescent(rev))
    + Descend(nodes, c.classes, mask, rev, i, StructClassDescent(rev))
    + Descend(nodes, c.structs, mask, rev, i, StructClassDescent(rev))
    + Descend(nodes, c.enums, mask, rev, i, EnumDescent)
    + When(Function in mask, c.functions)
    + When(Variable in mask, c.variables)
  }

  /** StructClassInfo::foreachEntityOfType: nested structs come before nested classes. */
  function WalkStructClass(nodes: seq<Entity>, i: nat, mask: Mask, rev: Revision): seq<nat>
    requires WellFormed(nodes) && i < |nodes| && IsStructOrClass(nodes[i].kind)
    decreases |nodes| - i, 1, 0
  {
    var c := nodes[i].children;
    assert ChildrenOk(nodes, c, i);
    When(nodes[i].kind in mask, [i])
    + Descend(nodes, c.structs, mask, rev, i, StructClassDescent(rev))
    + Descend(nodes, c.classes, mask, rev, i, StructClassDescent(rev))
    + Descend(nodes, c.enums, mask, rev, i, EnumDescent)
    + When(Field in mask, FieldVisits(c, rev))
    + When(Method in mask, c.methods)
  }

  /** The enum's own walk: the enum if the mask carries Enum, then its values if it carries EnumValue. */
  function WalkEnum(nodes: seq<Entity>, i: nat, mask: Mask): seq<nat>
    requires i < |nodes|
  {
    When(Enum in mask, [i]) + When(EnumValue in mask, nodes[i].children.enumValues)
  }

  /** FileParsingResult::foreachEntityOfType. */
  function WalkFile(f: FileParsingResult, mask: Mask, rev: Revision): seq<nat>
    requires WellFormedFile(f)
  {
    var c := f.top;
    Descend(f.nodes, c.namespaces, mask, rev, -1, NamespaceDescent(rev))
    + Descend(f.nodes, c.classes, mask, rev, -1, StructClassDescent(rev))
    + Descend(f.nodes, c.structs, mask, rev, -1, StructClassDescent(rev))
    + Descend(f.nodes, c.enums, mask, rev, -1, EnumDescent)
    + When(Function in mask, c.functions)
    + When(Variable in mask, c.variables)
  }

  // ---------------------------------------------------------------------
  // Reference: the full pre-order enumeration, filtered by kind

  /** Every entity under (and including) `i`, in pre-order. */
  function Preorder(nodes: seq<Entity>, i: nat): seq<nat>
    requires WellFormed(nodes) && i < |nodes|
  {
    Walk(nodes, i, AllKinds, Intended)
  }

  /** Every entity of the file, in pre-order. */
  function FilePreorder(f: FileParsingResult): seq<nat>
    requires WellFormedFile(f)
  {
    WalkFile(f, AllKinds, Intended)
  }

  /** The indices of `s` whose entity has a kind of `mask`, in order. */
  function Filter(nodes: seq<Entity>, s: seq<nat>, mask: Mask): seq<nat>
  {
    if s == [] then []
    else When(s[0] < |nodes| && nodes[s[0]].kind in mask, [s[0]]) + Filter(nodes, s[1..], mask)
  }

  /** Every index of `s` names an entity whose kind is in `kinds`. */
  ghost predicate KindsIn(nodes: seq<Entity>, s: seq<nat>, kinds: Mask)
  {
    forall k :: 0 <= k < |s| ==> s[k] < |nodes| && nodes[s[k]].kind in kinds
  }

  /** The kinds that can occur in the subtree of an entity of kind `k`, itself included. */
  function SubtreeKinds(k: EntityKind): Mask
  {
    match k
    case Namespace => AllKinds
    case Class => StructClassDescent(Intended)
    case Struct => StructClassDescent(Intended)
    case Enum => EnumDescent
    case _ => {k}
  }

  lemma FilterConcat(nodes: seq<Entity>, a: seq<nat>, b: seq<nat>, mask: Mask)
    ensures Filter(nodes, a + b, mask) == Filter(nodes, a, mask) + Filter(nodes, b, mask)
  {
    if a == [] {
      assert a + b == b;
    } else {
      assert (a + b)[1..] == a[1..] + b;
      FilterConcat(nodes, a[1..], b, mask);
    }
  }

  /** The filter of six consecutive parts is the concatenation of the parts' filters. */
  lemma FilterSix(nodes: seq<Entity>, mask: Mask, b1: seq<nat>, b2: seq<nat>, b3: seq<nat>,
                  b4: seq<nat>, b5: seq<nat>, b6: seq<nat>)
    ensures Filter(nodes, b1 + b2 + b3 + b4 + b5 + b6, mask)
         == Filter(nodes, b1, mask) + Filter(nodes, b2, mask) + Filter(nodes, b3, mask)
          + Filter(nodes, b4, mask) + Filter(nodes, b5, mask) + Filter(nodes, b6, mask)
  {
    FilterConcat(nodes, b1 + b2 + b3 + b4 + b5, b6, mask);
    FilterConcat(nodes, b1 + b2 + b3 + b4, b5, mask);
    FilterConcat(nodes, b1 + b2 + b3, b4, mask);
    FilterConcat(nodes, b1 + b2, b3, mask);
    FilterConcat(nodes, b1, b2, mask);
  }

  /** Six parts, each the filter of its counterpart: their concatenations match likewise. */
  lemma FilterSixParts(nodes: seq<Entity>, mask: Mask, a1: seq<nat>, a2: seq<nat>, a3: seq<nat>, a4: seq<nat>,
                       a5: seq<nat>, a6: seq<nat>, b1: seq<nat>, b2: seq<nat>, b3: seq<nat>,
                       b4: seq<nat>, b5: seq<nat>, b6: seq<nat>)
    requires a1 == Filter(nodes, b1, mask) && a2 == Filter(nodes, b2, mask) && a3 == Filter(nodes, b3, mask)
    requires a4 == Filter(nodes, b4, mask) && a5 == Filter(nodes, b5, mask) && a6 == Filter(nodes, b6, mask)
    ensures a1 + a2 + a3 + a4 + a5 + a6 == Filter(nodes, b1 + b2 + b3 + b4 + b5 + b6, mask)
  {
    FilterSix(nodes, mask, b1, b2, b3, b4, b5, b6);
  }

  /** Seven parts, each the filter of its counterpart: their concatenations match likewise. */
  lemma FilterSeven(nodes: seq<Entity>, mask: Mask, a1: seq<nat>, a2: seq<nat>, a3: seq<nat>, a4: seq<nat>,
                    a5: seq<nat>, a6: seq<nat>, a7: seq<nat>, b1: seq<nat>, b2: seq<nat>, b3: seq<nat>,
                    b4: seq<nat>, b5: seq<nat>, b6: seq<nat>, b7: seq<nat>)
    requires a1 == Filter(nodes, b1, mask) && a2 == Filter(nodes, b2, mask) && a3 == Filter(nodes, b3, mask)
    requires a4 == Filter(nodes, b4, mask) && a5 == Filter(nodes, b5, mask) && a6 == Filter(nodes, b6, mask)
    requires a7 == Filter(nodes, b7, mask)
    ensures a1 + a2 + a3 + a4 + a5 + a6 + a7 == Filter(nodes, b1 + b2 + b3 + b4 + b5 + b6 + b7, mask)
  {
    FilterConcat(nodes, b1 + b2 + b3 + b4 + b5 + b6, b7, mask);
    FilterSix(nodes, mask, b1, b2, b3, b4, b5, b6);
  }

  /** Filtering a sequence whose kinds all lie outside the mask leaves nothing. */
  lemma FilterDisjoint(nodes: seq<Entity>, s: seq<nat>, kinds: Mask, mask: Mask)
    requires KindsIn(nodes, s, kinds) && !Overlap(mask, kinds)
    ensures Filter(nodes, s, mask) == []
  {
    if s != [] {
      var k := nodes[s[0]].kind;
      assert k !in mask by { assert k !in mask * kinds; }
      FilterDisjoint(nodes, s[1..], kinds, mask);
    }
  }

  /** Filtering a sequence of one kind keeps all of it or none of it. */
  lemma FilterUniform(nodes: seq<Entity>, s: seq<nat>, k: EntityKind, mask: Mask)
    requires KindsIn(nodes, s, {k})
    ensures Filter(nodes, s, mask) == When(k in mask, s)
  {
    if s != [] {
      FilterUniform(nodes, s[1..], k, mask);
    }
  }

  /** The filter keeps only entities of the mask's kinds. */
  lemma FilterKinds(nodes: seq<Entity>, s: seq<nat>, mask: Mask)
    ensures KindsIn(nodes, Filter(nodes, s, mask), mask)
  {
    if s != [] {
      FilterKinds(nodes, s[1..], mask);
    }
  }

  lemma KindsInConcat(nodes: seq<Entity>, a: seq<nat>, b: seq<nat>, kinds: Mask)
    requires KindsIn(nodes, a, kinds) && KindsIn(nodes, b, kinds)
    ensures KindsIn(nodes, a + b, kinds)
  {
  }

  lemma GroupKinds(nodes: seq<Entity>, ids: seq<nat>, k: EntityKind, parent: int, kinds: Mask)
    requires Group(nodes, ids, k, parent) && k in kinds
    ensures KindsIn(nodes, ids, kinds)
  {
  }

  /** A walk never leaves the subtree of its start, so it sees only the kinds that subtree can hold. */
  lemma {:induction false} WalkKinds(nodes: seq<Entity>, i: nat, mask: Mask, rev: Revision)
    requires WellFormed(nodes) && i < |nodes|
    ensures KindsIn(nodes, Walk(nodes, i, mask, rev), SubtreeKinds(nodes[i].kind))
    decreases |nodes| - i, 2, 0
  {
    var c := nodes[i].children;
    assert ChildrenOk(nodes, c, i);
    match nodes[i].kind
    case Namespace =>
      NamespaceKinds(nodes, i, mask, rev);
    case Class =>
      StructClassKinds(nodes, i, mask, rev);
    case Struct =>
      StructClassKinds(nodes, i, mask, rev);
    case Enum =>
      GroupKinds(nodes, c.enumValues, EnumValue, i, EnumDescent);
      KindsInConcat(nodes, When(Enum in mask, [i]), When(EnumValue in mask, c.enumValues), EnumDescent);
    case _ =>
  }

  lemma {:induction false} NamespaceKinds(nodes: seq<Entity>, i: nat, mask: Mask, rev: Revision)
    requires WellFormed(nodes) && i < |nodes| && nodes[i].kind == Namespace
    ensures KindsIn(nodes, WalkNamespace(nodes, i, mask, rev), AllKinds)
    decreases |nodes| - i, 1, 0
  {
    var c := nodes[i].children;
    assert ChildrenOk(nodes, c, i);
    var a1 := When(Namespace in mask, [i]);
    var a2 := Descend(nodes, c.namespaces, mask, rev, i, NamespaceDescent(rev));
    var a3 := Descend(nodes, c.classes, mask, rev, i, StructClassDescent(rev));
    var a4 := Descend(nodes, c.structs, mask, rev, i, StructClassDescent(rev));
    var a5 := Descend(nodes, c.enums, mask, rev, i, EnumDescent);
    var a6 := When(Function in mask, c.functions);
    var a7 := When(Variable in mask, c.variables);
    DescendKinds(nodes, c.namespaces, mask, rev, i, NamespaceDescent(rev), Namespace, AllKinds);
    DescendKinds(nodes, c.classes, mask, rev, i, StructClassDescent(rev), Class, AllKinds);
    DescendKinds(nodes, c.structs, mask, rev, i, StructClassDescent(rev), Struct, AllKinds);
    DescendKinds(nodes, c.enums, mask, rev, i, EnumDescent, Enum, AllKinds);
    GroupKinds(nodes, c.functions, Function, i, AllKinds);
    GroupKinds(nodes, c.variables, Variable, i, AllKinds);
    KindsInConcat(nodes, a1, a2, AllKinds);
    KindsInConcat(nodes, a1 + a2, a3, AllKinds);
    KindsInConcat(nodes, a1 + a2 + a3, a4, AllKinds);
    KindsInConcat(nodes, a1 + a2 + a3 + a4, a5, AllKinds);
    KindsInConcat(nodes, a1 + a2 + a3 + a4 + a5, a6, AllKinds);
    KindsInConcat(nodes, a1 + a2 + a3 + a4 + a5 + a6, a7, AllKinds);
  }

  lemma {:induction false} StructClassKinds(nodes: seq<Entity>, i: nat, mask: Mask, rev: Revision)
    requires WellFormed(nodes) && i < |nodes| && IsStructOrClass(nodes[i].kind)
    ensures KindsIn(nodes, WalkStructClass(nodes, i, mask, rev), StructClassDescent(Intended))
    decreases |nodes| - i, 1, 0
  {
    var c := nodes[i].children;
    assert ChildrenOk(nodes, c, i);
    var K := StructClassDescent(Intended);
    var a1 := When(nodes[i].kind in mask, [i]);
    var a2 := Descend(nodes, c.structs, mask, rev, i, StructClassDescent(rev));
    var a3 := Descend(nodes, c.classes, mask, rev, i, StructClassDescent(rev));
    var a4 := Descend(nodes, c.enums, mask, rev, i, EnumDescent);
    var a5 := When(Field in mask, FieldVisits(c, rev));
    var a6 := When(Method in mask, c.methods);
    DescendKinds(nodes, c.structs, mask, rev, i, StructClassDescent(rev), Struct, K);
    DescendKinds(nodes, c.classes, mask, rev, i, StructClassDescent(rev), Class, K);
    DescendKinds(nodes, c.enums, mask, rev, i, EnumDescent, Enum, K);
    GroupKinds(nodes, c.fields, Field, i, K);
    GroupKinds(nodes, c.methods, Method, i, K);
    KindsInConcat(nodes, a1, a2, K);
    KindsInConcat(nodes, a1 + a2, a3, K);
    KindsInConcat(nodes, a1 + a2 + a3, a4, K);
    KindsInConcat(nodes, a1 + a2 + a3 + a4, a5, K);
    KindsInConcat(nodes, a1 + a2 + a3 + a4 + a5, a6, K);
  }

  lemma {:induction false} DescendKinds(nodes: seq<Entity>, ids: seq<nat>, mask: Mask, rev: Revision,
                                        parent: int, descent: Mask, k: EntityKind, kinds: Mask)
    requires WellFormed(nodes) && -1 <= parent
    requires Group(nodes, ids, k, parent) && SubtreeKinds(k) <= kinds
    ensures KindsIn(nodes, Descend(nodes, ids, mask, rev, parent, descent), kinds)
    decreases |nodes| - parent, 0, |ids| + 1
  {
    if Overlap(mask, descent) {
      WalkListKinds(nodes, ids, mask, rev, parent, k, kinds);
    }
  }

  lemma {:induction false} WalkListKinds(nodes: seq<Entity>, ids: seq<nat>, mask: Mask, rev: Revision,
                                         parent: int, k: EntityKind, kinds: Mask)
    requires WellFormed(nodes) && -1 <= parent
    requires Group(nodes, ids, k, parent) && SubtreeKinds(k) <= kinds
    ensures KindsIn(nodes, WalkList(nodes, ids, mask, rev, parent), kinds)
    decreases |nodes| - parent, 0, |ids|
  {
    if ids != [] {
      WalkKinds(nodes, ids[0], mask, rev);
      WalkListKinds(nodes, ids[1..], mask, rev, parent, k, kinds);
      KindsInConcat(nodes, Walk(nodes, ids[0], mask, rev), WalkList(nodes, ids[1..], mask, rev, parent), kinds);
    }
  }

  /**
   * The corrected walk is the full pre-order enumeration restricted to the
   * mask: it visits exactly the entities of the requested kinds, in pre-order.
   */
  lemma {:induction false} WalkIsFilteredPreorder(nodes: seq<Entity>, i: nat, mask: Mask)
    requires WellFormed(nodes) && i < |nodes|
    ensures Walk(nodes, i, mask, Intended) == Filter(nodes, Preorder(nodes, i), mask)
    decreases |nodes| - i, 3, 0
  {
    match nodes[i].kind
    case Namespace => NamespaceIsFilteredPreorder(nodes, i, mask);
    case Class => StructClassIsFilteredPreorder(nodes, i, mask);
    case Struct => StructClassIsFilteredPreorder(nodes, i, mask);
    case _ => LeafIsFilteredPreorder(nodes, i, mask);
  }

  /** An enum, or an entity with nothing nested: its walk is its own filtered pre-order. */
  lemma LeafIsFilteredPreorder(nodes: seq<Entity>, i: nat, mask: Mask)
    requires WellFormed(nodes) && i < |nodes|
    requires nodes[i].kind != Namespace && !IsStructOrClass(nodes[i].kind)
    ensures Walk(nodes, i, mask, Intended) == Filter(nodes, Walk(nodes, i, AllKinds, Intended), mask)
  {
    if nodes[i].kind == Enum {
      assert ChildrenOk(nodes, nodes[i].children, i);
      EnumIsFilteredPreorder(nodes, i, mask);
    } else {
      FilterUniform(nodes, [i], nodes[i].kind, mask);
    }
  }

  /** An enum's walk under a mask is its full walk, the enum then its values, filtered by the mask. */
  lemma EnumIsFilteredPreorder(nodes: seq<Entity>, i: nat, mask: Mask)
    requires i < |nodes| && nodes[i].kind == Enum
    requires Group(nodes, nodes[i].children.enumValues, EnumValue, i)
    ensures WalkEnum(nodes, i, mask) == Filter(nodes, WalkEnum(nodes, i, AllKinds), mask)
  {
    var values := nodes[i].children.enumValues;
    assert WalkEnum(nodes, i, AllKinds) == [i] + values;
    FilterConcat(nodes, [i], values, mask);
    FilterUniform(nodes, [i], Enum, mask);
    FilterUniform(nodes, values, EnumValue, mask);
  }

  /** A collection of one kind is kept whole or dropped whole by the filter. */
  lemma GroupFiltered(nodes: seq<Entity>, ids: seq<nat>, k: EntityKind, parent: int, mask: Mask)
    requires Group(nodes, ids, k, parent)
    ensures Filter(nodes, ids, mask) == When(k in mask, ids)
  {
    assert KindsIn(nodes, ids, {k});
    FilterUniform(nodes, ids, k, mask);
  }

  /**
   * The collections a namespace or a file descends into, each walked with
   * the mask, are their full walks filtered by the mask.
   */
  lemma {:induction false} NamespaceNestedFiltered(nodes: seq<Entity>, c: Children, parent: int, mask: Mask)
    requires WellFormed(nodes) && -1 <= parent && ChildrenOk(nodes, c, parent)
    ensures Descend(nodes, c.namespaces, mask, Intended, parent, NamespaceDescent(Intended))
            == Filter(nodes, Descend(nodes, c.namespaces, AllKinds, Intended, parent, NamespaceDescent(Intended)), mask)
    ensures Descend(nodes, c.classes, mask, Intended, parent, StructClassDescent(Intended))
            == Filter(nodes, Descend(nodes, c.classes, AllKinds, Intended, parent, StructClassDescent(Intended)), mask)
    ensures Descend(nodes, c.structs, mask, Intended, parent, StructClassDescent(Intended))
            == Filter(nodes, Descend(nodes, c.structs, AllKinds, Intended, parent, StructClassDescent(Intended)), mask)
    ensures Descend(nodes, c.enums, mask, Intended, parent, EnumDescent)
            == Filter(nodes, Descend(nodes, c.enums, AllKinds, Intended, parent, EnumDescent), mask)
    decreases |nodes| - parent, 1, 0
  {
    DescendIsFilteredPreorder(nodes, c.namespaces, mask, parent, NamespaceDescent(Intended), Namespace);
    DescendIsFilteredPreorder(nodes, c.classes, mask, parent, StructClassDescent(Intended), Class);
    DescendIsFilteredPreorder(nodes, c.structs, mask, parent, StructClassDescent(Intended), Struct);
    DescendIsFilteredPreorder(nodes, c.enums, mask, parent, EnumDescent, Enum);
  }

  /** The collections a struct or class descends into, each walked with the mask, are their full walks filtered. */
  lemma {:induction false} StructClassNestedFiltered(nodes: seq<Entity>, c: Children, parent: nat, mask: Mask)
    requires WellFormed(nodes) && ChildrenOk(nodes, c, parent)
    ensures Descend(nodes, c.structs, mask, Intended, parent, StructClassDescent(Intended))
            == Filter(nodes, Descend(nodes, c.structs, AllKinds, Intended, parent, StructClassDescent(Intended)), mask)
    ensures Descend(nodes, c.classes, mask, Intended, parent, StructClassDescent(Intended))
            == Filter(nodes, Descend(nodes, c.classes, AllKinds, Intended, parent, StructClassDescent(Intended)), mask)
    ensures Descend(nodes, c.enums, mask, Intended, parent, EnumDescent)
            == Filter(nodes, Descend(nodes, c.enums, AllKinds, Intended, parent, EnumDescent), mask)
    decreases |nodes| - parent, 1, 0
  {
    DescendIsFilteredPreorder(nodes, c.structs, mask, parent, StructClassDescent(Intended), Struct);
    DescendIsFilteredPreorder(nodes, c.classes, mask, parent, StructClassDescent(Intended), Class);
    DescendIsFilteredPreorder(nodes, c.enums, mask, parent, EnumDescent, Enum);
  }

  lemma {:induction false} NamespaceIsFilteredPreorder(nodes: seq<Entity>, i: nat, mask: Mask)
    requires WellFormed(nodes) && i < |nodes| && nodes[i].kind == Namespace
    ensures WalkNamespace(nodes, i, mask, Intended) == Filter(nodes, WalkNamespace(nodes, i, AllKinds, Intended), mask)
    decreases |nodes| - i, 2, 0
  {
    var c := nodes[i].children;
    assert ChildrenOk(nodes, c, i);
    NamespaceNestedFiltered(nodes, c, i, mask);
    FilterUniform(nodes, [i], Namespace, mask);
    GroupFiltered(nodes, c.functions, Function, i, mask);
    GroupFiltered(nodes, c.variables, Variable, i, mask);
    FilterSeven(nodes, mask,
                When(Namespace in mask, [i]),
                Descend(nodes, c.namespaces, mask, Intended, i, NamespaceDescent(Intended)),
                Descend(nodes, c.classes, mask, Intended, i, StructClassDescent(Intended)),
                Descend(nodes, c.structs, mask, Intended, i, StructClassDescent(Intended)),
                Descend(nodes, c.enums, mask, Intended, i, EnumDescent),
                When(Function in mask, c.functions),
                When(Variable in mask, c.variables),
                [i],
                Descend(nodes, c.namespaces, AllKinds, Intended, i, NamespaceDescent(Intended)),
                Descend(nodes, c.classes, AllKinds, Intended, i, StructClassDescent(Intended)),
                Descend(nodes, c.structs, AllKinds, Intended, i, StructClassDescent(Intended)),
                Descend(nodes, c.enums, AllKinds, Intended, i, EnumDescent),
                c.functions, c.variables);
  }

  lemma {:induction false} StructClassIsFilteredPreorder(nodes: seq<Entity>, i: nat, mask: Mask)
    requires WellFormed(nodes) && i < |nodes| && IsStructOrClass(nodes[i].kind)
    ensures WalkStructClass(nodes, i, mask, Intended) == Filter(nodes, WalkStructClass(nodes, i, AllKinds, Intended), mask)
    decreases |nodes| - i, 2, 0
  {
    var c := nodes[i].children;
    assert ChildrenOk(nodes, c, i);
    StructClassNestedFiltered(nodes, c, i, mask);
    FilterUniform(nodes, [i], nodes[i].kind, mask);
    GroupFiltered(nodes, c.fields, Field, i, mask);
    GroupFiltered(nodes, c.methods, Method, i, mask);
    FilterSixParts(nodes, mask,
                   When(nodes[i].kind in mask, [i]),
                   Descend(nodes, c.structs, mask, Intended, i, StructClassDescent(Intended)),
                   Descend(nodes, c.classes, mask, Intended, i, StructClassDescent(Intended)),
                   Descend(nodes, c.enums, mask, Intended, i, EnumDescent),
                   When(Field in mask, c.fields),
                   When(Method in mask, c.methods),
                   [i],
                   Descend(nodes, c.structs, AllKinds, Intended, i, StructClassDescent(Intended)),
                   Descend(nodes, c.classes, AllKinds, Intended, i, StructClassDescent(Intended)),
                   Descend(nodes, c.enums, AllKinds, Intended, i, EnumDescent),
                   c.fields, c.methods);
  }

  /**
   * A nested collection whose subtrees hold only kinds of `descent`: descending
   * only when the mask meets `descent` loses nothing the mask asks for.
   */
  lemma {:induction false} DescendIsFilteredPreorder(nodes: seq<Entity>, ids: seq<nat>, mask: Mask, parent: int,
                                                     descent: Mask, k: EntityKind)
    requires WellFormed(nodes) && -1 <= parent
    requires Group(nodes, ids, k, parent) && SubtreeKinds(k) <= descent
    ensures Descend(nodes, ids, mask, Intended, parent, descent)
            == Filter(nodes, Descend(nodes, ids, AllKinds, Intended, parent, descent), mask)
    decreases |nodes| - parent, 0, |ids| + 1
  {
    assert k in AllKinds * descent;
    if Overlap(mask, descent) {
      WalkListIsFilteredPreorder(nodes, ids, mask, parent);
    } else {
      WalkListKinds(nodes, ids, AllKinds, Intended, parent, k, descent);
      FilterDisjoint(nodes, WalkList(nodes, ids, AllKinds, Intended, parent), descent, mask);
    }
  }

  lemma {:induction false} WalkListIsFilteredPreorder(nodes: seq<Entity>, ids: seq<nat>, mask: Mask, parent: int)
    requires WellFormed(nodes) && -1 <= parent
    requires forall k :: 0 <= k < |ids| ==> parent < ids[k] < |nodes|
    ensures WalkList(nodes, ids, mask, Intended, parent) == Filter(nodes, WalkList(nodes, ids, AllKinds, Intended, parent), mask)
    decreases |nodes| - parent, 0, |ids|
  {
    if ids != [] {
      WalkIsFilteredPreorder(nodes, ids[0], mask);
      WalkListIsFilteredPreorder(nodes, ids[1..], mask, parent);
      FilterConcat(nodes, Preorder(nodes, ids[0]), WalkList(nodes, ids[1..], AllKinds, Intended, parent), mask);
    }
  }

  /** The file-level walk, corrected, visits exactly the file's entities of the mask's kinds, in pre-order. */
  lemma WalkFileIsFilteredPreorder(f: FileParsingResult, mask: Mask)
    requires WellFormedFile(f)
    ensures WalkFile(f, mask, Intended) == Filter(f.nodes, FilePreorder(f), mask)
  {
    var nodes, c := f.nodes, f.top;
    NamespaceNestedFiltered(nodes, c, -1, mask);
    GroupFiltered(nodes, c.functions, Function, -1, mask);
    GroupFiltered(nodes, c.variables, Variable, -1, mask);
    FilterSixParts(nodes, mask,
                   Descend(nodes, c.namespaces, mask, Intended, -1, NamespaceDescent(Intended)),
                   Descend(nodes, c.classes, mask, Intended, -1, StructClassDescent(Intended)),
                   Descend(nodes, c.structs, mask, Intended, -1, StructClassDescent(Intended)),
                   Descend(nodes, c.enums, mask, Intended, -1, EnumDescent),
                   When(Function in mask, c.functions),
                   When(Variable in mask, c.variables),
                   Descend(nodes, c.namespaces, AllKinds, Intended, -1, NamespaceDescent(Intended)),
                   Descend(nodes, c.classes, AllKinds, Intended, -1, StructClassDescent(Intended)),
                   Descend(nodes, c.structs, AllKinds, Intended, -1, StructClassDescent(Intended)),
                   Descend(nodes, c.enums, AllKinds, Intended, -1, EnumDescent),
                   c.functions, c.variables);
  }

  /** Soundness of the corrected walk: every visited entity has a kind of the mask. */
  lemma WalkFileSound(f: FileParsingResult, mask: Mask)
    requires WellFormedFile(f)
    ensures KindsIn(f.nodes, WalkFile(f, mask, Intended), mask)
  {
    WalkFileIsFilteredPreorder(f, mask);
    FilterKinds(f.nodes, FilePreorder(f), mask);
  }

  // ---------------------------------------------------------------------
  // Where the source and the correction agree

  lemma OverlapIgnores(mask: Mask, s: Mask, k: EntityKind)
    requires k !in mask
    ensures Overlap(mask, s + {k}) == Overlap(mask, s)
  {
    if Overlap(mask, s + {k}) {
      var x :| x in mask * (s + {k});
      assert x in mask * s;
    }
    if Overlap(mask, s) {
      var x :| x in mask * s;
      assert x in mask * (s + {k});
    }
  }

  /** For a mask without Field and EnumValue the source's walk is the corrected one. */
  lemma {:induction false} WalkRevisionsAgree(nodes: seq<Entity>, i: nat, mask: Mask)
    requires WellFormed(nodes) && i < |nodes|
    requires Field !in mask && EnumValue !in mask
    ensures Walk(nodes, i, mask, AsWritten) == Walk(nodes, i, mask, Intended)
    decreases |nodes| - i, 2, 0
  {
    var c := nodes[i].children;
    assert ChildrenOk(nodes, c, i);
    OverlapIgnores(mask, NamespaceNestedTypes, EnumValue);
    OverlapIgnores(mask, StructClassNestedTypes, EnumValue);
    match nodes[i].kind
    case Namespace =>
      DescendRevisionsAgree(nodes, c.namespaces, mask, i, NamespaceDescent(AsWritten), NamespaceDescent(Intended));
      DescendRevisionsAgree(nodes, c.classes, mask, i, StructClassDescent(AsWritten), StructClassDescent(Intended));
      DescendRevisionsAgree(nodes, c.structs, mask, i, StructClassDescent(AsWritten), StructClassDescent(Intended));
      DescendRevisionsAgree(nodes, c.enums, mask, i, EnumDescent, EnumDescent);
    case Class =>
      DescendRevisionsAgree(nodes, c.structs, mask, i, StructClassDescent(AsWritten), StructClassDescent(Intended));
      DescendRevisionsAgree(nodes, c.classes, mask, i, StructClassDescent(AsWritten), StructClassDescent(Intended));
      DescendRevisionsAgree(nodes, c.enums, mask, i, EnumDescent, EnumDescent);
    case Struct =>
      DescendRevisionsAgree(nodes, c.structs, mask, i, StructClassDescent(AsWritten), StructClassDescent(Intended));
      DescendRevisionsAgree(nodes, c.classes, mask, i, StructClassDescent(AsWritten), StructClassDescent(Intended));
      DescendRevisionsAgree(nodes, c.enums, mask, i, EnumDescent, EnumDescent);
    case _ =>
  }

  lemma {:induction false} DescendRevisionsAgree(nodes: seq<Entity>, ids: seq<nat>, mask: Mask, parent: int,
                                                 written: Mask, intended: Mask)
    requires WellFormed(nodes) && -1 <= parent
    requires forall k :: 0 <= k < |ids| ==> parent < ids[k] < |nodes|
    requires Field !in mask && EnumValue !in mask
    requires Overlap(mask, written) == Overlap(mask, intended)
    ensures Descend(nodes, ids, mask, AsWritten, parent, written) == Descend(nodes, ids, mask, Intended, parent, intended)
    decreases |nodes| - parent, 0, |ids| + 1
  {
    WalkListRevisionsAgree(nodes, ids, mask, parent);
  }

  lemma {:induction false} WalkListRevisionsAgree(nodes: seq<Entity>, ids: seq<nat>, mask: Mask, parent: int)
    requires WellFormed(nodes) && -1 <= parent
    requires forall k :: 0 <= k < |ids| ==> parent < ids[k] < |nodes|
    requires Field !in mask && EnumValue !in mask
    ensures WalkList(nodes, ids, mask, AsWritten, parent) == WalkList(nodes, ids, mask, Intended, parent)
    decreases |nodes| - parent, 0, |ids|
  {
    if ids != [] {
      WalkRevisionsAgree(nodes, ids[0], mask);
      WalkListRevisionsAgree(nodes, ids[1..], mask, parent);
    }
  }

  lemma WalkFileRevisionsAgree(f: FileParsingResult, mask: Mask)
    requires WellFormedFile(f)
    requires Field !in mask && EnumValue !in mask
    ensures WalkFile(f, mask, AsWritten) == WalkFile(f, mask, Intended)
  {
    var c := f.top;
    OverlapIgnores(mask, NamespaceNestedTypes, EnumValue);
    OverlapIgnores(mask, StructClassNestedTypes, EnumValue);
    DescendRevisionsAgree(f.nodes, c.namespaces, mask, -1, NamespaceDescent(AsWritten), NamespaceDescent(Intended));
    DescendRevisionsAgree(f.nodes, c.classes, mask, -1, StructClassDescent(AsWritten), StructClassDescent(Intended));
    DescendRevisionsAgree(f.nodes, c.structs, mask, -1, StructClassDescent(AsWritten), StructClassDescent(Intended));
    DescendRevisionsAgree(f.nodes, c.enums, mask, -1, EnumDescent, EnumDescent);
  }

  /**
   * The walk that gathers the class footers (mask Class | Struct) is the same
   * in the source and in the correction, and lists every struct and class of
   * the file in pre-order.
   */
  lemma StructClassWalk(f: FileParsingResult)
    requires WellFormedFile(f)
    ensures WalkFile(f, {Class, Struct}, AsWritten) == WalkFile(f, {Class, Struct}, Intended)
    ensures WalkFile(f, {Class, Struct}, Intended) == Filter(f.nodes, FilePreorder(f), {Class, Struct})
    ensures KindsIn(f.nodes, WalkFile(f, {Class, Struct}, Intended), {Class, Struct})
  {
    WalkFileRevisionsAgree(f, {Class, Struct});
    WalkFileIsFilteredPreorder(f, {Class, Struct});
    WalkFileSound(f, {Class, Struct});
  }

  // ---------------------------------------------------------------------
  // The two discrepancies, on concrete trees

  /** A group of one entity is well placed when that entity lies after its owner and has the group's kind. */
  lemma SingletonGroup(nodes: seq<Entity>, x: nat, k: EntityKind, parent: int)
    requires parent < x < |nodes| && nodes[x].kind == k
    ensures Group(nodes, [x], k, parent)
  {
  }

  lemma NoChildrenOk(nodes: seq<Entity>, parent: int)
    ensures ChildrenOk(nodes, NoChildren, parent)
  {
  }

  lemma WellFormedThree(nodes: seq<Entity>)
    requires |nodes| == 3
    requires ChildrenOk(nodes, nodes[0].children, 0)
    requires ChildrenOk(nodes, nodes[1].children, 1)
    requires ChildrenOk(nodes, nodes[2].children, 2)
    ensures WellFormed(nodes)
  {
  }

  /** Children holding only the enum `x`. */
  lemma OnlyEnumOk(nodes: seq<Entity>, x: nat, parent: int)
    requires parent < x < |nodes| && nodes[x].kind == Enum
    ensures ChildrenOk(nodes, NoChildren.(enums := [x]), parent)
  {
    SingletonGroup(nodes, x, Enum, parent);
  }

  /** Children holding only the enum value `x`. */
  lemma OnlyEnumValueOk(nodes: seq<Entity>, x: nat, parent: int)
    requires parent < x < |nodes| && nodes[x].kind == EnumValue
    ensures ChildrenOk(nodes, NoChildren.(enumValues := [x]), parent)
  {
    SingletonGroup(nodes, x, EnumValue, parent);
  }

  /** Children holding only the class `x`. */
  lemma OnlyClassOk(nodes: seq<Entity>, x: nat, parent: int)
    requires parent < x < |nodes| && nodes[x].kind == Class
    ensures ChildrenOk(nodes, NoChildren.(classes := [x]), parent)
  {
    SingletonGroup(nodes, x, Class, parent);
  }

  /** Children holding only the field `x` and the method `y`. */
  lemma FieldAndMethodOk(nodes: seq<Entity>, x: nat, y: nat, parent: int)
    requires parent < x < |nodes| && nodes[x].kind == Field
    requires parent < y < |nodes| && nodes[y].kind == Method
    ensures ChildrenOk(nodes, NoChildren.(fields := [x], methods := [y]), parent)
  {
    SingletonGroup(nodes, x, Field, parent);
    SingletonGroup(nodes, y, Method, parent);
  }

  /** A class (0) with one field (1) and one method (2). */
  function ClassWithFieldAndMethod(): seq<Entity>
  {
    [ Entity(Class, "C", "C", [], NoChildren.(fields := [1], methods := [2]), StructClassDetails(false, false)),
      Entity(Field, "f", "C::f", [], NoChildren, NoDetails),
      Entity(Method, "m", "C::m", [], NoChildren, NoDetails) ]
  }

  lemma ClassWithFieldAndMethodWellFormed()
    ensures WellFormed(ClassWithFieldAndMethod())
  {
    ClassFieldMethodWellFormed(ClassWithFieldAndMethod());
  }

  /** A class 0 owning field 1 and method 2, and nothing else, is well formed. */
  lemma ClassFieldMethodWellFormed(nodes: seq<Entity>)
    requires |nodes| == 3 && nodes[1].kind == Field && nodes[2].kind == Method
    requires nodes[0].children == NoChildren.(fields := [1], methods := [2])
    requires nodes[1].children == NoChildren && nodes[2].children == NoChildren
    ensures WellFormed(nodes)
  {
    FieldAndMethodOk(nodes, 1, 2, 0);
    NoChildrenOk(nodes, 1);
    NoChildrenOk(nodes, 2);
    WellFormedThree(nodes);
  }

  /**
   * As written, a Field mask hands the method to the visitor and never the
   * field, and Field | Method hands it the method twice; the correction
   * visits the field, and each member once.
   */
  lemma FieldMaskVisitsMethods()
    ensures WellFormed(ClassWithFieldAndMethod())
    ensures Walk(ClassWithFieldAndMethod(), 0, {Field}, AsWritten) == [2]
    ensures Walk(ClassWithFieldAndMethod(), 0, {Field, Method}, AsWritten) == [2, 2]
    ensures Walk(ClassWithFieldAndMethod(), 0, {Field}, Intended) == [1]
    ensures Walk(ClassWithFieldAndMethod(), 0, {Field, Method}, Intended) == [1, 2]
  {
    ClassMembersWalk({Field}, AsWritten, [2]);
    ClassMembersWalk({Field, Method}, AsWritten, [2, 2]);
    ClassMembersWalk({Field}, Intended, [1]);
    ClassMembersWalk({Field, Method}, Intended, [1, 2]);
  }

  /** The walk of the one-field, one-method class under one mask: its own node, its field visits, its method. */
  lemma ClassMembersWalk(mask: Mask, rev: Revision, expected: seq<nat>)
    requires Class !in mask
    requires expected == When(Field in mask, FieldVisits(ClassWithFieldAndMethod()[0].children, rev))
                         + When(Method in mask, [2])
    ensures WellFormed(ClassWithFieldAndMethod())
    ensures Walk(ClassWithFieldAndMethod(), 0, mask, rev) == expected
  {
    var nodes := ClassWithFieldAndMethod();
    ClassWithFieldAndMethodWellFormed();
    DescendNothing(nodes, mask, rev, 0, StructClassDescent(rev));
    DescendNothing(nodes, mask, rev, 0, EnumDescent);
    var c := nodes[0].children;
    assert c.structs == [] && c.classes == [] && c.enums == [] && c.methods == [2];
    assert Walk(nodes, 0, mask, rev) == [] + [] + [] + [] + When(Field in mask, FieldVisits(c, rev)) + When(Method in mask, [2]);
  }

  /** Descending into an empty collection yields nothing. */
  lemma DescendNothing(nodes: seq<Entity>, mask: Mask, rev: Revision, parent: int, descent: Mask)
    requires WellFormed(nodes) && -1 <= parent
    ensures Descend(nodes, [], mask, rev, parent, descent) == []
  {
    assert WalkList(nodes, [], mask, rev, parent) == [];
  }

  /** A file whose one top-level class (0) holds an enum (1) with one value (2). */
  function FileWithNestedEnum(): FileParsingResult
  {
    FileParsingResult("a.h",
      [ Entity(Class, "C", "C", [], NoChildren.(enums := [1]), StructClassDetails(false, false)),
        Entity(Enum, "E", "C::E", [], NoChildren.(enumValues := [2]), NoDetails),
        Entity(EnumValue, "V", "C::E::V", [], NoChildren, NoDetails) ],
      [Wrappers.None, Wrappers.Some(0), Wrappers.Some(1)],
      NoChildren.(classes := [0]))
  }

  lemma FileWithNestedEnumWellFormed()
    ensures WellFormedFile(FileWithNestedEnum())
  {
    ClassEnumValueChainWellFormed(FileWithNestedEnum());
  }

  /** A file whose only top-level entity is a class 0 owning enum 1 owning value 2 is well formed. */
  lemma ClassEnumValueChainWellFormed(f: FileParsingResult)
    requires |f.nodes| == 3 && |f.outer| == 3
    requires f.nodes[0].kind == Class && f.nodes[1].kind == Enum && f.nodes[2].kind == EnumValue
    requires f.nodes[0].children == NoChildren.(enums := [1])
    requires f.nodes[1].children == NoChildren.(enumValues := [2])
    requires f.nodes[2].children == NoChildren
    requires f.top == NoChildren.(classes := [0])
    ensures WellFormedFile(f)
  {
    var nodes := f.nodes;
    OnlyEnumOk(nodes, 1, 0);
    OnlyEnumValueOk(nodes, 2, 1);
    OnlyClassOk(nodes, 0, -1);
    NoChildrenOk(nodes, 2);
    WellFormedThree(nodes);
  }

  /**
   * As written, a mask asking for enum values only does not descend into the
   * top-level class, so the value of its nested enum is never visited; the
   * correction visits it.
   */
  lemma EnumValueMaskMissesNestedValues()
    ensures WellFormedFile(FileWithNestedEnum())
    ensures WalkFile(FileWithNestedEnum(), {EnumValue}, AsWritten) == []
    ensures WalkFile(FileWithNestedEnum(), {EnumValue}, Intended) == [2]
  {
    NestedEnumFileAsWritten();
    NestedEnumFileIntended();
  }

  lemma NestedEnumFileAsWritten()
    ensures WellFormedFile(FileWithNestedEnum())
    ensures WalkFile(FileWithNestedEnum(), {EnumValue}, AsWritten) == []
  {
    var f := FileWithNestedEnum();
    var nodes := f.nodes;
    FileWithNestedEnumWellFormed();
    var m: Mask := {EnumValue};
    forall rev: Revision, d: Mask, p: int | -1 <= p
      ensures Descend(nodes, [], m, rev, p, d) == []
    {
      assert WalkList(nodes, [], m, rev, p) == [];
    }
    assert !Overlap(m, StructClassDescent(AsWritten)) by {
      assert m * StructClassDescent(AsWritten) == {};
    }
    assert WalkFile(f, m, AsWritten) == [] + [] + [] + [] + [] + [];
  }

  lemma NestedEnumFileIntended()
    ensures WellFormedFile(FileWithNestedEnum())
    ensures WalkFile(FileWithNestedEnum(), {EnumValue}, Intended) == [2]
  {
    var f := FileWithNestedEnum();
    var nodes := f.nodes;
    NestedEnumClassWalk();
    var m: Mask := {EnumValue};
    forall rev: Revision, d: Mask, p: int | -1 <= p
      ensures Descend(nodes, [], m, rev, p, d) == []
    {
      assert WalkList(nodes, [], m, rev, p) == [];
    }
    assert WalkList(nodes, [0], m, Intended, -1) == [2];
    assert WalkFile(f, m, Intended) == [] + [2] + [] + [] + [] + [];
  }

  /** Corrected, walking the class of the nested-enum file for enum values reaches the value. */
  lemma NestedEnumClassWalk()
    ensures WellFormedFile(FileWithNestedEnum())
    ensures Walk(FileWithNestedEnum().nodes, 0, {EnumValue}, Intended) == [2]
  {
    var nodes := FileWithNestedEnum().nodes;
    FileWithNestedEnumWellFormed();
    var m: Mask := {EnumValue};
    forall rev: Revision, d: Mask, p: int | -1 <= p
      ensures Descend(nodes, [], m, rev, p, d) == []
    {
      assert WalkList(nodes, [], m, rev, p) == [];
    }
    assert EnumValue in m * StructClassDescent(Intended);
    assert EnumValue in m * EnumDescent;
    assert WalkEnum(nodes, 1, m) == [2];
    assert Walk(nodes, 1, m, Intended) == [2];
    assert WalkList(nodes, [1], m, Intended, 0) == [2];
    assert WalkStructClass(nodes, 0, m, Intended) == [] + [] + [] + [2] + [] + [];
  }
}
