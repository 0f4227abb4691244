/**
 * Entity kinds and kind masks. EEntityType is a flag set; a mask is modelled
 * as the set of kinds whose flag it carries, and `a && b` between two masks
 * as "the masks share a kind".
 */
module EntityKinds {
  datatype EntityKind =
    | Namespace | Class | Struct | Enum | EnumValue
    | Function | Variable | Method | Field

  type Mask = set<EntityKind>

  /** `a && b` on EEntityType values (entityTypeOverlap). */
  predicate Overlap(a: Mask, b: Mask)
  {
    a * b != {}
  }

  const AllKinds: Mask :=
    {Namespace, Class, Struct, Enum, EnumValue, Function, Variable, Method, Field}

  /** StructClassInfo::nestedEntityTypes. */
  const StructClassNestedTypes: Mask := {Class, Struct, Enum, Method, Field}

  /** NamespaceInfo::nestedEntityTypes. */
  const NamespaceNestedTypes: Mask := {Namespace, Variable, Function} + StructClassNestedTypes

  /** EnumInfo::nestedEntityTypes. */
  const EnumNestedTypes: Mask := {EnumValue}

  predicate IsStructOrClass(k: EntityKind)
  {
    k == Struct || k == Class
  }

  /** A mask overlaps a single flag exactly when it carries that flag. */
  lemma OverlapOne(m: Mask, k: EntityKind)
    ensures Overlap(m, {k}) <==> k in m
  {
    if Overlap(m, {k}) {
      var x :| x in m * {k};
    } else {
      assert k !in m * {k};
    }
  }
}
