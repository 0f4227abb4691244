/**
 * The parsed entity tree, as an arena: every entity is addressed by its index,
 * each nested collection of an entity is a sequence of indices, and the
 * outerEntity back-links are a separate sequence of parent indices.
 */
module Entities {
  import opened Wrappers
  import opened EntityKinds

  /** A property attached to an entity: a name and its ordered arguments. */
  datatype Property = Property(name: string, arguments: seq<string>)

  /** The ETypeDescriptor flags the model reads. */
  datatype TypeDescriptor = Const | Volatile | Ptr | LRef | RRef

  datatype TypePart = TypePart(descriptor: set<TypeDescriptor>)

  /** The parts of TypeInfo the model reads, as given values. */
  datatype TypeInfo = TypeInfo(canonicalName: string, sizeInBytes: nat, typeParts: seq<TypePart>)

  /** Nested collections of an entity, in the source's field order. */
  datatype Children = Children(
    namespaces: seq<nat>, classes: seq<nat>, structs: seq<nat>, enums: seq<nat>,
    functions: seq<nat>, variables: seq<nat>,
    fields: seq<nat>, methods: seq<nat>, enumValues: seq<nat>)

  const NoChildren := Children([], [], [], [], [], [], [], [], [])

  /** Kind-specific data: struct/class qualifiers, field type and qualifiers. */
  datatype Details =
    | NoDetails
    | StructClassDetails(isFinal: bool, isForwardDeclaration: bool)
    | FieldDetails(fieldType: TypeInfo, isStatic: bool)

  datatype Entity = Entity(
    kind: EntityKind, name: string, fullName: string,
    properties: seq<Property>, children: Children, details: Details)

  /** Every index of `ids` names an entity of kind `kind` placed after `parent`. */
  ghost predicate Group(nodes: seq<Entity>, ids: seq<nat>, kind: EntityKind, parent: int)
  {
    forall k :: 0 <= k < |ids| ==> parent < ids[k] < |nodes| && nodes[ids[k]].kind == kind
  }

  ghost predicate ChildrenOk(nodes: seq<Entity>, c: Children, parent: int)
  {
    && Group(nodes, c.namespaces, Namespace, parent)
    && Group(nodes, c.classes, Class, parent)
    && Group(nodes, c.structs, Struct, parent)
    && Group(nodes, c.enums, Enum, parent)
    && Group(nodes, c.functions, Function, parent)
    && Group(nodes, c.variables, Variable, parent)
    && Group(nodes, c.fields, Field, parent)
    && Group(nodes, c.methods, Method, parent)
    && Group(nodes, c.enumValues, EnumValue, parent)
  }

  /** Each nested collection holds entities of its own kind, placed after their owner. */
  ghost predicate WellFormed(nodes: seq<Entity>)
  {
    forall i :: 0 <= i < |nodes| ==> ChildrenOk(nodes, nodes[i].children, i)
  }

  /** The parse result of one file: its top-level collections over an arena. */
  datatype FileParsingResult = FileParsingResult(
    parsedFile: string, nodes: seq<Entity>, outer: seq<Option<nat>>, top: Children)

  ghost predicate WellFormedFile(f: FileParsingResult)
  {
    WellFormed(f.nodes) && ChildrenOk(f.nodes, f.top, -1) && |f.outer| == |f.nodes|
  }

  /** What a generator sees of an entity: the entity and its outer entity, if any. */
  datatype EntityRef = EntityRef(id: nat, entity: Entity, outer: Option<Entity>)

  function View(f: FileParsingResult, id: nat): (r: EntityRef)
    requires WellFormedFile(f) && id < |f.nodes|
    ensures r.id == id && r.entity == f.nodes[id]
    ensures r.outer.Some? <==> f.outer[id].Some? && f.outer[id].value < |f.nodes|
  {
    var o := f.outer[id];
    EntityRef(id, f.nodes[id], if o.Some? && o.value < |f.nodes| then Some(f.nodes[o.value]) else None)
  }

  /**
   * A struct or class as the default constructor leaves it: neither final nor
   * a forward declaration, with no nested entities.
   */
  function DefaultStructClassInfo(kind: EntityKind): (e: Entity)
    requires IsStructOrClass(kind)
    ensures e.kind == kind && e.details.StructClassDetails?
    ensures !e.details.isFinal && !e.details.isForwardDeclaration
    ensures e.children == NoChildren && e.properties == []
  {
    Entity(kind, "", "", [], NoChildren, StructClassDetails(false, false))
  }

  /**
   * A struct or class built from a parsed declaration: never final at
   * construction, forward-declared as the parser says.
   */
  function NewStructClassInfo(kind: EntityKind, name: string, fullName: string,
                              properties: seq<Property>, isForwardDeclaration: bool): (e: Entity)
    requires IsStructOrClass(kind)
    ensures e.kind == kind && e.name == name && e.properties == properties
    ensures e.details == StructClassDetails(false, isForwardDeclaration)
  {
    Entity(kind, name, fullName, properties, NoChildren, StructClassDetails(false, isForwardDeclaration))
  }
}
