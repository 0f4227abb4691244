/**
 * StructClassInfo::refreshOuterEntity: re-links every entity nested in a
 * struct/class to its owner. The outerEntity pointers of the arena are an
 * array of parent indices; the refresh is specified by the sequence of
 * link writes it performs, applied in order to the old links.
 */
module OuterEntity {
  import opened Wrappers
  import opened EntityKinds
  import opened Entities

  /** One write `child.outerEntity = parent`. */
  datatype Link = Link(child: nat, parent: nat)

  ghost predicate Above(nodes: seq<Entity>, ids: seq<nat>, parent: int)
  {
    forall k :: 0 <= k < |ids| ==> parent < ids[k] < |nodes|
  }

  /** Links every entity of `ids` to `parent`, in order. */
  function Direct(ids: seq<nat>, parent: nat): (w: seq<Link>)
    ensures |w| == |ids|
    ensures forall k :: 0 <= k < |w| ==> w[k] == Link(ids[k], parent)
  {
    if ids == [] then [] else Direct(ids[..|ids| - 1], parent) + [Link(ids[|ids| - 1], parent)]
  }

  /** The writes of refreshOuterEntity on the struct/class `i`, in the order the source performs them. */
  function RefreshWrites(nodes: seq<Entity>, i: nat): seq<Link>
    requires WellFormed(nodes) && i < |nodes|
    decreases |nodes| - i, 1, 0
  {
    var c := nodes[i].children;
    assert ChildrenOk(nodes, c, i);
    NestedWrites(nodes, c.classes, i) + NestedWrites(nodes, c.structs, i)
    + EnumWrites(nodes, c.enums, i) + Direct(c.fields, i) + Direct(c.methods, i)
  }

  /** Each nested struct/class is refreshed, then linked to `parent`. */
  function NestedWrites(nodes: seq<Entity>, ids: seq<nat>, parent: nat): seq<Link>
    requires WellFormed(nodes) && Above(nodes, ids, parent)
    decreases |nodes| - parent, 0, |ids|
  {
    if ids == [] then []
    else
      var last := ids[|ids| - 1];
      NestedWrites(nodes, ids[..|ids| - 1], parent) + RefreshWrites(nodes, last) + [Link(last, parent)]
  }

  /** Each nested enum links its values to itself, then is linked to `parent`. */
  function EnumWrites(nodes: seq<Entity>, ids: seq<nat>, parent: nat): seq<Link>
    requires Above(nodes, ids, parent)
  {
    if ids == [] then []
    else
      var last := ids[|ids| - 1];
      EnumWrites(nodes, ids[..|ids| - 1], parent) + Direct(nodes[last].children.enumValues, last) + [Link(last, parent)]
  }

  /** The links after the writes `w`, applied in order (writes outside the arena are dropped). */
  function Overlay(o: seq<Option<nat>>, w: seq<Link>): (r: seq<Option<nat>>)
    ensures |r| == |o|
    decreases |w|
  {
    if w == [] then o
    else Overlay(if w[0].child < |o| then o[w[0].child := Some(w[0].parent)] else o, w[1..])
  }

  /** The parent given to `x` by the last write to it in `w`, if any. */
  function LastWrite(w: seq<Link>, x: nat): Option<nat>
  {
    if w == [] then None
    else
      var r := LastWrite(w[1..], x);
      if r.Some? then r else if w[0].child == x then Some(w[0].parent) else None
  }

  /** Applying two batches of writes in turn is applying their concatenation. */
  lemma {:induction false} OverlayConcat(o: seq<Option<nat>>, a: seq<Link>, b: seq<Link>)
    ensures Overlay(Overlay(o, a), b) == Overlay(o, a + b)
    decreases |a|
  {
    if a == [] {
      assert a + b == b;
    } else {
      assert (a + b)[1..] == a[1..] + b;
      var o' := if a[0].child < |o| then o[a[0].child := Some(a[0].parent)] else o;
      OverlayConcat(o', a[1..], b);
    }
  }

  lemma OverlaySingle(o: seq<Option<nat>>, x: nat, p: nat)
    requires x < |o|
    ensures Overlay(o, [Link(x, p)]) == o[x := Some(p)]
  {
    assert [Link(x, p)][1..] == [];
  }

  /** Pointwise, the links after the writes: the last write to a slot wins, untouched slots keep their link. */
  lemma {:induction false} OverlayAt(o: seq<Option<nat>>, w: seq<Link>, x: nat)
    requires x < |o|
    ensures Overlay(o, w)[x] == if LastWrite(w, x).Some? then LastWrite(w, x) else o[x]
    decreases |w|
  {
    if w != [] {
      var o' := if w[0].child < |o| then o[w[0].child := Some(w[0].parent)] else o;
      OverlayAt(o', w[1..], x);
    }
  }

  lemma {:induction false} LastWriteConcat(a: seq<Link>, b: seq<Link>, x: nat)
    ensures LastWrite(a + b, x) == if LastWrite(b, x).Some? then LastWrite(b, x) else LastWrite(a, x)
  {
    if a == [] {
      assert a + b == b;
    } else {
      assert (a + b)[1..] == a[1..] + b;
      LastWriteConcat(a[1..], b, x);
    }
  }

  /** Refreshing twice leaves the same links as refreshing once. */
  lemma OverlayIdempotent(o: seq<Option<nat>>, w: seq<Link>)
    ensures Overlay(Overlay(o, w), w) == Overlay(o, w)
  {
    var once := Overlay(o, w);
    forall x | 0 <= x < |o|
      ensures Overlay(once, w)[x] == once[x]
    {
      OverlayAt(once, w, x);
      OverlayAt(o, w, x);
    }
  }

  /** A write to `x` exists, and the last one names `p`, when every write to `x` names `p`. */
  lemma {:induction false} LastWriteUnique(w: seq<Link>, x: nat, p: nat)
    requires Link(x, p) in w
    requires forall k :: 0 <= k < |w| && w[k].child == x ==> w[k].parent == p
    ensures LastWrite(w, x) == Some(p)
  {
    if w[0] == Link(x, p) {
      if LastWrite(w[1..], x).Some? {
        LastWriteNames(w[1..], x);
      }
    } else {
      assert Link(x, p) in w[1..];
      LastWriteUnique(w[1..], x, p);
    }
  }

  lemma {:induction false} LastWriteNames(w: seq<Link>, x: nat)
    requires LastWrite(w, x).Some?
    ensures Link(x, LastWrite(w, x).value) in w
  {
    if LastWrite(w[1..], x).Some? {
      LastWriteNames(w[1..], x);
    }
  }

  lemma {:induction false} LastWriteNone(w: seq<Link>, x: nat)
    requires forall l :: l in w ==> l.child != x
    ensures LastWrite(w, x) == None
  {
    if w != [] {
      LastWriteNone(w[1..], x);
    }
  }

  // ---------------------------------------------------------------------
  // What the writes are

  /** `x` is listed in one of `p`'s nested collections that refreshOuterEntity links. */
  ghost predicate LinkedChild(nodes: seq<Entity>, x: nat, p: nat)
    requires p < |nodes|
  {
    var c := nodes[p].children;
    x in c.classes || x in c.structs || x in c.enums || x in c.fields || x in c.methods || x in c.enumValues
  }

  /** Every write links a nested entity of the subtree of `i` to the entity that lists it. */
  ghost predicate Sound(nodes: seq<Entity>, w: seq<Link>, i: nat)
  {
    forall k :: 0 <= k < |w| ==>
      i <= w[k].parent < w[k].child < |nodes| && LinkedChild(nodes, w[k].child, w[k].parent)
  }

  lemma SoundConcat(nodes: seq<Entity>, a: seq<Link>, b: seq<Link>, i: nat)
    requires Sound(nodes, a, i) && Sound(nodes, b, i)
    ensures Sound(nodes, a + b, i)
  {
  }

  lemma SoundWiden(nodes: seq<Entity>, w: seq<Link>, i: nat, j: nat)
    requires Sound(nodes, w, j) && i <= j
    ensures Sound(nodes, w, i)
  {
  }

  lemma {:induction false} DirectSound(nodes: seq<Entity>, ids: seq<nat>, p: nat, i: nat)
    requires p < |nodes| && i <= p && Above(nodes, ids, p)
    requires forall k :: 0 <= k < |ids| ==> LinkedChild(nodes, ids[k], p)
    ensures Sound(nodes, Direct(ids, p), i)
  {
  }

  lemma {:induction false} RefreshWritesSound(nodes: seq<Entity>, i: nat)
    requires WellFormed(nodes) && i < |nodes|
    ensures Sound(nodes, RefreshWrites(nodes, i), i)
    decreases |nodes| - i, 1, 0
  {
    var c := nodes[i].children;
    assert ChildrenOk(nodes, c, i);
    var w1 := NestedWrites(nodes, c.classes, i);
    var w2 := NestedWrites(nodes, c.structs, i);
    var w3 := EnumWrites(nodes, c.enums, i);
    var w4 := Direct(c.fields, i);
    var w5 := Direct(c.methods, i);
    assert RefreshWrites(nodes, i) == w1 + w2 + w3 + w4 + w5;
    NestedWritesSound(nodes, c.classes, i);
    NestedWritesSound(nodes, c.structs, i);
    EnumWritesSound(nodes, c.enums, i);
    DirectSound(nodes, c.fields, i, i);
    DirectSound(nodes, c.methods, i, i);
    SoundConcat(nodes, w1, w2, i);
    SoundConcat(nodes, w1 + w2, w3, i);
    SoundConcat(nodes, w1 + w2 + w3, w4, i);
    SoundConcat(nodes, w1 + w2 + w3 + w4, w5, i);
  }

  lemma {:induction false} NestedWritesSound(nodes: seq<Entity>, ids: seq<nat>, parent: nat)
    requires WellFormed(nodes) && parent < |nodes| && Above(nodes, ids, parent)
    requires forall k :: 0 <= k < |ids| ==> LinkedChild(nodes, ids[k], parent)
    ensures Sound(nodes, NestedWrites(nodes, ids, parent), parent)
    decreases |nodes| - parent, 0, |ids|
  {
    if ids != [] {
      var last := ids[|ids| - 1];
      var init := ids[..|ids| - 1];
      NestedWritesSound(nodes, init, parent);
      RefreshWritesSound(nodes, last);
      SoundWiden(nodes, RefreshWrites(nodes, last), parent, last);
      SoundConcat(nodes, NestedWrites(nodes, init, parent), RefreshWrites(nodes, last), parent);
      SoundConcat(nodes, NestedWrites(nodes, init, parent) + RefreshWrites(nodes, last), [Link(last, parent)], parent);
    }
  }

  lemma {:induction false} EnumWritesSound(nodes: seq<Entity>, ids: seq<nat>, parent: nat)
    requires WellFormed(nodes) && parent < |nodes| && Above(nodes, ids, parent)
    requires forall k :: 0 <= k < |ids| ==> LinkedChild(nodes, ids[k], parent)
    ensures Sound(nodes, EnumWrites(nodes, ids, parent), parent)
  {
    if ids != [] {
      var last := ids[|ids| - 1];
      var init := ids[..|ids| - 1];
      EnumWritesSound(nodes, init, parent);
      assert ChildrenOk(nodes, nodes[last].children, last);
      var values := Direct(nodes[last].children.enumValues, last);
      DirectSound(nodes, nodes[last].children.enumValues, last, parent);
      SoundConcat(nodes, EnumWrites(nodes, init, parent), values, parent);
      SoundConcat(nodes, EnumWrites(nodes, init, parent) + values, [Link(last, parent)], parent);
    }
  }

  /** Every nested entity the refresh links is listed by exactly one entity. */
  ghost predicate UniqueOwners(nodes: seq<Entity>)
  {
    forall x: nat, p: nat, q: nat {:trigger LinkedChild(nodes, x, p), LinkedChild(nodes, x, q)} ::
      p < |nodes| && q < |nodes| && LinkedChild(nodes, x, p) && LinkedChild(nodes, x, q) ==> p == q
  }

  /**
   * After the refresh, on a tree where every entity has one owner: each
   * entity the refresh touches points at the entity that lists it, and
   * every other link, the receiver's own among them, is unchanged.
   */
  lemma RefreshLinksOwners(nodes: seq<Entity>, i: nat, o: seq<Option<nat>>)
    requires WellFormed(nodes) && UniqueOwners(nodes) && i < |nodes| && |o| == |nodes|
    ensures Sound(nodes, RefreshWrites(nodes, i), i)
    ensures forall l :: l in RefreshWrites(nodes, i) ==> Overlay(o, RefreshWrites(nodes, i))[l.child] == Some(l.parent)
    ensures forall x :: 0 <= x < |o| && (forall l :: l in RefreshWrites(nodes, i) ==> l.child != x) ==>
              Overlay(o, RefreshWrites(nodes, i))[x] == o[x]
    ensures Overlay(o, RefreshWrites(nodes, i))[i] == o[i]
  {
    var w := RefreshWrites(nodes, i);
    RefreshWritesSound(nodes, i);
    forall l | l in w
      ensures Overlay(o, w)[l.child] == Some(l.parent)
    {
      forall j | 0 <= j < |w| && w[j].child == l.child
        ensures w[j].parent == l.parent
      {
        assert LinkedChild(nodes, l.child, w[j].parent) && LinkedChild(nodes, l.child, l.parent);
      }
      LastWriteUnique(w, l.child, l.parent);
      OverlayAt(o, w, l.child);
    }
    forall x | 0 <= x < |o| && (forall l :: l in w ==> l.child != x)
      ensures Overlay(o, w)[x] == o[x]
    {
      LastWriteNone(w, x);
      OverlayAt(o, w, x);
    }
  }

  /** Every struct, class, enum, field and method listed by `i` is linked to `i`. */
  lemma DirectChildrenLinked(nodes: seq<Entity>, i: nat, x: nat)
    requires WellFormed(nodes) && i < |nodes|
    requires var c := nodes[i].children; x in c.classes || x in c.structs || x in c.enums || x in c.fields || x in c.methods
    ensures Link(x, i) in RefreshWrites(nodes, i)
  {
    var c := nodes[i].children;
    assert ChildrenOk(nodes, c, i);
    if x in c.classes {
      NestedWritesLink(nodes, c.classes, i, x);
    } else if x in c.structs {
      NestedWritesLink(nodes, c.structs, i, x);
    } else if x in c.enums {
      EnumWritesLink(nodes, c.enums, i, x);
    } else if x in c.fields {
      assert Direct(c.fields, i)[IndexOf(c.fields, x)] == Link(x, i);
    } else {
      assert Direct(c.methods, i)[IndexOf(c.methods, x)] == Link(x, i);
    }
  }

  function IndexOf(s: seq<nat>, x: nat): (k: nat)
    requires x in s
    ensures k < |s| && s[k] == x
  {
    if s[0] == x then 0 else 1 + IndexOf(s[1..], x)
  }

  lemma {:induction false} NestedWritesLink(nodes: seq<Entity>, ids: seq<nat>, parent: nat, x: nat)
    requires WellFormed(nodes) && Above(nodes, ids, parent) && x in ids
    ensures Link(x, parent) in NestedWrites(nodes, ids, parent)
  {
    if x != ids[|ids| - 1] {
      assert x in ids[..|ids| - 1] by {
        var k := IndexOf(ids, x);
        assert ids[..|ids| - 1][k] == x;
      }
      NestedWritesLink(nodes, ids[..|ids| - 1], parent, x);
    }
  }

  lemma {:induction false} EnumWritesLink(nodes: seq<Entity>, ids: seq<nat>, parent: nat, x: nat)
    requires Above(nodes, ids, parent) && x in ids
    ensures Link(x, parent) in EnumWrites(nodes, ids, parent)
  {
    if x != ids[|ids| - 1] {
      assert x in ids[..|ids| - 1] by {
        var k := IndexOf(ids, x);
        assert ids[..|ids| - 1][k] == x;
      }
      EnumWritesLink(nodes, ids[..|ids| - 1], parent, x);
    }
  }

  // ---------------------------------------------------------------------
  // The refresh itself

  /** `child.outerEntity = parent` for every entity of `ids`, in order. */
  method LinkAll(outer: array<Option<nat>>, ids: seq<nat>, parent: nat)
    requires forall k :: 0 <= k < |ids| ==> ids[k] < outer.Length
    modifies outer
    ensures outer[..] == Overlay(old(outer[..]), Direct(ids, parent))
  {
    ghost var start := outer[..];
    for k := 0 to |ids|
      invariant outer[..] == Overlay(start, Direct(ids[..k], parent))
    {
      ghost var before := outer[..];
      outer[ids[k]] := Some(parent);
      assert ids[..k + 1][..k] == ids[..k];
      OverlaySingle(before, ids[k], parent);
      OverlayConcat(start, Direct(ids[..k], parent), [Link(ids[k], parent)]);
    }
    assert ids[..|ids|] == ids;
  }

  /** StructClassInfo::refreshOuterEntity on the struct/class `i`. */
  method RefreshOuterEntity(nodes: seq<Entity>, outer: array<Option<nat>>, i: nat)
    requires WellFormed(nodes) && i < |nodes| && outer.Length == |nodes|
    modifies outer
    ensures outer[..] == Overlay(old(outer[..]), RefreshWrites(nodes, i))
    decreases |nodes| - i, 1
  {
    var c := nodes[i].children;
    assert ChildrenOk(nodes, c, i);
    ghost var start := outer[..];
    ghost var w1 := NestedWrites(nodes, c.classes, i);
    ghost var w2 := NestedWrites(nodes, c.structs, i);
    ghost var w3 := EnumWrites(nodes, c.enums, i);
    RefreshNestedList(nodes, outer, c.classes, i);
    RefreshNestedList(nodes, outer, c.structs, i);
    OverlayConcat(start, w1, w2);
    RefreshEnumList(nodes, outer, c.enums, i);
    OverlayConcat(start, w1 + w2, w3);
    LinkAll(outer, c.fields, i);
    OverlayConcat(start, w1 + w2 + w3, Direct(c.fields, i));
    LinkAll(outer, c.methods, i);
    OverlayConcat(start, w1 + w2 + w3 + Direct(c.fields, i), Direct(c.methods, i));
  }

  /** The loop over nested classes (or structs): refresh each, then link it to `i`. */
  method RefreshNestedList(nodes: seq<Entity>, outer: array<Option<nat>>, ids: seq<nat>, i: nat)
    requires WellFormed(nodes) && i < |nodes| && outer.Length == |nodes| && Above(nodes, ids, i)
    modifies outer
    ensures outer[..] == Overlay(old(outer[..]), NestedWrites(nodes, ids, i))
    decreases |nodes| - i, 0
  {
    ghost var start := outer[..];
    assert ids[..0] == [];
    for k := 0 to |ids|
      invariant outer[..] == Overlay(start, NestedWrites(nodes, ids[..k], i))
    {
      var j := ids[k];
      ghost var before := outer[..];
      RefreshOuterEntity(nodes, outer, j);
      outer[j] := Some(i);
      ghost var sub := RefreshWrites(nodes, j);
      OverlaySingle(Overlay(before, sub), j, i);
      OverlayConcat(before, sub, [Link(j, i)]);
      OverlayConcat(start, NestedWrites(nodes, ids[..k], i), sub + [Link(j, i)]);
      NestedWritesSnoc(nodes, ids, k, i);
    }
    assert ids[..|ids|] == ids;
  }

  /** The loop over nested enums: each links its values to itself, then is linked to `i`. */
  method RefreshEnumList(nodes: seq<Entity>, outer: array<Option<nat>>, ids: seq<nat>, i: nat)
    requires WellFormed(nodes) && outer.Length == |nodes| && Above(nodes, ids, i)
    modifies outer
    ensures outer[..] == Overlay(old(outer[..]), EnumWrites(nodes, ids, i))
  {
    ghost var start := outer[..];
    assert ids[..0] == [];
    for k := 0 to |ids|
      invariant outer[..] == Overlay(start, EnumWrites(nodes, ids[..k], i))
    {
      var e := ids[k];
      ghost var before := outer[..];
      assert ChildrenOk(nodes, nodes[e].children, e);
      LinkAll(outer, nodes[e].children.enumValues, e);
      outer[e] := Some(i);
      ghost var values := Direct(nodes[e].children.enumValues, e);
      OverlaySingle(Overlay(before, values), e, i);
      OverlayConcat(before, values, [Link(e, i)]);
      OverlayConcat(start, EnumWrites(nodes, ids[..k], i), values + [Link(e, i)]);
      EnumWritesSnoc(nodes, ids, k, i);
    }
    assert ids[..|ids|] == ids;
  }

  lemma NestedWritesSnoc(nodes: seq<Entity>, ids: seq<nat>, k: nat, parent: nat)
    requires WellFormed(nodes) && Above(nodes, ids, parent) && k < |ids|
    ensures NestedWrites(nodes, ids[..k + 1], parent)
         == NestedWrites(nodes, ids[..k], parent) + (RefreshWrites(nodes, ids[k]) + [Link(ids[k], parent)])
  {
    assert ids[..k + 1][..k] == ids[..k];
  }

  lemma EnumWritesSnoc(nodes: seq<Entity>, ids: seq<nat>, k: nat, parent: nat)
    requires Above(nodes, ids, parent) && k < |ids|
    ensures EnumWrites(nodes, ids[..k + 1], parent)
         == EnumWrites(nodes, ids[..k], parent)
          + (Direct(nodes[ids[k]].children.enumValues, ids[k]) + [Link(ids[k], parent)])
  {
    assert ids[..k + 1][..k] == ids[..k];
  }
}
