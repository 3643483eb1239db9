/**
 * The administrative-division tree of the map server: the node objects the
 * server keeps (`AdministrativeDivisionNode`, whose child list is replaced
 * in place) and the value tree it answers with (`AdministrativeDivision`),
 * naming each division in the requested language.
 */
module AdminDivision {
  import opened Wrappers

  /** The attributes of an administrative boundary feature the node constructor reads. */
  datatype Feature<G> = Feature(
    osmId: int,
    localName: Option<string>,
    name: string,
    nameEn: Option<string>,
    adminLevel: Option<int>,
    geometry: G)

  /** A node of the division tree: fixed identity fields and a replaceable list of children. */
  class AdministrativeDivisionNode<G(==)> {
    const id: int
    const parentId: int
    const name: string
    const nameEn: string
    const adminLevel: int
    const geometry: G
    var children: seq<AdministrativeDivisionNode<G>>
    /** The nodes of the subtree rooted here. */
    ghost var Repr: set<AdministrativeDivisionNode<G>>

    /** The subtree is a tree: each child owns a disjoint-from-this part of the footprint, which is exactly this node and its children's parts. */
    ghost predicate Valid()
      reads this, Repr
      decreases Repr
    {
      this in Repr
      && (forall k :: 0 <= k < |children| ==>
            children[k] in Repr && children[k].Repr <= Repr && this !in children[k].Repr && children[k].Valid())
      && (forall n :: n in Repr ==> n == this || exists k :: 0 <= k < |children| && n in children[k].Repr)
    }

    /** The field constructor: stores its arguments verbatim, with no children. */
    constructor (id: int, parentId: int, name: string, nameEn: string, adminLevel: int, geometry: G)
      ensures this.id == id && this.parentId == parentId && this.name == name
      ensures this.nameEn == nameEn && this.adminLevel == adminLevel && this.geometry == geometry
      ensures children == [] && Repr == {this} && Valid()
    {
      this.id := id;
      this.parentId := parentId;
      this.name := name;
      this.nameEn := nameEn;
      this.adminLevel := adminLevel;
      this.geometry := geometry;
      children := [];
      Repr := {this};
    }

    /**
     * The feature constructor: "local_name" when present, else "name";
     * "name_en" or ""; "admin_level" or -1; no children.
     */
    constructor FromFeature(feature: Feature<G>, parentId: int)
      ensures id == feature.osmId && this.parentId == parentId && geometry == feature.geometry
      ensures name == (if feature.localName.Some? then feature.localName.value else feature.name)
      ensures nameEn == (if feature.nameEn.Some? then feature.nameEn.value else "")
      ensures adminLevel == (if feature.adminLevel.Some? then feature.adminLevel.value else -1)
      ensures children == [] && Repr == {this} && Valid()
    {
      id := feature.osmId;
      name := if feature.localName.None? then feature.name else feature.localName.value;
      nameEn := if feature.nameEn.None? then "" else feature.nameEn.value;
      geometry := feature.geometry;
      this.parentId := parentId;
      adminLevel := if feature.adminLevel.None? then -1 else feature.adminLevel.value;
      children := [];
      Repr := {this};
    }

    /** The identity fields of `other` are those of this node. */
    predicate SameFields(other: AdministrativeDivisionNode<G>)
    {
      id == other.id && parentId == other.parentId && name == other.name
      && nameEn == other.nameEn && adminLevel == other.adminLevel && geometry == other.geometry
    }

    /**
     * `clone`: a copy of this node whose child list is new and holds a
     * childless copy of each child, in order; nothing existing is changed.
     */
    method Clone() returns (c: AdministrativeDivisionNode<G>)
      ensures fresh(c) && fresh(c.Repr) && c.Valid() && c.SameFields(this)
      ensures |c.children| == |children|
      ensures forall k :: 0 <= k < |children| ==>
        c.children[k].SameFields(children[k]) && c.children[k].children == []
    {
      var newChildren := CopyChildren(children);
      c := new AdministrativeDivisionNode(id, parentId, name, nameEn, adminLevel, geometry);
      c.children := newChildren;
      c.Repr := {c} + set k | 0 <= k < |newChildren| :: newChildren[k];
      c.ParentOfLeavesValid();
    }

    /** A valid node's children are valid trees inside its footprint, which does not contain this node. */
    lemma ChildValid(k: int)
      requires Valid() && 0 <= k < |children|
      ensures children[k] in Repr && children[k].Repr < Repr && children[k].Valid()
    {
      assert this in Repr && this !in children[k].Repr;
    }

    /** The footprints of the children, in order. */
    ghost function ChildReprs(): (r: seq<set<AdministrativeDivisionNode<G>>>)
      reads this, children
      ensures |r| == |children| && forall k :: 0 <= k < |children| ==> r[k] == children[k].Repr
    {
      seq(|children|, k reads this, children requires 0 <= k < |children| => children[k].Repr)
    }

    /** The footprint of a valid node is the node and what its children's footprints cover. */
    lemma CoveredByChildren(reprs: seq<set<AdministrativeDivisionNode<G>>>, covered: set<AdministrativeDivisionNode<G>>)
      requires Valid() && reprs == ChildReprs()
      requires forall k :: 0 <= k < |reprs| ==> reprs[k] <= covered
      ensures Repr <= {this} + covered
    {
    }

    /** A node whose children are all childless, distinct from it, and whose footprint is it and them, is a valid tree. */
    lemma ParentOfLeavesValid()
      requires Repr == {this} + set k | 0 <= k < |children| :: children[k]
      requires forall k :: 0 <= k < |children| ==>
        children[k] != this && children[k].children == [] && children[k].Repr == {children[k]}
      ensures Valid()
    {
      forall k | 0 <= k < |children|
        ensures children[k].Valid()
      {
        assert children[k].children == [];
      }
    }
  }

  /** The loop of `clone`: a fresh childless copy of each node, in order. */
  method CopyChildren<G(==)>(oldChildren: seq<AdministrativeDivisionNode<G>>) returns (newChildren: seq<AdministrativeDivisionNode<G>>)
    ensures |newChildren| == |oldChildren|
    ensures forall k :: 0 <= k < |oldChildren| ==> fresh(newChildren[k])
    ensures forall k :: 0 <= k < |oldChildren| ==>
      newChildren[k].SameFields(oldChildren[k]) && newChildren[k].children == [] && newChildren[k].Repr == {newChildren[k]}
  {
    newChildren := [];
    var i := 0;
    while i < |oldChildren|
      invariant 0 <= i <= |oldChildren| && |newChildren| == i
      invariant forall k :: 0 <= k < i ==> fresh(newChildren[k])
      invariant forall k :: 0 <= k < i ==>
        newChildren[k].SameFields(oldChildren[k]) && newChildren[k].children == [] && newChildren[k].Repr == {newChildren[k]}
    {
      var tmp := oldChildren[i];
      var copy := new AdministrativeDivisionNode(tmp.id, tmp.parentId, tmp.name, tmp.nameEn, tmp.adminLevel, tmp.geometry);
      newChildren := newChildren + [copy];
      i := i + 1;
    }
  }

  /** The division as returned to clients: one name, in the requested language. */
  datatype AdministrativeDivision = AdministrativeDivision(
    id: int,
    parentId: int,
    name: string,
    adminLevel: int,
    children: seq<AdministrativeDivision>)

  /** `new AdministrativeDivision(node, langType)`: the local name for language 0, the English name otherwise; children converted in order. */
  function ToDivision<G(==)>(node: AdministrativeDivisionNode<G>, langType: int): (r: AdministrativeDivision)
    requires node.Valid()
    reads node.Repr
    decreases node.Repr, |node.children| + 1
  {
    AdministrativeDivision(
      node.id,
      node.parentId,
      if langType == 0 then node.name else node.nameEn,
      node.adminLevel,
      Wrap(node, 0, langType))
  }

  /** `wrap`: the children of `node` from index `i` on, each converted with the same language. */
  function Wrap<G(==)>(node: AdministrativeDivisionNode<G>, i: nat, langType: int): (r: seq<AdministrativeDivision>)
    requires node.Valid() && i <= |node.children|
    reads node.Repr
    ensures |r| == |node.children| - i
    decreases node.Repr, |node.children| - i
  {
    if i == |node.children| then []
    else [ToDivision(node.children[i], langType)] + Wrap(node, i + 1, langType)
  }

  /** Each converted child is the conversion of the child at the same index. */
  lemma {:induction false} WrapAt<G>(node: AdministrativeDivisionNode<G>, i: nat, j: nat, langType: int)
    requires node.Valid() && i + j < |node.children|
    ensures Wrap(node, i, langType)[j] == ToDivision(node.children[i + j], langType)
    decreases j
  {
    if j > 0 {
      WrapAt(node, i + 1, j - 1, langType);
      var k := i + 1 + (j - 1);
      var rest := Wrap(node, i + 1, langType);
      assert rest[j - 1] == ToDivision(node.children[k], langType);
      assert Wrap(node, i, langType)[j] == rest[j - 1];
    }
  }

  /** The node reached from `node` by following child indices along `path`. */
  ghost function NodeAt<G>(node: AdministrativeDivisionNode<G>, path: seq<nat>): Option<AdministrativeDivisionNode<G>>
    requires node.Valid()
    reads node.Repr
    decreases |path|
  {
    if path == [] then Some(node)
    else if path[0] < |node.children| then NodeAt(node.children[path[0]], path[1..])
    else None
  }

  /** The division reached from `d` by following child indices along `path`. */
  function DivisionAt(d: AdministrativeDivision, path: seq<nat>): Option<AdministrativeDivision>
    decreases |path|
  {
    if path == [] then Some(d)
    else if path[0] < |d.children| then DivisionAt(d.children[path[0]], path[1..])
    else None
  }

  /**
   * The conversion keeps the shape of the tree: every path leads to a node
   * exactly when it leads to a division, and there the division carries the
   * node's id, parent id and level, the name in the requested language, and
   * as many children.
   */
  lemma {:induction false} ToDivisionAt<G>(node: AdministrativeDivisionNode<G>, path: seq<nat>, langType: int)
    requires node.Valid()
    ensures NodeAt(node, path).Some? <==> DivisionAt(ToDivision(node, langType), path).Some?
    ensures NodeAt(node, path).Some? ==>
      var n := NodeAt(node, path).value;
      var d := DivisionAt(ToDivision(node, langType), path).value;
      d.id == n.id && d.parentId == n.parentId && d.adminLevel == n.adminLevel
      && d.name == (if langType == 0 then n.name else n.nameEn)
      && |d.children| == |n.children|
    decreases |path|
  {
    if path != [] && path[0] < |node.children| {
      WrapAt(node, 0, path[0], langType);
      ToDivisionAt(node.children[path[0]], path[1..], langType);
    }
  }
}
