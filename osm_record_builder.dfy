/**
 * Turning parsed OSM elements into feature records: the category lookup over
 * the filter forest, and the node, way and relation record constructors with
 * their bookkeeping of relations whose members are not yet indexed.
 */
module OsmRecordBuilders {
  import opened Wrappers
  import opened JavaStrings
  import opened OsmModel
  import opened OsmFilters

  /** `Map.get` on a tag map: `None` for a missing key. */
  function Tag(tags: map<string, string>, k: string): Option<string>
  {
    if k in tags then Some(tags[k]) else None
  }

  /** Every category named in `f` or below it. */
  function CategoriesIn(f: OSMFilter): set<string>
    decreases f, 1
  {
    {f.category} + CategoriesInFrom(f, 0)
  }

  function CategoriesInFrom(f: OSMFilter, i: nat): set<string>
    requires i <= |f.childs|
    decreases f, 0, |f.childs| - i
  {
    if i == |f.childs| then {} else CategoriesIn(f.childs[i]) + CategoriesInFrom(f, i + 1)
  }

  /** The key a filter tests: its own, or the one inherited from its parent. */
  function EffectiveKey(f: OSMFilter, inherited: Option<string>): Option<string>
  {
    if f.HasKey() then Some(f.key) else inherited
  }

  /** The filter applies to `tags`: the tags hold its key, and its value if it names one. */
  predicate Applies(f: OSMFilter, tags: map<string, string>, inherited: Option<string>)
  {
    var k := EffectiveKey(f, inherited);
    k.Some? && k.value in tags && !(f.HasValue() && f.value != tags[k.value])
  }

  /**
   * `getCategoryRecursive`: `None` (null) unless the filter applies; then the
   * first child, in order, that yields a category, or else the filter's own.
   */
  function CategoryOf(f: OSMFilter, tags: map<string, string>, inherited: Option<string>): (r: Option<string>)
    ensures r.Some? ==> Applies(f, tags, inherited) && r.value in CategoriesIn(f)
    ensures !Applies(f, tags, inherited) ==> r.None?
    decreases f, 1
  {
    if !Applies(f, tags, inherited) then None
    else
      match ChildCategory(f, tags, EffectiveKey(f, inherited), 0)
      case Some(c) => Some(c)
      case None => Some(f.category)
  }

  /** The loop over `f`'s children from position `i`: the first category one of them yields. */
  function ChildCategory(f: OSMFilter, tags: map<string, string>, key: Option<string>, i: nat): (r: Option<string>)
    requires i <= |f.childs|
    ensures r.Some? ==> r.value in CategoriesInFrom(f, i)
    decreases f, 0, |f.childs| - i
  {
    if i == |f.childs| then None
    else
      match CategoryOf(f.childs[i], tags, key)
      case Some(c) => Some(c)
      case None => ChildCategory(f, tags, key, i + 1)
  }

  /** The children loop from position `i` yields `None` exactly when none of those children yields a category. */
  lemma {:induction false} ChildCategoryNone(f: OSMFilter, tags: map<string, string>, key: Option<string>, i: nat)
    requires i <= |f.childs|
    ensures ChildCategory(f, tags, key, i).None? <==>
      forall j :: i <= j < |f.childs| ==> CategoryOf(f.childs[j], tags, key).None?
    decreases |f.childs| - i
  {
    if i < |f.childs| {
      ChildCategoryNone(f, tags, key, i + 1);
    }
  }

  /** Otherwise it returns the category of the first child, `f.childs[j]`, that has one. */
  lemma {:induction false} ChildCategoryFirst(f: OSMFilter, tags: map<string, string>, key: Option<string>, i: nat, j: nat)
    requires i <= j < |f.childs| && CategoryOf(f.childs[j], tags, key).Some?
    requires forall j' :: i <= j' < j ==> CategoryOf(f.childs[j'], tags, key).None?
    ensures ChildCategory(f, tags, key, i) == CategoryOf(f.childs[j], tags, key)
    decreases j - i
  {
    if i < j {
      ChildCategoryFirst(f, tags, key, i + 1, j);
    }
  }

  /** A filter that applies, none of whose children yields a category, yields its own. */
  lemma CategoryOfApplies(f: OSMFilter, tags: map<string, string>, inherited: Option<string>)
    requires Applies(f, tags, inherited)
    requires forall j :: 0 <= j < |f.childs| ==> CategoryOf(f.childs[j], tags, EffectiveKey(f, inherited)).None?
    ensures CategoryOf(f, tags, inherited) == Some(f.category)
  {
    ChildCategoryNone(f, tags, EffectiveKey(f, inherited), 0);
  }

  /** A filter that applies yields the category of its first child, `f.childs[j]`, that yields one. */
  lemma CategoryOfFirstChild(f: OSMFilter, tags: map<string, string>, inherited: Option<string>, j: nat)
    requires Applies(f, tags, inherited)
    requires j < |f.childs| && CategoryOf(f.childs[j], tags, EffectiveKey(f, inherited)).Some?
    requires forall j' :: 0 <= j' < j ==> CategoryOf(f.childs[j'], tags, EffectiveKey(f, inherited)).None?
    ensures CategoryOf(f, tags, inherited) == CategoryOf(f.childs[j], tags, EffectiveKey(f, inherited))
  {
    ChildCategoryFirst(f, tags, EffectiveKey(f, inherited), 0, j);
  }

  /** A child without a key of its own is tested against its parent's key. */
  lemma InheritedKey(f: OSMFilter, tags: map<string, string>, parentKey: string)
    requires !f.HasKey()
    ensures CategoryOf(f, tags, Some(parentKey)).Some? ==> parentKey in tags
    ensures parentKey !in tags ==> CategoryOf(f, tags, Some(parentKey)).None?
  {
  }

  /** `getCategory`: the category from the first top-level filter, from position `i`, that yields one. */
  function CategoryFrom(filters: seq<OSMFilter>, tags: map<string, string>, i: nat): (r: Option<string>)
    requires i <= |filters|
    ensures r.Some? ==> exists j :: i <= j < |filters| && CategoryOf(filters[j], tags, None) == r
    decreases |filters| - i
  {
    if i == |filters| then None
    else
      match CategoryOf(filters[i], tags, None)
      case Some(c) => Some(c)
      case None => CategoryFrom(filters, tags, i + 1)
  }

  function GetCategory(filters: seq<OSMFilter>, tags: map<string, string>): Option<string>
  {
    CategoryFrom(filters, tags, 0)
  }

  /** `getCategory` is `None` exactly when no top-level filter, from position `i`, yields a category. */
  lemma {:induction false} CategoryFromNone(filters: seq<OSMFilter>, tags: map<string, string>, i: nat)
    requires i <= |filters|
    ensures CategoryFrom(filters, tags, i).None? <==> forall j :: i <= j < |filters| ==> CategoryOf(filters[j], tags, None).None?
    decreases |filters| - i
  {
    if i < |filters| {
      CategoryFromNone(filters, tags, i + 1);
    }
  }

  /** Otherwise `getCategory` takes the category of the first top-level filter, `filters[j]`, that yields one. */
  lemma {:induction false} GetCategoryFirst(filters: seq<OSMFilter>, tags: map<string, string>, i: nat, j: nat)
    requires i <= j < |filters| && CategoryOf(filters[j], tags, None).Some?
    requires forall j' :: i <= j' < j ==> CategoryOf(filters[j'], tags, None).None?
    ensures CategoryFrom(filters, tags, i) == CategoryOf(filters[j], tags, None)
    decreases j - i
  {
    if i < j {
      GetCategoryFirst(filters, tags, i + 1, j);
    }
  }

  /** `Map.get` on a geometry index: `None` for a missing key or a `null` geometry. */
  function Indexed(index: map<string, Option<Geometry>>, k: string): Option<Geometry>
  {
    if k in index then index[k] else None
  }

  /** The geometry a relation member resolves to: a way, node or relation of that id, by its declared type. */
  function MemberGeometry(m: Member, nodes: map<string, Option<Geometry>>, ways: map<string, Option<Geometry>>,
                          relations: map<string, Option<Geometry>>): Option<Geometry>
  {
    if EqualsIgnoreCase(m.memberType, "way") && Indexed(ways, m.reference).Some? then Indexed(ways, m.reference)
    else if EqualsIgnoreCase(m.memberType, "node") && Indexed(nodes, m.reference).Some? then Indexed(nodes, m.reference)
    else if EqualsIgnoreCase(m.memberType, "relation") && Indexed(relations, m.reference).Some? then Indexed(relations, m.reference)
    else None
  }

  /** The geometries of the members that resolve, in member order. */
  function Resolved(ms: seq<Member>, nodes: map<string, Option<Geometry>>, ways: map<string, Option<Geometry>>,
                    relations: map<string, Option<Geometry>>): seq<Geometry>
  {
    if ms == [] then []
    else
      var g := MemberGeometry(ms[|ms| - 1], nodes, ways, relations);
      Resolved(ms[..|ms| - 1], nodes, ways, relations) + (if g.Some? then [g.value] else [])
  }

  /** Some member of `ms` does not resolve. */
  predicate AnyMissing(ms: seq<Member>, nodes: map<string, Option<Geometry>>, ways: map<string, Option<Geometry>>,
                       relations: map<string, Option<Geometry>>)
  {
    exists i :: 0 <= i < |ms| && MemberGeometry(ms[i], nodes, ways, relations).None?
  }

  /** Looking at one more member extends the resolved list by that member's geometry, if it has one. */
  lemma ResolvedStep(ms: seq<Member>, i: nat, nodes: map<string, Option<Geometry>>, ways: map<string, Option<Geometry>>,
                     relations: map<string, Option<Geometry>>)
    requires i < |ms|
    ensures var g := MemberGeometry(ms[i], nodes, ways, relations);
      Resolved(ms[..i + 1], nodes, ways, relations) == Resolved(ms[..i], nodes, ways, relations) + (if g.Some? then [g.value] else [])
  {
    assert ms[..i + 1][..i] == ms[..i];
  }

  /** Looking at one more member finds a missing one exactly when it or an earlier one does not resolve. */
  lemma MissingStep(ms: seq<Member>, i: nat, nodes: map<string, Option<Geometry>>, ways: map<string, Option<Geometry>>,
                    relations: map<string, Option<Geometry>>)
    requires i < |ms|
    ensures AnyMissing(ms[..i + 1], nodes, ways, relations) <==>
      AnyMissing(ms[..i], nodes, ways, relations) || MemberGeometry(ms[i], nodes, ways, relations).None?
  {
    assert forall j :: 0 <= j < i ==> ms[..i + 1][j] == ms[..i][j];
    assert ms[..i + 1][i] == ms[i];
  }

  /** When every member resolves, the resolved list is exactly the members' geometries, one each, in order. */
  lemma {:induction false} ResolvedAll(ms: seq<Member>, nodes: map<string, Option<Geometry>>, ways: map<string, Option<Geometry>>,
                                       relations: map<string, Option<Geometry>>)
    requires !AnyMissing(ms, nodes, ways, relations)
    ensures |Resolved(ms, nodes, ways, relations)| == |ms|
    ensures forall i :: 0 <= i < |ms| ==> Resolved(ms, nodes, ways, relations)[i] == MemberGeometry(ms[i], nodes, ways, relations).value
    decreases |ms|
  {
    if ms != [] {
      var prefix := ms[..|ms| - 1];
      assert forall i :: 0 <= i < |prefix| ==> prefix[i] == ms[i];
      ResolvedAll(prefix, nodes, ways, relations);
    }
  }

  /**
   * What the type-specific branches (multilinestring, route, multipolygon,
   * boundary) of the relation construction end in: a geometry set on the
   * record, none (another type, or no member way found), or an exception,
   * which the surrounding `catch` swallows before any geometry was set.
   */
  datatype TypedGeometry = Built(geometry: Geometry) | NotBuilt | Threw

  /**
   * The geometry of a relation record: after an exception there is none; a
   * missing or empty geometry from the type-specific construction is
   * replaced by the single resolved member, or by a collection of several;
   * with none resolved it stays as it was.
   */
  function FinalGeometry(typed: TypedGeometry, found: seq<Geometry>): Option<Geometry>
  {
    match typed
    case Threw => None
    case Built(g) =>
      if !IsEmptyGeometry(g) then Some(g)
      else if |found| == 1 then Some(found[0])
      else if |found| > 1 then Some(GeometryCollection(found))
      else Some(g)
    case NotBuilt =>
      if |found| == 1 then Some(found[0])
      else if |found| > 1 then Some(GeometryCollection(found))
      else None
  }

  /** The type-specific construction ended without exception and left no usable geometry, so the members are collected. */
  predicate NeedsMembers(typed: TypedGeometry)
  {
    typed.NotBuilt? || (typed.Built? && IsEmptyGeometry(typed.geometry))
  }

  class OSMRecordBuilder {
    /** The user's filters, or `None` when no classification was given. */
    var filters: Option<seq<OSMFilter>>
    var nodeIndex: OSMMemoryIndex
    var wayIndex: OSMMemoryIndex
    var relationIndex: OSMMemoryIndex
    /** Relations met with an unindexed member, each listed once, for a second pass. */
    var incompleteRelations: seq<OSMRelation>

    /** The indexes are assigned by the caller in the source; here they are given at construction. */
    constructor(tagFilters: Option<seq<OSMFilter>>, nodes: OSMMemoryIndex, ways: OSMMemoryIndex, relations: OSMMemoryIndex)
      ensures filters == tagFilters && incompleteRelations == []
      ensures nodeIndex == nodes && wayIndex == ways && relationIndex == relations
    {
      filters := tagFilters;
      nodeIndex := nodes;
      wayIndex := ways;
      relationIndex := relations;
      incompleteRelations := [];
    }

    /** The category an element gets: by the filters when there are any, otherwise its kind. */
    function CategoryFor(tags: map<string, string>, kind: string): Option<string>
      reads this
    {
      if filters.Some? then GetCategory(filters.value, tags) else Some(kind)
    }

    /** The fields every record gets: prefixed id, "type" tag, name or "", the tags without "name", and the category. */
    method NewRecord(prefix: string, id: string, tags: map<string, string>, kind: string) returns (rec: OSMRecord)
      ensures fresh(rec)
      ensures rec.id == Some(prefix + id) && rec.osmType == Tag(tags, "type")
      ensures rec.name == Some(if "name" in tags then tags["name"] else "")
      ensures rec.tags == tags - {"name"} && rec.geometry.None?
      ensures rec.category == CategoryFor(tags, kind)
    {
      rec := new OSMRecord();
      rec.SetID(Some(prefix + id));
      rec.SetType(Tag(tags, "type"));
      rec.SetName(Some(if "name" in tags then tags["name"] else ""));
      rec.SetTags(tags);
      assert rec.tags == tags - {"name"};
      rec.SetCategory(CategoryFor(tags, kind));
    }

    /** `createOSMRecord(OSMNode)`. */
    method CreateNodeRecord(n: OSMNode) returns (rec: OSMRecord)
      ensures fresh(rec)
      ensures rec.id == Some("node/" + n.id) && rec.osmType == Tag(n.tags, "type")
      ensures rec.name == Some(if "name" in n.tags then n.tags["name"] else "")
      ensures rec.tags == n.tags - {"name"} && rec.geometry == n.geometry
      ensures rec.category == (if filters.Some? then GetCategory(filters.value, n.tags) else Some("node"))
    {
      rec := NewRecord("node/", n.id, n.tags, "node");
      rec.SetGeometry(n.geometry);
    }

    /** `createOSMRecord(OSMWay)`. */
    method CreateWayRecord(w: OSMWay) returns (rec: OSMRecord)
      ensures fresh(rec)
      ensures rec.id == Some("way/" + w.id) && rec.osmType == Tag(w.tags, "type")
      ensures rec.name == Some(if "name" in w.tags then w.tags["name"] else "")
      ensures rec.tags == w.tags - {"name"} && rec.geometry == w.geometry
      ensures rec.category == (if filters.Some? then GetCategory(filters.value, w.tags) else Some("way"))
    {
      rec := NewRecord("way/", w.id, w.tags, "way");
      rec.SetGeometry(w.geometry);
    }

    /** One member of the loop: the index its declared type names, looked up by its reference. */
    method ResolveMember(m: Member) returns (g: Option<Geometry>)
      ensures g == MemberGeometry(m, nodeIndex.index, wayIndex.index, relationIndex.index)
    {
      var k := m.reference;
      if EqualsIgnoreCase(m.memberType, "way") && wayIndex.Get(k).Some? {
        g := wayIndex.Get(k);
      } else if EqualsIgnoreCase(m.memberType, "node") && nodeIndex.Get(k).Some? {
        g := nodeIndex.Get(k);
      } else if EqualsIgnoreCase(m.memberType, "relation") && relationIndex.Get(k).Some? {
        g := relationIndex.Get(k);
      } else {
        g := None;
      }
    }

    /**
     * The member loop of `createOSMRecord(OSMRelation)`: the geometries of the
     * members that resolve, in order, and whether this call put the relation
     * on `incompleteRelations` (it does so at most once, on the first member
     * that does not resolve, and only if the relation is not listed yet).
     */
    method CollectMembers(r: OSMRelation) returns (found: seq<Geometry>, incomplete: bool)
      modifies this`incompleteRelations
      ensures found == Resolved(r.members, nodeIndex.index, wayIndex.index, relationIndex.index)
      ensures incomplete == (AnyMissing(r.members, nodeIndex.index, wayIndex.index, relationIndex.index) && r !in old(incompleteRelations))
      ensures incompleteRelations == old(incompleteRelations) + (if incomplete then [r] else [])
    {
      ghost var nodes, ways, relations := nodeIndex.index, wayIndex.index, relationIndex.index;
      found := [];
      incomplete := false;
      var i := 0;
      while i < |r.members|
        invariant 0 <= i <= |r.members|
        invariant found == Resolved(r.members[..i], nodes, ways, relations)
        invariant incomplete == (AnyMissing(r.members[..i], nodes, ways, relations) && r !in old(incompleteRelations))
        invariant incompleteRelations == old(incompleteRelations) + (if incomplete then [r] else [])
      {
        ResolvedStep(r.members, i, nodes, ways, relations);
        MissingStep(r.members, i, nodes, ways, relations);
        var g := ResolveMember(r.members[i]);
        if g.Some? {
          found := found + [g.value];
        } else if r !in incompleteRelations {
          incompleteRelations := incompleteRelations + [r];
          incomplete := true;
        }
        i := i + 1;
      }
      assert r.members[..i] == r.members;
    }

    /**
     * `createOSMRecord(OSMRelation)`. `typed` is how the type-specific
     * branches ended. After an exception the record is returned with no
     * geometry and the members are not looked at. When the branches built no
     * geometry or an empty one, every member is resolved through the
     * indexes; a member that does not resolve puts the relation on
     * `incompleteRelations` if it is not there yet, and then the result is
     * `None` (null), to be retried later.
     */
    method CreateRelationRecord(r: OSMRelation, typed: TypedGeometry) returns (res: Option<OSMRecord>)
      modifies this`incompleteRelations
      ensures var missing := NeedsMembers(typed) && AnyMissing(r.members, nodeIndex.index, wayIndex.index, relationIndex.index);
        && incompleteRelations == old(incompleteRelations) + (if missing && r !in old(incompleteRelations) then [r] else [])
        && (res.None? <==> missing && r !in old(incompleteRelations))
      ensures res.Some? ==> fresh(res.value)
      // an exception in the type-specific branches skips the members: a record without geometry, nothing queued
      ensures typed.Threw? ==> res.Some? && res.value.geometry.None? && incompleteRelations == old(incompleteRelations)
      ensures res.Some? ==> var rec := res.value;
        && rec.id == Some("relation/" + r.id) && rec.osmType == Tag(r.tags, "type")
        && rec.name == Some(if "name" in r.tags then r.tags["name"] else "")
        && rec.tags == r.tags - {"name"}
        && rec.category == (if filters.Some? then GetCategory(filters.value, r.tags) else Some("relation"))
        && rec.geometry == FinalGeometry(typed, Resolved(r.members, nodeIndex.index, wayIndex.index, relationIndex.index))
    {
      var rec := NewRecord("relation/", r.id, r.tags, "relation");
      rec.SetGeometry(if typed.Built? then Some(typed.geometry) else None);
      if !NeedsMembers(typed) {
        return Some(rec);
      }
      var found, incomplete := CollectMembers(r);
      if incomplete {
        return None;
      } else if |found| == 1 {
        rec.SetGeometry(Some(found[0]));
      } else if |found| > 1 {
        rec.SetGeometry(Some(GeometryCollection(found)));
      }
      return Some(rec);
    }
  }
}
