/**
 * The OSM element records: the parsed nodes, ways and relations (only the
 * parts the record builder reads), the `OSMRecord` a feature is turned into,
 * and the in-memory geometry index keyed by OSM id.
 */
module OsmModel {
  import opened Wrappers

  /** A geometry, left abstract: a handle and whether it is empty, or a collection of member geometries. */
  datatype Geometry = Shape(handle: nat, empty: bool) | GeometryCollection(members: seq<Geometry>)

  /** `Geometry.isEmpty`: a collection is empty when all of its members are. */
  predicate IsEmptyGeometry(g: Geometry)
  {
    match g
    case Shape(_, empty) => empty
    case GeometryCollection(members) => forall k :: 0 <= k < |members| ==> IsEmptyGeometry(members[k])
  }

  datatype OSMNode = OSMNode(id: string, geometry: Option<Geometry>, tags: map<string, string>)

  datatype OSMWay = OSMWay(id: string, geometry: Option<Geometry>, tags: map<string, string>)

  /** One entry of a relation's member map: the member's OSM id, its element type and its role. */
  datatype Member = Member(reference: string, memberType: string, role: string)

  /** A relation; `members` lists the member map's entries in its iteration order. */
  datatype OSMRelation = OSMRelation(id: string, members: seq<Member>, tags: map<string, string>)

  /** A feature record: identity, name, type, category, geometry and its remaining tags. */
  class OSMRecord {
    var id: Option<string>
    var name: Option<string>
    var osmType: Option<string>
    var category: Option<string>
    var geometry: Option<Geometry>
    var tags: map<string, string>

    constructor()
      ensures id.None? && name.None? && osmType.None? && category.None? && geometry.None?
      ensures tags == map[]
    {
      id := None;
      name := None;
      osmType := None;
      category := None;
      geometry := None;
      tags := map[];
    }

    method SetID(x: Option<string>)
      modifies this
      ensures id == x
      ensures name == old(name) && osmType == old(osmType) && category == old(category)
      ensures geometry == old(geometry) && tags == old(tags)
    {
      id := x;
    }

    method SetName(x: Option<string>)
      modifies this
      ensures name == x
      ensures id == old(id) && osmType == old(osmType) && category == old(category)
      ensures geometry == old(geometry) && tags == old(tags)
    {
      name := x;
    }

    method SetType(x: Option<string>)
      modifies this
      ensures osmType == x
      ensures id == old(id) && name == old(name) && category == old(category)
      ensures geometry == old(geometry) && tags == old(tags)
    {
      osmType := x;
    }

    method SetCategory(x: Option<string>)
      modifies this
      ensures category == x
      ensures id == old(id) && name == old(name) && osmType == old(osmType)
      ensures geometry == old(geometry) && tags == old(tags)
    {
      category := x;
    }

    method SetGeometry(g: Option<Geometry>)
      modifies this
      ensures geometry == g
      ensures id == old(id) && name == old(name) && osmType == old(osmType)
      ensures category == old(category) && tags == old(tags)
    {
      geometry := g;
    }

    /** `setTagKeyValue`: inserts or overwrites exactly one tag. */
    method SetTagKeyValue(key: string, value: string)
      modifies this
      ensures tags == old(tags)[key := value]
      ensures key in tags && tags[key] == value && |tags| == |old(tags)| + (if key in old(tags) then 0 else 1)
      ensures forall k :: k != key ==> (k in tags <==> k in old(tags)) && (k in tags ==> tags[k] == old(tags)[k])
      ensures id == old(id) && name == old(name) && osmType == old(osmType)
      ensures category == old(category) && geometry == old(geometry)
    {
      tags := tags[key := value];
    }

    /**
     * `setTags`: copies every given tag over the record's tags, then drops
     * "name", which the record keeps separately.
     */
    method SetTags(given: map<string, string>)
      modifies this
      ensures "name" !in tags
      ensures forall k :: k in given && k != "name" ==> k in tags && tags[k] == given[k]
      ensures forall k :: k !in given && k != "name" ==> (k in tags <==> k in old(tags)) && (k in tags ==> tags[k] == old(tags)[k])
      ensures forall k :: k in tags ==> k in given || k in old(tags)
      ensures id == old(id) && name == old(name) && osmType == old(osmType)
      ensures category == old(category) && geometry == old(geometry)
    {
      tags := (tags + given) - {"name"};
    }
  }

  /** The in-memory dictionary from OSM ids to geometries; a `null` geometry is stored as `None` and still counts as present. */
  class OSMMemoryIndex {
    var index: map<string, Option<Geometry>>

    constructor()
      ensures index == map[]
    {
      index := map[];
    }

    /** `get`: the stored geometry, or `None` for an absent key. */
    function Get(k: string): Option<Geometry>
      reads this
    {
      if k in index then index[k] else None
    }

    function Size(): nat
      reads this
    {
      |index|
    }

    predicate ContainsKey(k: string)
      reads this
    {
      k in index
    }

    /** `put`: the key now maps to `g` (even a `null` one); overwriting keeps the size. */
    method Put(k: string, g: Option<Geometry>)
      modifies this
      ensures index == old(index)[k := g]
      ensures Get(k) == g && ContainsKey(k)
      ensures Size() == old(Size()) + (if old(ContainsKey(k)) then 0 else 1)
    {
      index := index[k := g];
    }

    /** `clear`: nothing is left. */
    method Clear()
      modifies this
      ensures index == map[]
      ensures Size() == 0 && forall k :: !ContainsKey(k)
    {
      index := map[];
    }

    /** `putAll`: every key of `m` maps to `m`'s value; every other key keeps its entry. */
    method PutAll(m: map<string, Option<Geometry>>)
      modifies this
      ensures index == old(index) + m
      ensures forall k :: k in m ==> ContainsKey(k) && index[k] == m[k]
      ensures forall k :: k !in m ==> (ContainsKey(k) <==> old(ContainsKey(k))) && Get(k) == old(Get(k))
    {
      index := index + m;
    }
  }
}
