/**
 * The attribute mapping table: for each attribute of the input, how its
 * values become RDF triples (entity type, predicate, resource type, language,
 * class, parent property, generator function with arguments, literal data
 * type) and the profile that decides how triples are generated.
 */
module Mappings {
  import opened Wrappers
  import opened JavaStrings

  /** How triples are generated for an attribute. */
  datatype MappingProfile =
    | IsInstance | IsInstanceTagLanguage | IsPart | IsPartTagLanguage | HasDataType | HasDataTypeUrl
    | IsLiteralTagLanguage | IsLiteral | IsUri | Unspecified

  /** The XSD data types a mapping can name. */
  datatype XsdType =
    | XsdInteger | XsdLong | XsdFloat | XsdDouble | XsdDate | XsdDateTime | XsdDateTimeStamp | XsdBoolean
    | XsdAnyUri | XsdString

  /** The runtime exceptions the mapping code can raise on malformed input. */
  datatype RuntimeError = NullPointer | IndexOutOfBounds

  /** A generator function: its name, its arguments, and whether it is a geometric built-in. */
  datatype Generator = Generator(name: string, arguments: seq<string>, geometric: bool)

  /** The properties of one mapping; `None` stands for an unset (null) property. */
  datatype MapProperties = MapProperties(
    entityType: Option<string>, predicateName: Option<string>, resourceType: Option<string>, language: Option<string>,
    instance: Option<string>, part: Option<string>, generator: Option<Generator>, dataType: Option<XsdType>)

  const NoProperties := MapProperties(None, None, None, None, None, None, None, None)

  /** `setDataType`: the data type a (case-insensitive) name selects; every unknown name is a string. */
  function DataTypeOf(d: string): (t: XsdType)
    ensures t == XsdString <==> ToLower(d) !in {"int", "integer", "long", "float", "double", "date", "datetime", "timestamp", "boolean", "uri"}
    ensures t == XsdInteger <==> ToLower(d) in {"int", "integer"}
    ensures t == XsdAnyUri <==> ToLower(d) == "uri"
  {
    match ToLower(d)
    case "int" => XsdInteger
    case "integer" => XsdInteger
    case "long" => XsdLong
    case "float" => XsdFloat
    case "double" => XsdDouble
    case "date" => XsdDate
    case "datetime" => XsdDateTime
    case "timestamp" => XsdDateTimeStamp
    case "boolean" => XsdBoolean
    case "uri" => XsdAnyUri
    case _ => XsdString
  }

  /** The data type name is case-insensitive. */
  lemma DataTypeIgnoresCase(d: string)
    ensures DataTypeOf(ToUpper(d)) == DataTypeOf(d)
  {
    LowerAbsorbs(d);
  }

  predicate IsInstanceCase(p: MapProperties) { p.resourceType.Some? && p.instance.Some? && p.part.None? }

  /**
   * `setMappingProfile`: the first rule that applies, in the order instance,
   * part, data type, predicate with language, predicate, URI entity; a null
   * entity type reaching the last test raises a NullPointerException.
   */
  function ProfileOf(p: MapProperties): (r: Result<MappingProfile, RuntimeError>)
    ensures r.Ok? && r.value in {IsInstance, IsInstanceTagLanguage} <==> IsInstanceCase(p)
    ensures r.Ok? && r.value in {IsPart, IsPartTagLanguage} <==> !IsInstanceCase(p) && p.part.Some?
    ensures r.Ok? && r.value in {HasDataType, HasDataTypeUrl} <==> !IsInstanceCase(p) && p.part.None? && p.dataType.Some?
    ensures r.Ok? && r.value in {IsLiteral, IsLiteralTagLanguage} <==>
      !IsInstanceCase(p) && p.part.None? && p.dataType.None? && p.predicateName.Some?
    ensures r.Ok? && r.value == IsUri <==>
      !IsInstanceCase(p) && p.part.None? && p.dataType.None? && p.predicateName.None?
      && p.entityType.Some? && EqualsIgnoreCase(p.entityType.value, "URI")
    ensures r.Err? <==>
      !IsInstanceCase(p) && p.part.None? && p.dataType.None? && p.predicateName.None? && p.entityType.None?
    // the language-tagged variants are chosen exactly when a language is set
    ensures r.Ok? && r.value in {IsInstanceTagLanguage, IsPartTagLanguage, IsLiteralTagLanguage} ==> p.language.Some?
    ensures r.Ok? && r.value in {IsInstance, IsPart, IsLiteral} ==> p.language.None?
  {
    if IsInstanceCase(p) then Ok(if p.language.Some? then IsInstanceTagLanguage else IsInstance)
    else if p.part.Some? then Ok(if p.language.Some? then IsPartTagLanguage else IsPart)
    else if p.dataType.Some? then Ok(if p.dataType.value == XsdAnyUri then HasDataTypeUrl else HasDataType)
    else if p.predicateName.Some? && p.language.Some? then Ok(IsLiteralTagLanguage)
    else if p.predicateName.Some? then Ok(IsLiteral)
    else if p.entityType.None? then Err(NullPointer)
    else if EqualsIgnoreCase(p.entityType.value, "URI") then Ok(IsUri)
    else Ok(Unspecified)
  }

  /** The number of '"' characters in `s`. */
  function Quotes(s: string): nat
  {
    if s == [] then 0 else (if s[0] == '"' then 1 else 0) + Quotes(s[1..])
  }

  /**
   * `s` cut at each comma followed by an even number of '"' up to the end,
   * i.e. at each comma outside a quoted string; empty pieces are kept.
   */
  function CommaPieces(s: string): (r: seq<string>)
    ensures |r| >= 1
  {
    if s == [] then [[]]
    else
      var rest := CommaPieces(s[1..]);
      if s[0] == ',' && Quotes(s[1..]) % 2 == 0 then [[]] + rest
      else [[s[0]] + rest[0]] + rest[1..]
  }

  /** Gluing the pieces back with commas gives the original text. */
  lemma {:induction false} CommaPiecesJoin(s: string)
    ensures Join(CommaPieces(s), ",") == s
    decreases |s|
  {
    if s != [] {
      var rest := CommaPieces(s[1..]);
      CommaPiecesJoin(s[1..]);
      if s[0] == ',' && Quotes(s[1..]) % 2 == 0 {
        assert CommaPieces(s) == [[]] + rest;
        assert ([[]] + rest)[1..] == rest;
        assert s == [] + "," + s[1..];
      } else {
        var pieces := [[s[0]] + rest[0]] + rest[1..];
        assert CommaPieces(s) == pieces;
        if |rest| == 1 {
          assert Join(pieces, ",") == [s[0]] + rest[0];
        } else {
          assert pieces[1..] == rest[1..];
          assert Join(rest, ",") == rest[0] + "," + Join(rest[1..], ",");
          assert Join(pieces, ",") == [s[0]] + rest[0] + "," + Join(rest[1..], ",");
        }
        assert s == [s[0]] + s[1..];
      }
    }
  }

  /** A text without commas is a single piece. */
  lemma {:induction false} CommaPiecesNoComma(s: string)
    requires ',' !in s
    ensures CommaPieces(s) == [s]
    decreases |s|
  {
    if s != [] {
      assert ',' !in s[1..];
      CommaPiecesNoComma(s[1..]);
      assert s == [s[0]] + s[1..];
    }
  }

  /**
   * `split(",(?=(?:[^\"]*\"[^\"]*\")*[^\"]*$)")`: the text itself when no
   * comma splits it, otherwise the pieces with trailing empty ones removed.
   */
  function QuoteAwareSplit(s: string): seq<string>
  {
    var pieces := CommaPieces(s);
    if |pieces| == 1 then [s] else StripTrailingEmpty(pieces)
  }

  /**
   * A generator specification `name(arg, ...)` or `name`: the name runs up
   * to the first '(', the arguments are the text after it without its last
   * character. '(' as the last character raises an index error.
   */
  function ParseCall(text: string, geometric: bool): (r: Result<Generator, RuntimeError>)
    ensures r.Ok? ==> r.value.geometric == geometric
    ensures '(' !in text ==> r == Ok(Generator(text, [], geometric))
    ensures '(' in text ==> (r.Err? <==> text[|text| - 1] == '(' && '(' !in text[..|text| - 1])
    ensures r.Ok? && '(' in text ==>
      exists p :: 0 <= p < |text| - 1 && text[p] == '(' && '(' !in text[..p] && r.value.name == text[..p]
        && r.value.arguments == TrimAll(QuoteAwareSplit(text[p + 1..|text| - 1]))
  {
    var p := IndexOf(text, '(');
    if p < 0 then Ok(Generator(text, [], geometric))
    else if p + 1 > |text| - 1 then Err(IndexOutOfBounds)
    else Ok(Generator(text[..p], TrimAll(QuoteAwareSplit(text[p + 1..|text| - 1])), geometric))
  }

  /**
   * Slot 6 of a mapping: a specification starting "geometry" loses its first
   * nine characters ("geometry.") and names a geometric built-in; anything
   * else names a thematic one.
   */
  function ParseGenerator(g: string): (r: Result<Generator, RuntimeError>)
    ensures StartsWith(g, "geometry") && |g| < 9 ==> r == Err(IndexOutOfBounds)
    ensures StartsWith(g, "geometry") && |g| >= 9 ==> r == ParseCall(g[9..], true)
    ensures !StartsWith(g, "geometry") ==> r == ParseCall(g, false)
  {
    if StartsWith(g, "geometry") then
      if |g| < 9 then Err(IndexOutOfBounds) else ParseCall(g[9..], true)
    else ParseCall(g, false)
  }

  /** One slot of a positional mapping specification; slots after the eighth are ignored. */
  function SetSlot(p: MapProperties, i: nat, v: string): Result<MapProperties, RuntimeError>
  {
    if i == 0 then Ok(p.(entityType := Some(v)))
    else if i == 1 then Ok(p.(predicateName := Some(v)))
    else if i == 2 then Ok(p.(resourceType := Some(v)))
    else if i == 3 then Ok(p.(language := Some(v)))
    else if i == 4 then Ok(p.(instance := Some(v)))
    else if i == 5 then Ok(p.(part := Some(v)))
    else if i == 6 then
      (match ParseGenerator(v)
       case Ok(gen) => Ok(p.(generator := Some(gen)))
       case Err(e) => Err(e))
    else if i == 7 then Ok(p.(dataType := Some(DataTypeOf(v))))
    else Ok(p)
  }

  /** The properties after the first `n` slots of `m` are read. */
  function PropsFrom(m: seq<string>, n: nat): Result<MapProperties, RuntimeError>
    requires n <= |m|
  {
    if n == 0 then Ok(NoProperties)
    else
      match PropsFrom(m, n - 1)
      case Ok(p) => SetSlot(p, n - 1, m[n - 1])
      case Err(e) => Err(e)
  }

  function Slot(m: seq<string>, i: nat): Option<string>
  {
    if i < |m| then Some(m[i]) else None
  }

  /**
   * Slots 0 to 7 set entity type, predicate, resource type, language, class,
   * parent property, generator and data type, by position; reading fails only
   * when slot 6 holds a malformed generator.
   */
  lemma {:induction false} PropsBySlot(m: seq<string>, n: nat)
    requires n <= |m|
    ensures PropsFrom(m, n).Err? <==> n > 6 && ParseGenerator(m[6]).Err?
    ensures PropsFrom(m, n).Ok? ==> var p := PropsFrom(m, n).value;
      && p.entityType == Slot(m[..n], 0) && p.predicateName == Slot(m[..n], 1) && p.resourceType == Slot(m[..n], 2)
      && p.language == Slot(m[..n], 3) && p.instance == Slot(m[..n], 4) && p.part == Slot(m[..n], 5)
      && p.generator == (if n > 6 then Some(ParseGenerator(m[6]).value) else None)
      && p.dataType == (if n > 7 then Some(DataTypeOf(m[7])) else None)
  {
    if n > 0 {
      PropsBySlot(m, n - 1);
    }
  }

  /** Once a slot raises, reading further slots raises the same error. */
  lemma {:induction false} PropsErrKept(m: seq<string>, n: nat, n': nat)
    requires n <= n' <= |m| && PropsFrom(m, n).Err?
    ensures PropsFrom(m, n') == PropsFrom(m, n)
    decreases n'
  {
    if n' > n {
      PropsErrKept(m, n, n' - 1);
    }
  }

  /** `List.remove(Object)`: drops the first occurrence, if any. */
  function RemoveFirst(xs: seq<string>, x: string): (r: seq<string>)
    ensures x !in xs ==> r == xs
    ensures |r| == if x in xs then |xs| - 1 else |xs|
  {
    if xs == [] then []
    else if xs[0] == x then xs[1..]
    else
      assert x in xs[1..] <==> x in xs;
      [xs[0]] + RemoveFirst(xs[1..], x)
  }

  /** Position `k` holds the first occurrence of `x`, and `r` is `xs` without it. */
  predicate RemovedAt(xs: seq<string>, x: string, k: int, r: seq<string>)
  {
    0 <= k < |xs| && xs[k] == x && x !in xs[..k] && r == xs[..k] + xs[k + 1..]
  }

  /** The element removed is the first occurrence, and the others keep their order. */
  lemma {:induction false} RemoveFirstAt(xs: seq<string>, x: string)
    requires x in xs
    ensures exists k :: RemovedAt(xs, x, k, RemoveFirst(xs, x))
  {
    if xs[0] == x {
      assert xs[..0] == [];
      assert RemovedAt(xs, x, 0, RemoveFirst(xs, x));
    } else {
      var tail := xs[1..];
      assert x in tail;
      RemoveFirstAt(tail, x);
      var k :| RemovedAt(tail, x, k, RemoveFirst(tail, x));
      assert RemoveFirst(xs, x) == [xs[0]] + RemoveFirst(tail, x);
      assert xs[..k + 1] == [xs[0]] + tail[..k];
      assert xs[k + 2..] == tail[k + 1..];
      assert RemovedAt(xs, x, k + 1, RemoveFirst(xs, x));
    }
  }

  /** The key a mapping is stored under: a "%LANG" suffix is cut at its first '%'. */
  function StoredKey(key: string): (k: string)
    ensures EndsWith(key, "%LANG") ==> '%' !in k && StartsWith(key, k)
    ensures !EndsWith(key, "%LANG") ==> k == key
  {
    if EndsWith(key, "%LANG") then
      assert key[|key| - 5] == '%';
      key[..IndexOf(key, '%')]
    else key
  }

  /**
   * Whether a multi-faceted item covers an attribute name: the item is a
   * prefix of it, or the item holds '*' and its first and last '*'-separated
   * parts are a prefix and a suffix. An item made of '*' only splits into
   * nothing and raises an index error.
   */
  function Covers(item: string, key: string): Result<bool, RuntimeError>
  {
    if StartsWith(key, item) then Ok(true)
    else if '*' in item then
      var parts := JavaSplit(item, '*');
      if parts == [] then Err(IndexOutOfBounds)
      else Ok(StartsWith(key, parts[0]) && EndsWith(key, parts[|parts| - 1]))
    else Ok(false)
  }

  /** The first item from position `i` that covers `key`; the first error stops the search. */
  function FirstCovering(items: seq<string>, key: string, i: nat): (r: Result<Option<string>, RuntimeError>)
    requires i <= |items|
    ensures r.Ok? && r.value.Some? ==> exists k :: (i <= k < |items| && items[k] == r.value.value
      && Covers(items[k], key) == Ok(true) && forall j :: i <= j < k ==> Covers(items[j], key) == Ok(false))
    ensures r.Ok? && r.value.None? ==> forall k :: i <= k < |items| ==> Covers(items[k], key) == Ok(false)
    ensures r.Err? ==> exists k :: (i <= k < |items| && Covers(items[k], key) == Err(r.error)
      && forall j :: i <= j < k ==> Covers(items[j], key) == Ok(false))
    decreases |items| - i
  {
    if i == |items| then Ok(None)
    else
      match Covers(items[i], key)
      case Err(e) => Err(e)
      case Ok(true) => Ok(Some(items[i]))
      case Ok(false) => FirstCovering(items, key, i + 1)
  }

  /** An item without '*' covers exactly the names it is a prefix of. */
  lemma CoversPlain(item: string, key: string)
    requires '*' !in item
    ensures Covers(item, key) == Ok(StartsWith(key, item))
  {
  }

  /** A "%LANG" mapping, once stored, covers every language variant of its name. */
  lemma LangVariantCovered(key: string, lang: string)
    requires EndsWith(key, "%LANG")
    ensures Covers(StoredKey(key), StoredKey(key) + lang) == Ok(true)
  {
    var k := StoredKey(key);
    assert (k + lang)[..|k|] == k;
  }

  class Mapping {
    var attrMappings: map<string, MapProperties>
    var multiFacetedAttrs: seq<string>
    var extraThematicAttrs: seq<string>
    var extraGeometricAttrs: seq<string>

    constructor()
      ensures attrMappings == map[] && multiFacetedAttrs == [] && extraThematicAttrs == [] && extraGeometricAttrs == []
    {
      attrMappings := map[];
      multiFacetedAttrs := [];
      extraThematicAttrs := [];
      extraGeometricAttrs := [];
    }

    /**
     * `add`: reads the positional specification slot by slot (slot 6 lists
     * the attribute as an extra geometric or thematic one), chooses the
     * profile, unlists a URI mapping from the thematic extras, lists a
     * multi-faceted name, and stores the properties. An exception leaves the
     * table as it was at that point.
     */
    method Add(key: string, mappings: seq<string>) returns (r: Result<MapProperties, RuntimeError>)
      modifies this
      ensures r.Ok? <==> PropsFrom(mappings, |mappings|).Ok? && ProfileOf(PropsFrom(mappings, |mappings|).value).Ok?
      ensures r.Ok? ==> r.value == PropsFrom(mappings, |mappings|).value
      ensures r.Ok? ==> attrMappings == old(attrMappings)[StoredKey(key) := r.value]
      ensures r.Ok? ==> CountMappings() == old(CountMappings()) + (if StoredKey(key) in old(attrMappings) then 0 else 1)
      ensures r.Err? ==> attrMappings == old(attrMappings) && multiFacetedAttrs == old(multiFacetedAttrs)
      // the generator decides which list of extra attributes the key joins; a URI mapping leaves the thematic list as it was
      ensures r.Ok? ==> var p := r.value; var uri := ProfileOf(p).value == IsUri;
        && extraGeometricAttrs == old(extraGeometricAttrs) + (if p.generator.Some? && p.generator.value.geometric then [key] else [])
        && extraThematicAttrs ==
             (if uri then RemoveFirst(old(extraThematicAttrs) + (if p.generator.Some? && !p.generator.value.geometric then [key] else []), key)
              else old(extraThematicAttrs) + (if p.generator.Some? && !p.generator.value.geometric then [key] else []))
      ensures r.Ok? ==>
        multiFacetedAttrs == old(multiFacetedAttrs) + (if EndsWith(key, "%LANG") || '*' in key then [StoredKey(key)] else [])
    {
      var read := ReadSlots(key, mappings);
      if read.Err? {
        return Err(read.error);
      }
      var props := read.value;
      var profile := ProfileOf(props);
      if profile.Err? {
        return Err(profile.error);
      }
      if profile.value == IsUri {
        extraThematicAttrs := RemoveFirst(extraThematicAttrs, key);
      }
      var stored := StoredKey(key);
      if EndsWith(key, "%LANG") || '*' in key {
        multiFacetedAttrs := multiFacetedAttrs + [stored];
      }
      attrMappings := attrMappings[stored := props];
      return Ok(props);
    }

    /** The slot loop of `add`: the properties read slot by slot; slot 6 lists the attribute as an extra one. */
    method ReadSlots(key: string, mappings: seq<string>) returns (res: Result<MapProperties, RuntimeError>)
      modifies this`extraGeometricAttrs, this`extraThematicAttrs
      ensures res == PropsFrom(mappings, |mappings|)
      ensures res.Ok? ==> var p := res.value;
        && extraGeometricAttrs == old(extraGeometricAttrs) + (if p.generator.Some? && p.generator.value.geometric then [key] else [])
        && extraThematicAttrs == old(extraThematicAttrs) + (if p.generator.Some? && !p.generator.value.geometric then [key] else [])
    {
      var props := NoProperties;
      var geometric := extraGeometricAttrs;
      var thematic := extraThematicAttrs;
      var i := 0;
      while i < |mappings|
        invariant 0 <= i <= |mappings|
        invariant PropsFrom(mappings, i) == Ok(props)
        invariant props.generator.Some? <==> i > 6
        invariant geometric == old(extraGeometricAttrs) + (if props.generator.Some? && props.generator.value.geometric then [key] else [])
        invariant thematic == old(extraThematicAttrs) + (if props.generator.Some? && !props.generator.value.geometric then [key] else [])
      {
        var next := SetSlot(props, i, mappings[i]);
        if next.Err? {
          assert PropsFrom(mappings, i + 1) == next;
          PropsErrKept(mappings, i + 1, |mappings|);
          extraGeometricAttrs := geometric;
          extraThematicAttrs := thematic;
          return next;
        }
        props := next.value;
        if i == 6 {
          if props.generator.value.geometric {
            geometric := geometric + [key];
          } else {
            thematic := thematic + [key];
          }
        }
        i := i + 1;
      }
      extraGeometricAttrs := geometric;
      extraThematicAttrs := thematic;
      return Ok(props);
    }

    /** `remove`: true exactly when the key was present; it is absent afterwards and nothing else changes. */
    method Remove(key: string) returns (removed: bool)
      modifies this`attrMappings
      ensures removed <==> key in old(attrMappings)
      ensures attrMappings == old(attrMappings) - {key}
      ensures CountMappings() == old(CountMappings()) - (if removed then 1 else 0)
    {
      if key in attrMappings {
        attrMappings := attrMappings - {key};
        return true;
      }
      return false;
    }

    /** `find`: the stored properties, or `None` for an unknown attribute. */
    function Find(key: string): (r: Option<MapProperties>)
      reads this
      ensures r.Some? <==> key in attrMappings
      ensures r.Some? ==> r.value == attrMappings[key]
    {
      if key in attrMappings then Some(attrMappings[key]) else None
    }

    /** `countMappings`: the number of attributes with stored properties. */
    function CountMappings(): nat
      reads this
    {
      |attrMappings|
    }

    /** `findMultiFaceted`: the first multi-faceted item, in listing order, that covers the attribute name. */
    method FindMultiFaceted(key: string) returns (r: Result<Option<string>, RuntimeError>)
      ensures r == FirstCovering(multiFacetedAttrs, key, 0)
      ensures r.Ok? && r.value.Some? ==> exists k :: (0 <= k < |multiFacetedAttrs| && multiFacetedAttrs[k] == r.value.value
        && Covers(multiFacetedAttrs[k], key) == Ok(true)
        && forall j :: 0 <= j < k ==> Covers(multiFacetedAttrs[j], key) == Ok(false))
    {
      var i := 0;
      while i < |multiFacetedAttrs|
        invariant 0 <= i <= |multiFacetedAttrs|
        invariant FirstCovering(multiFacetedAttrs, key, 0) == FirstCovering(multiFacetedAttrs, key, i)
      {
        var item := multiFacetedAttrs[i];
        if StartsWith(key, item) {
          return Ok(Some(item));
        } else if '*' in item {
          var parts := JavaSplit(item, '*');
          if parts == [] {
            return Err(IndexOutOfBounds);
          }
          if StartsWith(key, parts[0]) && EndsWith(key, parts[|parts| - 1]) {
            return Ok(Some(item));
          }
        }
        i := i + 1;
      }
      return Ok(None);
    }

    /**
     * `findExtraGeometricAttr`: the extra geometric attributes, in order, whose
     * generator is `f`. An attribute no longer found in the table (removed, or
     * stored under a shortened "%LANG" key) raises a NullPointerException.
     */
    method FindExtraGeometricAttr(f: string) returns (r: Result<seq<string>, RuntimeError>)
      ensures r.Err? <==> exists k :: (0 <= k < |extraGeometricAttrs| &&
        (Find(extraGeometricAttrs[k]).None? || Find(extraGeometricAttrs[k]).value.generator.None?))
      ensures r.Ok? ==> forall x :: x in r.value <==> x in extraGeometricAttrs && attrMappings[x].generator.value.name == f
      ensures r.Ok? ==> |r.value| <= |extraGeometricAttrs|
    {
      var items: seq<string> := [];
      var i := 0;
      while i < |extraGeometricAttrs|
        invariant 0 <= i <= |extraGeometricAttrs|
        invariant |items| <= i
        invariant forall k :: 0 <= k < i ==> Find(extraGeometricAttrs[k]).Some? && Find(extraGeometricAttrs[k]).value.generator.Some?
        invariant forall x :: x in items <==> x in extraGeometricAttrs[..i] && attrMappings[x].generator.value.name == f
      {
        var item := extraGeometricAttrs[i];
        var props := Find(item);
        if props.None? || props.value.generator.None? {
          return Err(NullPointer);
        }
        if props.value.generator.value.name == f {
          items := items + [item];
        }
        assert extraGeometricAttrs[..i + 1] == extraGeometricAttrs[..i] + [item];
        i := i + 1;
      }
      assert extraGeometricAttrs[..i] == extraGeometricAttrs;
      return Ok(items);
    }
  }

  /**
   * `getResourceType`: the resource type when set, otherwise the predicate's
   * text after its first ':' (all of it when there is none); a mapping with
   * neither raises a NullPointerException.
   */
  function ResourceTypeOf(p: MapProperties): (r: Result<string, RuntimeError>)
    ensures p.resourceType.Some? ==> r == Ok(p.resourceType.value)
    ensures p.resourceType.None? && p.predicateName.None? ==> r == Err(NullPointer)
    ensures p.resourceType.None? && p.predicateName.Some? ==> r.Ok? && EndsWith(p.predicateName.value, r.value)
    ensures p.resourceType.None? && p.predicateName.Some? && ':' !in p.predicateName.value ==> r == Ok(p.predicateName.value)
    ensures p.resourceType.None? && p.predicateName.Some? && ':' in p.predicateName.value ==>
      exists i :: 0 <= i < |p.predicateName.value| && p.predicateName.value[i] == ':' && ':' !in p.predicateName.value[..i]
        && r == Ok(p.predicateName.value[i + 1..])
  {
    if p.resourceType.Some? then Ok(p.resourceType.value)
    else if p.predicateName.None? then Err(NullPointer)
    else
      var pr := p.predicateName.value;
      Ok(pr[IndexOf(pr, ':') + 1..])
  }
}
