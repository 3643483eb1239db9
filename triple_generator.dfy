/**
 * The bookkeeping of the RDF triple generator: the triples produced for the
 * current record, per-attribute statistics, namespace prefix expansion,
 * the arguments handed to built-in functions, the classification URI of a
 * record, and the plain (flat) mapping of thematic attributes to triples.
 * Triple objects are plain literals; URL encoding is a parameter.
 */
module TripleGenerators {
  import opened Wrappers
  import opened JavaStrings
  import opened Mappings
  import opened Classifications

  /** A triple whose object is a plain literal. */
  datatype Triple = Triple(subject: string, property: string, literal: string)

  /** A record: attribute names to values, a value possibly null. */
  type Row = map<string, Option<string>>

  /** The special attributes a mapping file can designate. */
  datatype AttrRole = UriRole | CategoryUriRole | DataSourceRole | AssignedCategoryRole

  /**
   * Whether a mapping designates an attribute for a role: the URI of the
   * feature (entity type "uri", any case), the category URI (entity type
   * containing "category"), the data source (predicate containing
   * "sourceRef"), or the assigned embedded category (entity type containing
   * "assignedCategory").
   */
  predicate HasRole(p: MapProperties, role: AttrRole)
  {
    match role
    case UriRole => p.entityType.Some? && EqualsIgnoreCase(p.entityType.value, "uri")
    case CategoryUriRole => p.entityType.Some? && Contains(p.entityType.value, "category")
    case DataSourceRole => p.predicateName.Some? && Contains(p.predicateName.value, "sourceRef")
    case AssignedCategoryRole => p.entityType.Some? && Contains(p.entityType.value, "assignedCategory")
  }

  /** The last of the first `n` keys, in iteration order, whose mapping has the role. */
  function LastWith(ms: map<string, MapProperties>, order: seq<string>, n: nat, role: AttrRole): (r: Option<string>)
    requires n <= |order| && forall k :: 0 <= k < |order| ==> order[k] in ms
  {
    if n == 0 then None
    else if HasRole(ms[order[n - 1]], role) then Some(order[n - 1])
    else LastWith(ms, order, n - 1, role)
  }

  /** `LastWith` finds a key with the role that no later key among the first `n` has, or there is none. */
  lemma {:induction false} LastWithMeans(ms: map<string, MapProperties>, order: seq<string>, n: nat, role: AttrRole)
    requires n <= |order| && forall k :: 0 <= k < |order| ==> order[k] in ms
    ensures var r := LastWith(ms, order, n, role);
      && (r.Some? ==> exists k :: (0 <= k < n && order[k] == r.value && HasRole(ms[order[k]], role) &&
                                   forall j :: k < j < n ==> !HasRole(ms[order[j]], role)))
      && (r.None? <==> forall k :: 0 <= k < n ==> !HasRole(ms[order[k]], role))
  {
    if n > 0 && !HasRole(ms[order[n - 1]], role) {
      LastWithMeans(ms, order, n - 1, role);
    }
  }

  /** The attributes a mapping file designates; `flat` when the URI definition is its only mapping. */
  datatype AttributeNames = AttributeNames(
    uri: Option<string>, categoryUri: Option<string>, dataSource: Option<string>, assignedCategory: Option<string>, flat: bool)

  /** The designation loop of the constructor: every mapping in iteration order, the last one for a role winning. */
  method PickAttributeNames(ms: map<string, MapProperties>, order: seq<string>) returns (names: AttributeNames)
    requires forall k :: 0 <= k < |order| ==> order[k] in ms
    ensures names.uri == LastWith(ms, order, |order|, UriRole)
    ensures names.categoryUri == LastWith(ms, order, |order|, CategoryUriRole)
    ensures names.dataSource == LastWith(ms, order, |order|, DataSourceRole)
    ensures names.assignedCategory == LastWith(ms, order, |order|, AssignedCategoryRole)
    ensures names.flat <==> names.uri.Some? && |ms| == 1
  {
    names := AttributeNames(None, None, None, None, false);
    var i := 0;
    while i < |order|
      invariant 0 <= i <= |order|
      invariant names.uri == LastWith(ms, order, i, UriRole)
      invariant names.categoryUri == LastWith(ms, order, i, CategoryUriRole)
      invariant names.dataSource == LastWith(ms, order, i, DataSourceRole)
      invariant names.assignedCategory == LastWith(ms, order, i, AssignedCategoryRole)
      invariant names.flat <==> names.uri.Some? && |ms| == 1
    {
      var p := ms[order[i]];
      if p.entityType.Some? && EqualsIgnoreCase(p.entityType.value, "uri") {
        names := names.(uri := Some(order[i]));
        if |ms| == 1 {
          names := names.(flat := true);
        }
      }
      if p.entityType.Some? && Contains(p.entityType.value, "category") {
        names := names.(categoryUri := Some(order[i]));
      }
      if p.predicateName.Some? && Contains(p.predicateName.value, "sourceRef") {
        names := names.(dataSource := Some(order[i]));
      }
      if p.entityType.Some? && Contains(p.entityType.value, "assignedCategory") {
        names := names.(assignedCategory := Some(order[i]));
      }
      i := i + 1;
    }
  }

  function OrElse(o: Option<string>, d: string): string
  {
    if o.Some? then o.value else d
  }

  /** The count recorded for a key; an unrecorded key counts zero. */
  function CountOf(stats: map<string, nat>, key: string): nat
  {
    if key in stats then stats[key] else 0
  }

  /** `updateStatistics`: the key's count goes up by one, from zero when absent. */
  function Bump(stats: map<string, nat>, key: string): (r: map<string, nat>)
    ensures key in r && CountOf(r, key) == CountOf(stats, key) + 1
    ensures r.Keys == stats.Keys + {key}
    ensures forall k :: k != key ==> CountOf(r, k) == CountOf(stats, k)
  {
    if key !in stats then stats[key := 1] else stats[key := stats[key] + 1]
  }

  /** The statistics after counting `keys` in order. */
  function Tally(stats: map<string, nat>, keys: seq<string>): map<string, nat>
  {
    if keys == [] then stats else Bump(Tally(stats, keys[..|keys| - 1]), keys[|keys| - 1])
  }

  /** Counting one more key is one more update. */
  lemma TallySnoc(stats: map<string, nat>, keys: seq<string>, key: string)
    ensures Tally(stats, keys + [key]) == Bump(Tally(stats, keys), key)
  {
    assert (keys + [key])[..|keys|] == keys;
  }

  /** After a run of updates every key has been counted once per occurrence. */
  lemma {:induction false} TallyCounts(stats: map<string, nat>, keys: seq<string>, key: string)
    ensures CountOf(Tally(stats, keys), key) == CountOf(stats, key) + multiset(keys)[key]
  {
    if keys != [] {
      TallyCounts(stats, keys[..|keys| - 1], key);
      assert keys == keys[..|keys| - 1] + [keys[|keys| - 1]];
    }
  }

  /**
   * `expandNamespace`: the text up to the first ':' is a prefix; a registered
   * prefix followed by ':' is replaced, wherever it occurs, by its namespace.
   * A text without ':' raises an index error.
   */
  function ExpandNamespace(prefixes: map<string, string>, s: string): (r: Result<string, RuntimeError>)
    ensures r.Err? <==> ':' !in s
    ensures r.Ok? && s[..IndexOf(s, ':')] !in prefixes ==> r.value == s
    ensures r.Ok? && s[..IndexOf(s, ':')] in prefixes ==> var i := IndexOf(s, ':');
      r.value == prefixes[s[..i]] + ReplaceAll(s[i + 1..], s[..i] + ":", prefixes[s[..i]])
  {
    var i := IndexOf(s, ':');
    if i < 0 then Err(IndexOutOfBounds)
    else
      var prefix := s[..i];
      if prefix in prefixes then
        assert StartsWith(s, prefix + ":") by { assert s[..i + 1] == prefix + ":"; }
        assert s[|prefix + ":"|..] == s[i + 1..];
        Ok(ReplaceAll(s, prefix + ":", prefixes[prefix]))
      else Ok(s)
  }

  /** A prefixed name whose prefix occurs only once expands to the namespace followed by the local part. */
  lemma ExpandOnce(prefixes: map<string, string>, s: string, i: nat)
    requires i < |s| && s[i] == ':' && ':' !in s[..i] && s[..i] in prefixes
    requires !Contains(s[i + 1..], s[..i] + ":")
    ensures ExpandNamespace(prefixes, s) == Ok(prefixes[s[..i]] + s[i + 1..])
  {
    assert IndexOf(s, ':') == i;
    ReplaceAllAbsent(s[i + 1..], s[..i] + ":", prefixes[s[..i]]);
  }

  /** The value handed to a built-in function for one argument: an attribute's value (null as ""), or the literal without quotes. */
  function ArgValue(row: Row, arg: string): (v: string)
    ensures arg !in row ==> '"' !in v
  {
    if arg in row then OrElse(row[arg], "") else RemoveChar(arg, '"')
  }

  /** The attribute values of a record that a plain mapping turns into triples. */
  predicate Emits(row: Row, key: string, geometryAttr: string)
  {
    key != geometryAttr && key in row && row[key].Some? && row[key].value != [] && !Contains(row[key].value, "Null")
  }

  /** What plain mapping has produced after `n` keys: the triples, the attributes counted, and whether an exception stopped it. */
  datatype PlainProgress = PlainProgress(triples: seq<Triple>, counted: seq<string>, stopped: bool)

  class TripleGenerator {
    var results: seq<Triple>
    var attrStatistics: map<string, nat>
    const prefixes: map<string, string>
    const mappings: Option<map<string, MapProperties>>
    const attrURI: string
    const attrCategoryURI: string
    const attrDataSource: string
    const attrAssignedCategory: Option<string>
    const flatMapping: bool
    const attrCategories: Option<seq<string>>
    const featureSource: string
    const attrGeometry: string
    const ontologyNS: string
    const featureClassNS: string

    /**
     * Designates the special attributes from the mapping file (when there is
     * one), in the mappings' iteration `order`, with defaults "URI",
     * "CATEGORY_URI" and "DATA_SOURCE".
     */
    constructor(ms: Option<map<string, MapProperties>>, order: seq<string>, prefixes: map<string, string>,
                attrCategories: Option<seq<string>>, featureSource: string, attrGeometry: string, ontologyNS: string,
                featureClassNS: string)
      requires ms.Some? ==> forall k :: 0 <= k < |order| ==> order[k] in ms.value
      ensures results == [] && attrStatistics == map[]
      ensures ms.None? ==>
        && attrURI == "URI" && attrCategoryURI == "CATEGORY_URI" && attrDataSource == "DATA_SOURCE"
        && attrAssignedCategory.None? && !flatMapping
      ensures ms.Some? ==>
        && attrURI == OrElse(LastWith(ms.value, order, |order|, UriRole), "URI")
        && attrCategoryURI == OrElse(LastWith(ms.value, order, |order|, CategoryUriRole), "CATEGORY_URI")
        && attrDataSource == OrElse(LastWith(ms.value, order, |order|, DataSourceRole), "DATA_SOURCE")
        && attrAssignedCategory == LastWith(ms.value, order, |order|, AssignedCategoryRole)
        && (flatMapping <==> LastWith(ms.value, order, |order|, UriRole).Some? && |ms.value| == 1)
      ensures this.mappings == ms && this.prefixes == prefixes && this.attrCategories == attrCategories
      ensures this.featureSource == featureSource && this.attrGeometry == attrGeometry
      ensures this.ontologyNS == ontologyNS && this.featureClassNS == featureClassNS
    {
      var names := AttributeNames(None, None, None, None, false);
      if ms.Some? {
        names := PickAttributeNames(ms.value, order);
      }
      results := [];
      attrStatistics := map[];
      this.prefixes := prefixes;
      mappings := ms;
      attrURI := OrElse(names.uri, "URI");
      attrCategoryURI := OrElse(names.categoryUri, "CATEGORY_URI");
      attrDataSource := OrElse(names.dataSource, "DATA_SOURCE");
      attrAssignedCategory := names.assignedCategory;
      flatMapping := names.flat;
      this.attrCategories := attrCategories;
      this.featureSource := featureSource;
      this.attrGeometry := attrGeometry;
      this.ontologyNS := ontologyNS;
      this.featureClassNS := featureClassNS;
    }

    function GetTriples(): seq<Triple>
      reads this
    {
      results
    }

    /** `clearTriples`: no triple is left. */
    method ClearTriples()
      modifies this`results
      ensures results == []
    {
      results := [];
    }

    /** `updateStatistics`. */
    method UpdateStatistics(key: string)
      modifies this`attrStatistics
      ensures attrStatistics == Bump(old(attrStatistics), key)
    {
      if key !in attrStatistics {
        attrStatistics := attrStatistics[key := 1];
      } else {
        attrStatistics := attrStatistics[key := attrStatistics[key] + 1];
      }
    }

    /**
     * `getArgValues`: records the data source in the row, then gives one
     * value per argument, in order.
     */
    method GetArgValues(args: seq<string>, row: Row) returns (argv: seq<string>, row': Row)
      ensures row' == row[attrDataSource := Some(featureSource)]
      ensures |argv| == |args| && forall k :: 0 <= k < |args| ==> argv[k] == ArgValue(row', args[k])
    {
      row' := row[attrDataSource := Some(featureSource)];
      argv := [];
      for i := 0 to |args|
        invariant |argv| == i && forall k :: 0 <= k < i ==> argv[k] == ArgValue(row', args[k])
      {
        var arg := args[i];
        if arg in row' {
          var val := row'[arg];
          if val.None? {
            argv := argv + [""];
          } else {
            argv := argv + [val.value];
          }
        } else {
          argv := argv + [RemoveChar(arg, '"')];
        }
      }
    }

    /** The first category attribute, from position `i`, whose value is non-blank and names a category with a UUID. */
    function FirstClassified(row: Row, cats: seq<string>, classific: Classification, i: nat): (r: Option<string>)
      reads classific, classific.categories.Values
      requires i <= |cats|
      ensures r.Some? ==> classific.GetUUID(r.value).Some?
      decreases |cats| - i
    {
      if i == |cats| then None
      else
        var v := if cats[i] in row then row[cats[i]] else None;
        if Qualifies(v, classific) then v
        else FirstClassified(row, cats, classific, i + 1)
    }

    /** A category value that counts: present, not blank, and naming a category that has a UUID. */
    predicate Qualifies(v: Option<string>, classific: Classification)
      reads classific, classific.categories.Values
    {
      v.Some? && Trim(v.value) != [] && classific.GetUUID(v.value).Some?
    }

    /**
     * The value found is a non-blank value of one of the category attributes
     * from `i` on, and no attribute before that one qualifies; when none is
     * found, none of them qualifies.
     */
    lemma {:induction false} FirstClassifiedMeans(row: Row, cats: seq<string>, classific: Classification, i: nat)
      requires i <= |cats|
      ensures var r := FirstClassified(row, cats, classific, i);
        && (r.Some? ==> exists k :: (i <= k < |cats| && cats[k] in row && row[cats[k]] == Some(r.value)
              && forall j :: i <= j < k ==> !Qualifies(if cats[j] in row then row[cats[j]] else None, classific)))
        && (r.Some? ==> Trim(r.value) != [])
        && (r.None? ==> forall k :: i <= k < |cats| && cats[k] in row && row[cats[k]].Some? ==>
              Trim(row[cats[k]].value) == [] || classific.GetUUID(row[cats[k]].value).None?)
      decreases |cats| - i
    {
      if i < |cats| {
        FirstClassifiedMeans(row, cats, classific, i + 1);
      }
    }

    /**
     * `assignClassificationURI`: the first category attribute (finest first)
     * with a known category sets the category URI of the row, and the
     * assigned embedded category when its mapping asks for it; false when no
     * scheme is given or no attribute qualifies.
     */
    method AssignClassificationURI(row: Row, classific: Classification?) returns (r: Result<(bool, Row), RuntimeError>)
      ensures classific == null ==> r == Ok((false, row))
      ensures classific != null && attrCategories.None? ==> r == Err(NullPointer)
      ensures (classific != null && attrCategories.Some? &&
               FirstClassified(row, attrCategories.value, classific, 0).None?) ==> r == Ok((false, row))
      ensures classific != null && attrCategories.Some? && FirstClassified(row, attrCategories.value, classific, 0).Some? ==>
        r == CategoryAssigned(row, FirstClassified(row, attrCategories.value, classific, 0).value, classific)
    {
      if classific == null {
        return Ok((false, row));
      }
      if attrCategories.None? {
        return Err(NullPointer);
      }
      var cats := attrCategories.value;
      var i := 0;
      while i < |cats|
        invariant 0 <= i <= |cats|
        invariant FirstClassified(row, cats, classific, 0) == FirstClassified(row, cats, classific, i)
      {
        var valCategory := if cats[i] in row then row[cats[i]] else None;
        if Qualifies(valCategory, classific) {
          var outcome := AssignCategory(row, valCategory.value, classific);
          return outcome;
        }
        i := i + 1;
      }
      return Ok((false, row));
    }

    /**
     * The row once the category `v` is found: its category URI set, and the
     * assigned embedded category when that attribute's mapping asks for it;
     * an attribute without a mapping or generator raises a NullPointerException.
     */
    function CategoryAssigned(row: Row, v: string, classific: Classification): Result<(bool, Row), RuntimeError>
      reads classific, classific.categories.Values
      requires classific.GetUUID(v).Some?
    {
      var row1 := row[attrCategoryURI := Some(featureClassNS + classific.GetUUID(v).value)];
      match attrAssignedCategory
      case None => Ok((true, row1))
      case Some(a) =>
        if mappings.None? || a !in mappings.value || mappings.value[a].generator.None? then Err(NullPointer)
        else if mappings.value[a].generator.value.name == "getEmbeddedCategory" then
          Ok((true, row1[a := classific.GetEmbeddedCategory(v)]))
        else Ok((true, row1))
    }

    /** The branch of `assignClassificationURI` for a found category. */
    method AssignCategory(row: Row, v: string, classific: Classification) returns (r: Result<(bool, Row), RuntimeError>)
      requires classific.GetUUID(v).Some?
      ensures r == CategoryAssigned(row, v, classific)
      ensures r.Ok? ==> r.value.0 && attrCategoryURI in r.value.1
      ensures r.Ok? && attrAssignedCategory != Some(attrCategoryURI) ==>
        r.value.1[attrCategoryURI] == Some(featureClassNS + classific.GetUUID(v).value)
    {
      var row1 := row[attrCategoryURI := Some(featureClassNS + classific.GetUUID(v).value)];
      if attrAssignedCategory.Some? {
        var a := attrAssignedCategory.value;
        if mappings.None? || a !in mappings.value || mappings.value[a].generator.None? {
          return Err(NullPointer);
        }
        if mappings.value[a].generator.value.name == "getEmbeddedCategory" {
          row1 := row1[a := classific.GetEmbeddedCategory(v)];
        }
      }
      return Ok((true, row1));
    }

    /** One key of plain mapping: skipped once stopped or when it does not emit; stopped by an expansion error. */
    function PlainStep(uri: string, row: Row, encode: string -> string, clean: string -> string, prev: PlainProgress, key: string): PlainProgress
    {
      if prev.stopped || !Emits(row, key, attrGeometry) then prev
      else
        match ExpandNamespace(prefixes, clean(ontologyNS + encode(key)))
        case Err(_) => prev.(stopped := true)
        case Ok(p) => PlainProgress(prev.triples + [Triple(uri, p, row[key].value)], prev.counted + [key], false)
    }

    /** Plain mapping over the first `n` keys of `order`; the first exception stops it. */
    function PlainFrom(uri: string, row: Row, order: seq<string>, encode: string -> string, clean: string -> string, n: nat): PlainProgress
      requires n <= |order|
    {
      if n == 0 then PlainProgress([], [], false)
      else PlainStep(uri, row, encode, clean, PlainFrom(uri, row, order, encode, clean, n - 1), order[n - 1])
    }

    /** Every triple carries the subject and the value of an emitting attribute, the one counted at its position. */
    lemma {:induction false} PlainTriples(uri: string, row: Row, order: seq<string>, encode: string -> string, clean: string -> string, n: nat)
      requires n <= |order|
      ensures var p := PlainFrom(uri, row, order, encode, clean, n);
        && |p.triples| == |p.counted|
        && forall k :: 0 <= k < |p.triples| ==>
          && Emits(row, p.counted[k], attrGeometry)
          && p.triples[k] == Triple(uri, p.triples[k].property, row[p.counted[k]].value)
    {
      if n > 0 {
        PlainTriples(uri, row, order, encode, clean, n - 1);
      }
    }

    /**
     * `transformPlainThematic2RDF`: records the data source in the row, then
     * one triple per attribute (in the row's iteration `order`) other than the
     * geometry whose value is non-null, non-empty and free of "Null", its
     * property being the ontology namespace plus the `encode`d name, with
     * `clean` (`replaceWhiteSpace`) applied to the whole; each
     * such attribute is counted. An exception ends the loop.
     */
    method TransformPlainThematic2RDF(uri: string, row: Row, order: seq<string>, encode: string -> string, clean: string -> string) returns (row': Row)
      requires multiset(order) == multiset(row[attrDataSource := Some(featureSource)].Keys)
      modifies this`results, this`attrStatistics
      ensures row' == row[attrDataSource := Some(featureSource)]
      ensures var p := PlainFrom(uri, row', order, encode, clean, |order|);
        results == old(results) + p.triples && attrStatistics == Tally(old(attrStatistics), p.counted)
    {
      row' := row[attrDataSource := Some(featureSource)];
      var i := 0;
      while i < |order|
        invariant 0 <= i <= |order|
        invariant !PlainFrom(uri, row', order, encode, clean, i).stopped
        invariant results == old(results) + PlainFrom(uri, row', order, encode, clean, i).triples
        invariant attrStatistics == Tally(old(attrStatistics), PlainFrom(uri, row', order, encode, clean, i).counted)
      {
        ghost var prev := PlainFrom(uri, row', order, encode, clean, i);
        var key := order[i];
        var stop := PlainKey(uri, row', encode, clean, key, prev, old(results), old(attrStatistics));
        assert PlainFrom(uri, row', order, encode, clean, i + 1) == PlainStep(uri, row', encode, clean, prev, key);
        if stop {
          PlainStopsForGood(uri, row', order, encode, clean, i + 1);
          return;
        }
        i := i + 1;
      }
    }

    /** The body of the plain mapping loop for one key; true when an exception ends the loop. */
    method PlainKey(uri: string, row: Row, encode: string -> string, clean: string -> string, key: string,
                    ghost prev: PlainProgress, ghost r0: seq<Triple>, ghost s0: map<string, nat>) returns (stop: bool)
      requires !prev.stopped
      requires results == r0 + prev.triples && attrStatistics == Tally(s0, prev.counted)
      modifies this`results, this`attrStatistics
      ensures var next := PlainStep(uri, row, encode, clean, prev, key);
        && stop == next.stopped
        && results == r0 + next.triples
        && attrStatistics == Tally(s0, next.counted)
    {
      stop := false;
      if key != attrGeometry {
        var val := if key in row then row[key] else None;
        if val.Some? && val.value != [] && !Contains(val.value, "Null") {
          var property := ExpandNamespace(prefixes, clean(ontologyNS + encode(key)));
          if property.Err? {
            return true;
          }
          results := results + [Triple(uri, property.value, val.value)];
          UpdateStatistics(key);
          assert prev.counted + [key] == PlainStep(uri, row, encode, clean, prev, key).counted;
        }
      }
    }

    /** Once plain mapping has stopped, later keys add nothing. */
    lemma {:induction false} PlainStopsForGood(uri: string, row: Row, order: seq<string>, encode: string -> string, clean: string -> string, n: nat)
      requires n <= |order| && PlainFrom(uri, row, order, encode, clean, n).stopped
      ensures PlainFrom(uri, row, order, encode, clean, |order|) == PlainFrom(uri, row, order, encode, clean, n)
      decreases |order| - n
    {
      if n < |order| {
        PlainStopsForGood(uri, row, order, encode, clean, n + 1);
      }
    }

    /** Without exceptions, the triples are exactly one per emitting attribute, in iteration order. */
    lemma {:induction false} PlainCoversEmitting(uri: string, row: Row, order: seq<string>, encode: string -> string, clean: string -> string, n: nat)
      requires n <= |order| && !PlainFrom(uri, row, order, encode, clean, n).stopped
      ensures PlainFrom(uri, row, order, encode, clean, n).counted == EmittingKeys(row, order[..n], attrGeometry)
    {
      if n > 0 {
        PlainCoversEmitting(uri, row, order, encode, clean, n - 1);
        assert order[..n][..n - 1] == order[..n - 1];
      }
    }
  }

  /** The keys, in order, whose values a plain mapping turns into triples. */
  function EmittingKeys(row: Row, keys: seq<string>, geometryAttr: string): seq<string>
  {
    if keys == [] then []
    else EmittingKeys(row, keys[..|keys| - 1], geometryAttr) + (if Emits(row, keys[|keys| - 1], geometryAttr) then [keys[|keys| - 1]] else [])
  }
}
