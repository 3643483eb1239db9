/**
 * The CSV converter of OSM records: the column mapping read from a
 * properties file, the screening of each record (geometry, spatial extent,
 * thematic filter, category) with its counters, the merge of the record's
 * tags into the mapped columns, and the per-column statistics. The
 * coordinates, the WKT text, the JSON rendering of the remaining tags and
 * the file output are not modelled; a written row keeps the values they are
 * made from.
 */
module OsmCsvConverters {
  import opened Wrappers
  import opened JavaStrings
  import opened OsmModel
  import opened ExpressionParser
  import opened ExpressionEval
  import opened Assistants
  import opened TripleGenerators

  /** Line breaks of every kind ("\r\n", "\r", "\n") become one space each. */
  function LineBreaksToSpaces(s: string): (r: string)
    ensures forall k :: 0 <= k < |r| ==> r[k] != '\r' && r[k] != '\n'
    ensures (forall k :: 0 <= k < |s| ==> s[k] != '\r' && s[k] != '\n') ==> r == s
  {
    if s == [] then []
    else if |s| >= 2 && s[0] == '\r' && s[1] == '\n' then " " + LineBreaksToSpaces(s[2..])
    else if s[0] == '\r' || s[0] == '\n' then " " + LineBreaksToSpaces(s[1..])
    else [s[0]] + LineBreaksToSpaces(s[1..])
  }

  /** `formatString`: line breaks become spaces and '|' becomes ';', then the text is trimmed. */
  function FormatString(s: string): (r: string)
    ensures forall k :: 0 <= k < |r| ==> r[k] != '\r' && r[k] != '\n' && r[k] != '|'
  {
    var t := ReplaceChar(LineBreaksToSpaces(s), '|', ';');
    assert forall k :: 0 <= k < |t| ==> t[k] != '\r' && t[k] != '\n' && t[k] != '|';
    TrimInfix(t);
    Trim(t)
  }

  /** A formatted text is left as it is by formatting again. */
  lemma FormatStringIdempotent(s: string)
    ensures FormatString(FormatString(s)) == FormatString(s)
  {
    var r := FormatString(s);
    assert LineBreaksToSpaces(r) == r;
    assert ReplaceChar(r, '|', ';') == r;
    assert r == Trim(ReplaceChar(LineBreaksToSpaces(s), '|', ';'));
    assert Trim(r) == r;
  }

  /** The tags a mapping value names: its comma-separated parts, quotes removed and every part trimmed. */
  function MappingTags(value: string): seq<string>
  {
    TrimAll(JavaSplit(Trim(RemoveChar(value, '"')), ','))
  }

  /** Every tag, in order, is mapped to the column. */
  function PutTags(tagMap: map<string, string>, tags: seq<string>, column: string): map<string, string>
  {
    if tags == [] then tagMap else PutTags(tagMap, tags[..|tags| - 1], column)[tags[|tags| - 1] := column]
  }

  /** Mapping one more tag of a list: the table of the longer prefix. */
  lemma PutTagsSnoc(tagMap: map<string, string>, tags: seq<string>, j: nat, column: string)
    requires j < |tags|
    ensures PutTags(tagMap, tags[..j + 1], column) == PutTags(tagMap, tags[..j], column)[tags[j] := column]
  {
    assert tags[..j + 1][..j] == tags[..j];
  }

  /** After the tags are put, each of them maps to the column. */
  lemma {:induction false} PutTagsMaps(tagMap: map<string, string>, tags: seq<string>, column: string, k: nat)
    requires k < |tags|
    ensures tags[k] in PutTags(tagMap, tags, column) && PutTags(tagMap, tags, column)[tags[k]] == column
  {
    if k < |tags| - 1 {
      PutTagsMaps(tagMap, tags[..|tags| - 1], column, k);
      assert tags[..|tags| - 1][k] == tags[k];
    }
  }

  /** Tags not put keep their entries. */
  lemma {:induction false} PutTagsKeeps(tagMap: map<string, string>, tags: seq<string>, column: string, t: string)
    requires t !in tags
    ensures t in PutTags(tagMap, tags, column) <==> t in tagMap
    ensures t in tagMap ==> PutTags(tagMap, tags, column)[t] == tagMap[t]
  {
    if tags != [] {
      PutTagsKeeps(tagMap, tags[..|tags| - 1], column, t);
    }
  }

  /** Every tag of the table maps to one of the `listed` columns. */
  ghost predicate ColumnsListed(m: map<string, string>, listed: seq<string>)
  {
    forall t :: t in m ==> m[t] in listed
  }

  /** Mapping more tags to a column keeps every mapped column among the listed ones and that column. */
  lemma {:induction false} PutTagsListed(m: map<string, string>, tags: seq<string>, column: string, listed: seq<string>)
    requires ColumnsListed(m, listed)
    ensures ColumnsListed(PutTags(m, tags, column), listed + [column])
  {
    if tags != [] {
      PutTagsListed(m, tags[..|tags| - 1], column, listed);
    }
  }

  /** The properties read, in iteration order, each with the tags its value names. */
  function ParsedEntries(entries: seq<(string, string)>): (r: seq<(string, seq<string>)>)
    ensures |r| == |entries|
  {
    if entries == [] then []
    else ParsedEntries(entries[..|entries| - 1]) + [(entries[|entries| - 1].0, MappingTags(entries[|entries| - 1].1))]
  }

  /** The column-name table after the parsed properties: each names its tags, a later property overriding an earlier one. */
  function TagMapAfter(tagMap: map<string, string>, parsed: seq<(string, seq<string>)>): map<string, string>
  {
    if parsed == [] then tagMap
    else
      var e := parsed[|parsed| - 1];
      PutTags(TagMapAfter(tagMap, parsed[..|parsed| - 1]), e.1, e.0)
  }

  /** The property names, in order: the mapped columns. */
  function EntryKeys(parsed: seq<(string, seq<string>)>): (r: seq<string>)
    ensures |r| == |parsed|
  {
    if parsed == [] then [] else EntryKeys(parsed[..|parsed| - 1]) + [parsed[|parsed| - 1].0]
  }

  /** Reading one more property: its name is the next column and its tags are put after the earlier ones. */
  lemma ReadOneMore(tagMap: map<string, string>, entries: seq<(string, string)>, i: nat)
    requires i < |entries|
    ensures EntryKeys(ParsedEntries(entries[..i + 1])) == EntryKeys(ParsedEntries(entries[..i])) + [entries[i].0]
    ensures TagMapAfter(tagMap, ParsedEntries(entries[..i + 1]))
         == PutTags(TagMapAfter(tagMap, ParsedEntries(entries[..i])), MappingTags(entries[i].1), entries[i].0)
  {
    assert entries[..i + 1][..i] == entries[..i];
    var p := ParsedEntries(entries[..i + 1]);
    assert p[..i] == ParsedEntries(entries[..i]);
  }

  /** Each tag named by the last property read maps to its name. */
  lemma LastEntryWins(tagMap: map<string, string>, parsed: seq<(string, seq<string>)>, k: nat)
    requires parsed != [] && k < |parsed[|parsed| - 1].1|
    ensures var t := TagMapAfter(tagMap, parsed);
      var tag := parsed[|parsed| - 1].1[k];
      tag in t && t[tag] == parsed[|parsed| - 1].0
  {
    var e := parsed[|parsed| - 1];
    PutTagsMaps(TagMapAfter(tagMap, parsed[..|parsed| - 1]), e.1, e.0, k);
  }

  /** A tag the last property does not name keeps the column the earlier properties gave it. */
  lemma LaterEntriesKeep(tagMap: map<string, string>, parsed: seq<(string, seq<string>)>, tag: string)
    requires parsed != [] && tag !in parsed[|parsed| - 1].1
    ensures var before := TagMapAfter(tagMap, parsed[..|parsed| - 1]);
      var t := TagMapAfter(tagMap, parsed);
      (tag in t <==> tag in before) && (tag in t ==> t[tag] == before[tag])
  {
    var e := parsed[|parsed| - 1];
    PutTagsKeeps(TagMapAfter(tagMap, parsed[..|parsed| - 1]), e.1, e.0, tag);
  }

  /** Every tag the table maps goes to a column that is listed, when that held before reading. */
  lemma {:induction false} TagMapColumnsListed(tagMap: map<string, string>, cols: seq<string>, parsed: seq<(string, seq<string>)>)
    requires ColumnsListed(tagMap, cols)
    ensures ColumnsListed(TagMapAfter(tagMap, parsed), cols + EntryKeys(parsed))
  {
    if parsed != [] {
      var prefix := parsed[..|parsed| - 1];
      var e := parsed[|parsed| - 1];
      TagMapColumnsListed(tagMap, cols, prefix);
      PutTagsListed(TagMapAfter(tagMap, prefix), e.1, e.0, cols + EntryKeys(prefix));
      assert EntryKeys(parsed) == EntryKeys(prefix) + [e.0];
      assert cols + EntryKeys(parsed) == cols + EntryKeys(prefix) + [e.0];
    }
  }

  /** `getCategory` with '_' turned into the registry delimiter '|', or the delimiter appended when there is no '_'. */
  function CsvCategory(category: string): (r: string)
    ensures '|' in r && '_' !in r
    ensures '_' !in category ==> r == category + "|"
  {
    if '_' in category then
      var r := ReplaceChar(category, '_', '|');
      assert exists k :: 0 <= k < |category| && category[k] == '_';
      r
    else category + "|"
  }

  /** The name is counted under "NAME" when the record has one. */
  function NameKey(name: Option<string>): (r: seq<string>)
    ensures r == [] <==> name.None?
  {
    if name.Some? then ["NAME"] else []
  }

  /** What screening makes of a record: rejected and counted, dropped by an exception, or accepted with its category. */
  datatype Screening = Rejected | Failed | Accepted(category: string)

  /**
   * The checks before a record is written, in order: a null or empty
   * geometry, a geometry outside the spatial filter, an exclusion by the
   * thematic filter (an exception there ends the record uncounted), and a
   * missing category.
   */
  function Screen(geometry: Option<Geometry>, inExtent: bool, excluded: Result<bool, EvalError>, category: Option<string>): (s: Screening)
    ensures s.Accepted? <==> geometry.Some? && !IsEmptyGeometry(geometry.value) && inExtent && excluded == Ok(false) && category.Some?
    ensures s.Failed? <==> geometry.Some? && !IsEmptyGeometry(geometry.value) && inExtent && excluded.Err?
    ensures s.Accepted? ==> s.category == category.value
  {
    if geometry.None? || IsEmptyGeometry(geometry.value) then Rejected
    else if !inExtent then Rejected
    else if excluded.Err? then Failed
    else if excluded.value then Rejected
    else if category.None? then Rejected
    else Accepted(category.value)
  }

  /** The record the thematic filter sees: the tags plus the OSM id, name and type (a null one absent). */
  function FilterRecord(tags: map<string, string>, id: Option<string>, name: Option<string>, osmType: Option<string>): Record
  {
    var a := if id.Some? then tags["osm_id" := id.value] else tags - {"osm_id"};
    var b := if name.Some? then a["name" := name.value] else a - {"name"};
    if osmType.Some? then b["type" := osmType.value] else b - {"type"}
  }

  /** Every column starts out empty. */
  function EmptyColumns(cols: seq<string>): (rec: map<string, string>)
    ensures forall c :: c in rec <==> c in cols
    ensures forall c :: c in rec ==> rec[c] == ""
  {
    map c | c in cols :: ""
  }

  /**
   * The merge of tag values into columns over `keys`: a column still empty
   * takes the value, otherwise a non-empty value is appended after ';'.
   */
  function MergeTags(rec: map<string, string>, tags: map<string, string>, tagMap: map<string, string>, keys: seq<string>): (r: map<string, string>)
    requires forall k :: k in keys ==> k in tagMap && tagMap[k] in rec
    ensures r.Keys == rec.Keys
  {
    if keys == [] then rec
    else
      var prev := MergeTags(rec, tags, tagMap, keys[..|keys| - 1]);
      var key := keys[|keys| - 1];
      var column := tagMap[key];
      var v := if key in tags then tags[key] else "";
      if prev[column] == "" then prev[column := v]
      else if v != "" then prev[column := prev[column] + ";" + v]
      else prev
  }

  /** The non-empty tag values, in order of `keys`, of the tags mapped to `column`. */
  function ValuesFor(tags: map<string, string>, tagMap: map<string, string>, keys: seq<string>, column: string): (vs: seq<string>)
    requires forall k :: k in keys ==> k in tagMap
    ensures forall k :: 0 <= k < |vs| ==> vs[k] != ""
  {
    if keys == [] then []
    else
      var key := keys[|keys| - 1];
      ValuesFor(tags, tagMap, keys[..|keys| - 1], column) +
        (if tagMap[key] == column && key in tags && tags[key] != "" then [tags[key]] else [])
  }

  /** Appending one element after two pieces. */
  lemma AppendAssoc(a: seq<string>, b: seq<string>, x: string)
    ensures a + (b + [x]) == (a + b) + [x]
  {
  }

  /** The members of a longer prefix: those of the shorter one and the next element. */
  lemma PrefixMembers(s: seq<string>, i: nat)
    requires i < |s|
    ensures forall t :: t in s[..i + 1] <==> t in s[..i] || t == s[i]
  {
    assert s[..i + 1] == s[..i] + [s[i]];
  }

  /** Merging the keys up to `i`: the keys before it, then the tag at `i`. */
  lemma MergeTagsStep(rec: map<string, string>, tags: map<string, string>, tagMap: map<string, string>, keys: seq<string>, i: nat)
    requires i < |keys| && forall k :: k in keys ==> k in tagMap && tagMap[k] in rec
    ensures var prev := MergeTags(rec, tags, tagMap, keys[..i]);
      var column := tagMap[keys[i]];
      var v := if keys[i] in tags then tags[keys[i]] else "";
      MergeTags(rec, tags, tagMap, keys[..i + 1])
        == if prev[column] == "" then prev[column := v] else if v != "" then prev[column := prev[column] + ";" + v] else prev
  {
    assert keys[..i + 1][..i] == keys[..i];
  }

  /** A column that starts empty ends up holding its non-empty tag values joined by ';'. */
  lemma {:induction false} MergeJoinsValues(rec: map<string, string>, tags: map<string, string>, tagMap: map<string, string>,
                                            keys: seq<string>, column: string)
    requires forall k :: k in keys ==> k in tagMap && tagMap[k] in rec
    requires column in rec && rec[column] == ""
    ensures MergeTags(rec, tags, tagMap, keys)[column] == Join(ValuesFor(tags, tagMap, keys, column), ";")
  {
    if keys != [] {
      var front := keys[..|keys| - 1];
      var key := keys[|keys| - 1];
      MergeJoinsValues(rec, tags, tagMap, front, column);
      var vs := ValuesFor(tags, tagMap, front, column);
      var prev := MergeTags(rec, tags, tagMap, front);
      assert prev[column] == Join(vs, ";");
      if tagMap[key] == column && key in tags && tags[key] != "" {
        assert ValuesFor(tags, tagMap, keys, column) == vs + [tags[key]];
        JoinSnoc(vs, tags[key], ";");
        if vs != [] {
          assert Join(vs, ";") != [] by {
            if |vs| > 1 {
              assert Join(vs, ";") == vs[0] + ";" + Join(vs[1..], ";");
            }
          }
          assert MergeTags(rec, tags, tagMap, keys)[column] == prev[column] + ";" + tags[key];
        } else {
          assert MergeTags(rec, tags, tagMap, keys)[column] == tags[key];
        }
      } else {
        assert ValuesFor(tags, tagMap, keys, column) == vs;
      }
    }
  }

  /** The columns, in order, whose merged value is non-empty: those counted in the statistics. */
  function FilledColumns(rec: map<string, string>, cols: seq<string>): seq<string>
    requires forall k :: 0 <= k < |cols| ==> cols[k] in rec
  {
    if cols == [] then []
    else FilledColumns(rec, cols[..|cols| - 1]) + (if rec[cols[|cols| - 1]] != "" then [cols[|cols| - 1]] else [])
  }

  /** The formatted value of every column, in column order. */
  function FormattedColumns(merged: map<string, string>, cols: seq<string>): (r: seq<string>)
    requires forall k :: 0 <= k < |cols| ==> cols[k] in merged
    ensures |r| == |cols|
  {
    if cols == [] then [] else FormattedColumns(merged, cols[..|cols| - 1]) + [FormatString(merged[cols[|cols| - 1]])]
  }

  /** One more column adds its formatted value, and itself when filled. */
  lemma ColumnsStep(merged: map<string, string>, cols: seq<string>, i: nat)
    requires i < |cols| && forall k :: 0 <= k < |cols| ==> cols[k] in merged
    ensures FormattedColumns(merged, cols[..i + 1]) == FormattedColumns(merged, cols[..i]) + [FormatString(merged[cols[i]])]
    ensures merged[cols[i]] != "" ==> FilledColumns(merged, cols[..i + 1]) == FilledColumns(merged, cols[..i]) + [cols[i]]
    ensures merged[cols[i]] == "" ==> FilledColumns(merged, cols[..i + 1]) == FilledColumns(merged, cols[..i])
  {
    assert cols[..i + 1][..i] == cols[..i];
    assert cols[..i + 1][i] == cols[i];
  }

  /** A written CSV row: id, name, category, SRID, the formatted column values and the tags left over. */
  datatype CsvRow = CsvRow(id: Option<string>, name: Option<string>, category: string, srid: int,
                           columns: seq<string>, otherTags: map<string, string>)

  /** `keys` lists every key of `m` exactly once. */
  ghost predicate IsOrderOf(keys: seq<string>, m: map<string, string>)
  {
    (forall k :: k in keys <==> k in m) && forall i, j :: 0 <= i < j < |keys| ==> keys[i] != keys[j]
  }

  class OsmCsvConverter {
    var numRec: int
    var rejectedRec: int
    var attrStatistics: map<string, nat>
    var tagMap: map<string, string>
    var cols: seq<string>
    var rows: seq<CsvRow>

    /** Every tag the table maps goes to a listed column. */
    ghost predicate Valid()
      reads this
    {
      ColumnsListed(tagMap, cols)
    }

    /** Reads the column mapping (the property `entries` in iteration order); the counters start at zero. */
    constructor(entries: seq<(string, string)>)
      ensures Valid() && numRec == 0 && rejectedRec == 0 && attrStatistics == map[] && rows == []
      ensures cols == EntryKeys(ParsedEntries(entries)) && tagMap == TagMapAfter(map[], ParsedEntries(entries))
    {
      numRec := 0;
      rejectedRec := 0;
      attrStatistics := map[];
      tagMap := map[];
      cols := [];
      rows := [];
      new;
      ReadAttrMappingFile(entries);
    }

    /**
     * `ReadAttrMappingFile`: each property becomes a column, and each
     * comma-separated part of its value a tag mapped to that column.
     */
    method ReadAttrMappingFile(entries: seq<(string, string)>)
      requires Valid()
      modifies this`cols, this`tagMap
      ensures Valid()
      ensures cols == old(cols) + EntryKeys(ParsedEntries(entries))
      ensures tagMap == TagMapAfter(old(tagMap), ParsedEntries(entries))
    {
      TagMapColumnsListed(tagMap, cols, ParsedEntries(entries));
      ghost var cols0 := cols;
      for i := 0 to |entries|
        invariant cols == cols0 + EntryKeys(ParsedEntries(entries[..i]))
        invariant tagMap == TagMapAfter(old(tagMap), ParsedEntries(entries[..i]))
      {
        var (key, value) := entries[i];
        AppendAssoc(cols0, EntryKeys(ParsedEntries(entries[..i])), key);
        cols := cols + [key];
        PutMappingTags(key, MappingTags(value));
        ReadOneMore(old(tagMap), entries, i);
      }
      assert entries[..|entries|] == entries;
    }

    /** The inner loop of `ReadAttrMappingFile`: every trimmed part of a mapping value maps to the property name. */
    method PutMappingTags(key: string, tags: seq<string>)
      modifies this`tagMap
      ensures tagMap == PutTags(old(tagMap), tags, key)
    {
      for j := 0 to |tags|
        invariant tagMap == PutTags(old(tagMap), tags[..j], key)
      {
        PutTagsSnoc(old(tagMap), tags, j, key);
        tagMap := tagMap[tags[j] := key];
      }
      assert tags[..|tags|] == tags;
    }

    /** `updateStatistics`: a new key counts 1, a known one goes up by 1. */
    method UpdateStatistics(key: string)
      modifies this`attrStatistics
      ensures attrStatistics == Bump(old(attrStatistics), key)
    {
      if key !in attrStatistics {
        attrStatistics := attrStatistics[key := 1];
      } else {
        attrStatistics := attrStatistics[key := attrStatistics[key] + 1];
      }
    }

    /**
     * `parse` for one record: counts it, screens it and, when it is
     * accepted, writes it.
     */
    method Parse(rs: OSMRecord, inExtent: bool, filter: Option<Expr>, num: NumberSyntax, targetSRID: int, order: seq<string>)
      requires Valid() && IsOrderOf(order, tagMap)
      modifies this`numRec, this`rejectedRec, this`attrStatistics, this`rows, rs`tags
      ensures numRec == old(numRec) + 1
      ensures var s := Screen(old(rs.geometry), inExtent,
                              FilterThematic(filter, FilterRecord(old(rs.tags), rs.id, rs.name, rs.osmType), num), rs.category);
        && (s.Accepted? <==> rows != old(rows))
        && (s.Rejected? ==> rejectedRec == old(rejectedRec) + 1)
        && (!s.Rejected? ==> rejectedRec == old(rejectedRec))
        && (!s.Accepted? ==> rows == old(rows) && rs.tags == old(rs.tags) && attrStatistics == old(attrStatistics))
        && (s.Accepted? ==> Written(old(rows), old(attrStatistics), old(rs.tags), rs, s.category, targetSRID, order))
    {
      numRec := numRec + 1;
      var excluded := FilterThematic(filter, FilterRecord(rs.tags, rs.id, rs.name, rs.osmType), num);
      var s := Screen(rs.geometry, inExtent, excluded, rs.category);
      if s.Rejected? {
        rejectedRec := rejectedRec + 1;
        return;
      }
      if s.Failed? {
        return;
      }
      WriteRecord(rs, s.category, targetSRID, order);
    }

    /**
     * The state after an accepted record is written: its mapped tags are
     * merged into the columns and removed from the record, the name and the
     * filled columns are counted, and the row is appended.
     */
    ghost predicate Written(rows0: seq<CsvRow>, stats0: map<string, nat>, tags0: map<string, string>, rs: OSMRecord,
                            category: string, targetSRID: int, order: seq<string>)
      requires Valid() && IsOrderOf(order, tagMap)
      reads this, rs
    {
      var merged := MergeTags(EmptyColumns(cols), tags0, tagMap, order);
      && rs.tags == tags0 - tagMap.Keys
      && rows == rows0 + [CsvRow(rs.id, rs.name, CsvCategory(category), targetSRID, FormattedColumns(merged, cols), rs.tags)]
      && attrStatistics == Tally(Tally(stats0, NameKey(rs.name)), FilledColumns(merged, cols))
    }

    /** Writes an accepted record with its category. */
    method WriteRecord(rs: OSMRecord, category: string, targetSRID: int, order: seq<string>)
      requires Valid() && IsOrderOf(order, tagMap)
      modifies this`attrStatistics, this`rows, rs`tags
      ensures rs.tags == old(rs.tags) - tagMap.Keys
      ensures var merged := MergeTags(EmptyColumns(cols), old(rs.tags), tagMap, order);
        rows == old(rows) + [CsvRow(rs.id, rs.name, CsvCategory(category), targetSRID, FormattedColumns(merged, cols), rs.tags)]
      ensures var merged := MergeTags(EmptyColumns(cols), old(rs.tags), tagMap, order);
        attrStatistics == Tally(Tally(old(attrStatistics), NameKey(rs.name)), FilledColumns(merged, cols))
    {
      if rs.name.Some? {
        UpdateStatistics("NAME");
        TallySnoc(old(attrStatistics), [], "NAME");
      }
      assert attrStatistics == Tally(old(attrStatistics), NameKey(rs.name));
      var merged := MergeRecordTags(rs, order);
      var columns, stats := CountColumns(merged, attrStatistics);
      attrStatistics := stats;
      rows := rows + [CsvRow(rs.id, rs.name, CsvCategory(category), targetSRID, columns, rs.tags)];
    }

    /** The merge loop of `parse`: fills the columns from the record's tags and removes every mapped tag from the record. */
    method MergeRecordTags(rs: OSMRecord, order: seq<string>) returns (merged: map<string, string>)
      requires Valid() && IsOrderOf(order, tagMap)
      modifies rs`tags
      ensures merged == MergeTags(EmptyColumns(cols), old(rs.tags), tagMap, order)
      ensures rs.tags == old(rs.tags) - tagMap.Keys
    {
      merged := EmptyColumns(cols);
      var tags := rs.tags;
      var table := tagMap;
      for i := 0 to |order|
        invariant merged == MergeTags(EmptyColumns(cols), old(rs.tags), table, order[..i])
        invariant forall t :: t in tags <==> t in old(rs.tags) && t !in order[..i]
        invariant forall t :: t in tags ==> tags[t] == old(rs.tags)[t]
      {
        var key := order[i];
        assert key !in order[..i];
        MergeTagsStep(EmptyColumns(cols), old(rs.tags), table, order, i);
        var column := table[key];
        var tagFieldValue := if key in tags then tags[key] else "";
        var existingValue := merged[column];
        if existingValue == "" {
          merged := merged[column := tagFieldValue];
        } else if tagFieldValue != "" {
          merged := merged[column := existingValue + ";" + tagFieldValue];
        }
        tags := tags - {key};
        PrefixMembers(order, i);
      }
      assert order[..|order|] == order;
      rs.tags := tags;
    }

    /** The column loop of `parse`: the formatted value of every column, and `stats` with each filled column counted once. */
    method CountColumns(merged: map<string, string>, stats0: map<string, nat>) returns (columns: seq<string>, stats: map<string, nat>)
      requires forall c :: c in cols ==> c in merged
      ensures columns == FormattedColumns(merged, cols)
      ensures stats == Tally(stats0, FilledColumns(merged, cols))
    {
      columns := [];
      stats := stats0;
      var cs := cols;
      for i := 0 to |cs|
        invariant columns == FormattedColumns(merged, cs[..i])
        invariant stats == Tally(stats0, FilledColumns(merged, cs[..i]))
      {
        columns, stats := CountColumn(merged, cs, i, stats0, columns, stats);
      }
      assert cs[..|cs|] == cs;
    }

    /** One pass of the column loop: column `i` formatted, and counted when filled. */
    method CountColumn(merged: map<string, string>, cs: seq<string>, i: nat, ghost stats0: map<string, nat>,
                       columns: seq<string>, stats: map<string, nat>)
      returns (columns': seq<string>, stats': map<string, nat>)
      requires i < |cs| && forall k :: 0 <= k < |cs| ==> cs[k] in merged
      requires columns == FormattedColumns(merged, cs[..i]) && stats == Tally(stats0, FilledColumns(merged, cs[..i]))
      ensures columns' == FormattedColumns(merged, cs[..i + 1])
      ensures stats' == Tally(stats0, FilledColumns(merged, cs[..i + 1]))
    {
      ColumnsStep(merged, cs, i);
      columns' := columns + [FormatString(merged[cs[i]])];
      stats' := stats;
      if merged[cs[i]] != "" {
        TallySnoc(stats0, FilledColumns(merged, cs[..i]), cs[i]);
        stats' := Bump(stats, cs[i]);
      }
    }
  }
}
