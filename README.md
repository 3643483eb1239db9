# Offline map server and OSMWrangle core, modelled in Dafny

This project models the sequential core of an offline map server (a Spring
Boot application that serves MBTiles and TPK tilesets, fonts and an
administrative-division tree), together with the OSMWrangle toolkit it
embeds, which turns OpenStreetMap elements into CSV rows and RDF triples. It
proves properties of that model.

The OSMWrangle part covers the following:

- **Thematic filter language** (`expression_tokens.dfy`, `expression_parser.dfy`, `expression_eval.dfy`).
  - A tokenizer loop, proved equal to a functional lexer.
  - The `TokenStream` cursor.
  - A recursive-descent parser on the stream, proved to agree with a parser function on token positions.
  - Evaluation of `=`, `<>`, `LIKE` and the ordering operators over a record.
- **OSM records** (`osm_model.dfy`, `osm_record_builder.dfy`).
  - `OSMRecord` with its setters.
  - The in-memory geometry index.
  - The record builder: the category lookup over the filter forest, and node, way and relation records, including the list of relations with unindexed members.
- **Tag-filter file parser** (`osm_filter.dfy`).
  - The level stack.
  - The tag and category sets.
  - The validity check of the filter forest.
- **Classification schemes** (`category.dfy`, `classification.dfy`).
  - Categories with their normalising constructor.
  - The YML classification reader with its level stack and tier count.
  - The lookups by name, UUID and identifier.
- **Attribute mapping table** (`mapping.dfy`).
  - Positional slots, generators and their arguments.
  - The profile choice.
  - "%LANG" keys and multi-faceted lookups.
- **Triple generator bookkeeping** (`triple_generator.dfy`).
  - Statistics and namespace expansion.
  - Built-in arguments and the classification URI.
  - Plain mapping.
- **Auxiliary built-ins** (`assistant.dfy`).
- **CSV converter** (`osm_csv_converter.dfy`): its counters, screening, tag-to-column merge and statistics.

The map-server part covers the following:

- File-name utilities (`io_utils.dfy`).
- The tileset-name check (`system_utils.dfy`).
- Response maps (`responses.dfy`).
- Vector-tile layer filters (`layer_filter.dfy`).
- The coordinate swapper (`coordinate_swapper.dfy`).
- The tileset view model (`tiles_view_model.dfy`).
- The administrative-division tree and its client view (`admin_division.dfy`).
- The data center's registries and tree search (`data_center.dfy`).

**How the model is built:**

- Code that works by updating state is modelled as classes with `modifies` clauses, and its loops as methods with invariants. Each such method is proved against a specification function.
- Pure code is modelled as functions and lemmas.
- Java `null` is `None`, and exceptions are `Err` values of a `Result`.
- Java strings are `seq<char>`, and `java_strings.dfy` gives the `String` methods the source relies on (`trim`, `split`, `replace`, `lastIndexOf`, and so on).

## Model

| member | source | states |
|---|---|---|
| ExpressionTokens.RunEnd | src/main/java/eu/smartdatalake/athenarc/osmwrangle/expression/ExprResolver.java:41 | the greedy `\s+`, identifier `+` and quoted `[^']+` runs: the run ends at the first character outside the class |
| ExpressionTokens.MatchGroup | src/main/java/eu/smartdatalake/athenarc/osmwrangle/expression/ExprResolver.java:41 | a group that matches yields its own kind and ends strictly after the offset |
| ExpressionTokens.MatchAt | src/main/java/eu/smartdatalake/athenarc/osmwrangle/expression/ExprResolver.java:41-62 | the match found at the offset makes progress and stays inside the input |
| ExpressionTokens.FirstAlternativeWins | src/main/java/eu/smartdatalake/athenarc/osmwrangle/expression/ExprResolver.java:41-74 | the kind reported is that of the first alternative (in enum order) whose group matches; every earlier alternative fails there |
| ExpressionTokens.ComparisonPrefixWins | src/main/java/eu/smartdatalake/athenarc/osmwrangle/expression/ExprResolver.java:41 | no match is ever of kind LESS_THAN_OR_EQUAL or GREATER_THAN_OR_EQUAL, because `(<)` and `(>)` come first in the pattern |
| ExpressionTokens.LessOrEqualIsTwoTokens | src/main/java/eu/smartdatalake/athenarc/osmwrangle/expression/ExprResolver.java:41-81 | "<=" tokenizes as LESS_THAN, EQUALS, EOF |
| ExpressionTokens.MatchSpells | src/main/java/eu/smartdatalake/athenarc/osmwrangle/expression/ExprResolver.java:41-76 | a non-whitespace match spells the input text it covers (a literal without its quotes); a whitespace match covers only whitespace |
| ExpressionTokens.Lex | src/main/java/eu/smartdatalake/athenarc/osmwrangle/expression/ExprResolver.java:54-81 | a failure reports an offset inside the input at which no token pattern matches |
| ExpressionTokens.LexAfter | src/main/java/eu/smartdatalake/athenarc/osmwrangle/expression/ExprResolver.java:66-76 | after a match the tokenizer resumes at the match end; any later failure lies at or after it |
| ExpressionTokens.LexWellFormed | src/main/java/eu/smartdatalake/athenarc/osmwrangle/expression/ExprResolver.java:54-81 | on success: no whitespace token, exactly one EOF token, last, at the input length; each token spells its text; each token starts where whitespace after the previous one ends |
| ExpressionTokens.Tokenize | src/main/java/eu/smartdatalake/athenarc/osmwrangle/expression/ExprResolver.java:54-81 | the tokenizer loop returns exactly `Lex(input, 0)` |
| ExpressionTokens.TokenStream.constructor | src/main/java/eu/smartdatalake/athenarc/osmwrangle/expression/TokenStream.java:36-45 | the stream holds the given tokens with the cursor at 0 |
| ExpressionTokens.TokenStream.Consume | src/main/java/eu/smartdatalake/athenarc/osmwrangle/expression/TokenStream.java:53-61 | returns the token at the cursor when its kind is the requested one, otherwise a ParseException at the token's start; the cursor advances by one either way; the tokens are unchanged |
| ExpressionTokens.TokenStream.ConsumeIf | src/main/java/eu/smartdatalake/athenarc/osmwrangle/expression/TokenStream.java:68-75 | on a match returns the token and advances by one; on a mismatch returns null and leaves the cursor |
| ExpressionParser.OperatorSpec | src/main/java/eu/smartdatalake/athenarc/osmwrangle/expression/SimpleExpr.java:56-90 | the operator reader consumes at most two tokens and stays inside the stream |
| ExpressionParser.OperatorSequences | src/main/java/eu/smartdatalake/athenarc/osmwrangle/expression/SimpleExpr.java:56-92 | the operator sequences "=", "<>", "LIKE", "<", "<" "=", ">", ">" "=" followed by a literal give EQUALS, NOT_EQUALS, LIKE, LESS_THAN, LESS_THAN_OR_EQUAL, GREATER_THAN, GREATER_THAN_OR_EQUAL |
| ExpressionParser.SimpleSpec | src/main/java/eu/smartdatalake/athenarc/osmwrangle/expression/SimpleExpr.java:45-99 | identifier first: success iff a literal follows the operator, else ParseException at that token; literal first: success iff an identifier follows, with the operator left unset; any other first token fails |
| ExpressionParser.SubSpec | src/main/java/eu/smartdatalake/athenarc/osmwrangle/expression/SubExpr.java:43-53 | a sub-expression parse consumes at least one token and yields a SubExpr |
| ExpressionParser.AndSpec | src/main/java/eu/smartdatalake/athenarc/osmwrangle/expression/SubExpr.java:48 | an AND chain consumes at least one token and yields an AndExpr (AndExpr is not part of this model's source; its grammar is assumed) |
| ExpressionParser.OrSpec | src/main/java/eu/smartdatalake/athenarc/osmwrangle/expression/ExprResolver.java:91 | an OR chain consumes at least one token and yields an OrExpr (OrExpr is assumed as for AndExpr) |
| ExpressionParser.ParseConsumesAll | src/main/java/eu/smartdatalake/athenarc/osmwrangle/expression/ExprResolver.java:90-94 | a successful parse tokenized the input and the OrExpr ended exactly at the EOF token |
| ExpressionParser.ParseOperator | src/main/java/eu/smartdatalake/athenarc/osmwrangle/expression/SimpleExpr.java:56-90 | the stream method reads the operator exactly as `OperatorSpec` says |
| ExpressionParser.ParseSimple | src/main/java/eu/smartdatalake/athenarc/osmwrangle/expression/SimpleExpr.java:45-99 | the SimpleExpr constructor agrees with `SimpleSpec`: same expression, same error, same cursor |
| ExpressionParser.ParseSub | src/main/java/eu/smartdatalake/athenarc/osmwrangle/expression/SubExpr.java:43-53 | a leading '(' reads an OrExpr and then requires ')'; without it no parenthesis is consumed and a SimpleExpr is read; agrees with `SubSpec` |
| ExpressionParser.ParseAnd | src/main/java/eu/smartdatalake/athenarc/osmwrangle/expression/SubExpr.java:48 | the AND chain agrees with `AndSpec` |
| ExpressionParser.ParseOr | src/main/java/eu/smartdatalake/athenarc/osmwrangle/expression/SubExpr.java:48 | the OR chain agrees with `OrSpec` |
| ExpressionParser.Parse | src/main/java/eu/smartdatalake/athenarc/osmwrangle/expression/ExprResolver.java:90-94 | `parse` fails unless the OrExpr is followed directly by EOF |
| ExpressionParser.Resolve | src/main/java/eu/smartdatalake/athenarc/osmwrangle/expression/ExprResolver.java:54-94 | tokenizing and then parsing gives exactly `ResolveSpec(input)` |
| ExpressionEval.LikeWithoutPercent | src/main/java/eu/smartdatalake/athenarc/osmwrangle/expression/SimpleExpr.java:139-148 | without '%' a LIKE pattern matches exactly the texts of its length that agree position by position, with '?' standing for one character |
| ExpressionEval.LikePlainText | src/main/java/eu/smartdatalake/athenarc/osmwrangle/expression/SimpleExpr.java:139-148 | a pattern without '%' and '?' matches only itself |
| ExpressionEval.LikeAnyRun | src/main/java/eu/smartdatalake/athenarc/osmwrangle/expression/SimpleExpr.java:146 | "%" matches every text without a line terminator |
| ExpressionEval.LikeIgnoresCase | src/main/java/eu/smartdatalake/athenarc/osmwrangle/expression/SimpleExpr.java:142-147 | LIKE ignores the case of both the value and the literal |
| ExpressionEval.DoubleTrichotomy | src/main/java/eu/smartdatalake/athenarc/osmwrangle/expression/SimpleExpr.java:121-127 | apart from NaN, exactly one of `a < b`, `a == b` and `b < a` holds for two doubles |
| ExpressionEval.Compare | src/main/java/eu/smartdatalake/athenarc/osmwrangle/expression/SimpleExpr.java:121-127 | the four orderings on doubles: false whenever NaN is involved, the real comparison on finite values, `>=` the negation of `<` and `<=` the negation of `>` apart from NaN, and false for any other operator |
| ExpressionEval.EvalSimple | src/main/java/eu/smartdatalake/athenarc/osmwrangle/expression/SimpleExpr.java:107-131 | EQUALS iff the value equals the literal (a missing key is unequal); NOT_EQUALS is its negation; LIKE on a present value is the case-blind whole-string match of `LikeText`; an ordering on two parsed numbers is their comparison as Java doubles, so a value that parses to NaN makes every ordering false; orderings are false for a non-numeric literal, as is any other operator with a parsed numeric literal; a numeric literal or a present value that does not parse throws NumberFormatException; an unset operator, or LIKE or an ordering on a missing key, throws |
| ExpressionEval.AnyFromTrue | src/main/java/eu/smartdatalake/athenarc/osmwrangle/expression/SubExpr.java:63-65 | an OR is true exactly when some child is true and every child before it is false |
| ExpressionEval.AllFromTrue | src/main/java/eu/smartdatalake/athenarc/osmwrangle/expression/SubExpr.java:63-65 | an AND is true exactly when every child is true |
| ExpressionEval.Text | src/main/java/eu/smartdatalake/athenarc/osmwrangle/expression/SubExpr.java:57-59 | a sub-expression's text is its child's text in parentheses; a simple expression with an unset operator throws in `toString` |
| OsmModel.OSMRecord.constructor | src/main/java/eu/smartdatalake/athenarc/osmwrangle/osm/OSMRecord.java:38-45 | a new record has no id, name, type, category or geometry, and no tags |
| OsmModel.OSMRecord.SetID | src/main/java/eu/smartdatalake/athenarc/osmwrangle/osm/OSMRecord.java:101-103 | `getID` afterwards returns the value set; nothing else changes |
| OsmModel.OSMRecord.SetName | src/main/java/eu/smartdatalake/athenarc/osmwrangle/osm/OSMRecord.java:109-111 | `getName` afterwards returns the value set; nothing else changes |
| OsmModel.OSMRecord.SetType | src/main/java/eu/smartdatalake/athenarc/osmwrangle/osm/OSMRecord.java:117-119 | `getType` afterwards returns the value set; nothing else changes |
| OsmModel.OSMRecord.SetCategory | src/main/java/eu/smartdatalake/athenarc/osmwrangle/osm/OSMRecord.java:125-127 | `getCategory` afterwards returns the value set; nothing else changes |
| OsmModel.OSMRecord.SetGeometry | src/main/java/eu/smartdatalake/athenarc/osmwrangle/osm/OSMRecord.java:133-135 | `getGeometry` afterwards returns the value set; nothing else changes |
| OsmModel.OSMRecord.SetTagKeyValue | src/main/java/eu/smartdatalake/athenarc/osmwrangle/osm/OSMRecord.java:142-144 | inserts or overwrites exactly one key; the size grows by one only for a new key |
| OsmModel.OSMRecord.SetTags | src/main/java/eu/smartdatalake/athenarc/osmwrangle/osm/OSMRecord.java:150-153 | every given tag except "name" is copied, "name" is absent, and existing tags with other keys are kept |
| OsmModel.OSMMemoryIndex.constructor | src/main/java/eu/smartdatalake/athenarc/osmwrangle/osm/OSMMemoryIndex.java:45-47 | a new index is empty |
| OsmModel.OSMMemoryIndex.Put | src/main/java/eu/smartdatalake/athenarc/osmwrangle/osm/OSMMemoryIndex.java:54-89 | `get(k)` returns g and `containsKey(k)` holds even for a null g; the size grows only for a new key |
| OsmModel.OSMMemoryIndex.Clear | src/main/java/eu/smartdatalake/athenarc/osmwrangle/osm/OSMMemoryIndex.java:70-72 | afterwards the size is 0 and no key is contained |
| OsmModel.OSMMemoryIndex.PutAll | src/main/java/eu/smartdatalake/athenarc/osmwrangle/osm/OSMMemoryIndex.java:95-97 | every key of m maps to m's value; every other key is unchanged |
| OsmFilters.EntryParts | src/main/java/eu/smartdatalake/athenarc/osmwrangle/osm/OSMFilterFileParser.java:96-111 | no '=' gives no entry; otherwise the text is key "=" value (" " category), with no '=' in the key and no ' ' in the value |
| OsmFilters.ClassifyFilterLine | src/main/java/eu/smartdatalake/athenarc/osmwrangle/osm/OSMFilterFileParser.java:68-111 | an entry's level never exceeds MAX_INDENT |
| OsmFilters.ClassifyFilterLineCases | src/main/java/eu/smartdatalake/athenarc/osmwrangle/osm/OSMFilterFileParser.java:68-111 | comments and blank lines are skipped; the level is leading spaces / 2; a level above 100 or a missing '=' is fatal; otherwise the parts are `EntryParts` of the trimmed line |
| OsmFilters.ClassifiedAt | src/main/java/eu/smartdatalake/athenarc/osmwrangle/osm/OSMFilterFileParser.java:65-111 | each line is classified on its own |
| OsmFilters.PrefixStep | src/main/java/eu/smartdatalake/athenarc/osmwrangle/osm/OSMFilterFileParser.java:116-126 | reading one more line adds its key and value to `tags`, its non-blank category to `categories`, and a level-0 entry to the top-level filters |
| OsmFilters.ValidLeaves | src/main/java/eu/smartdatalake/athenarc/osmwrangle/osm/OSMFilterFileParser.java:175-191 | a valid filter's every childless descendant has a category |
| OsmFilters.LeavesValid | src/main/java/eu/smartdatalake/athenarc/osmwrangle/osm/OSMFilterFileParser.java:175-191 | a filter whose childless descendants all have categories is valid |
| OsmFilters.ValidIffLeavesHaveCategories | src/main/java/eu/smartdatalake/athenarc/osmwrangle/osm/OSMFilterFileParser.java:175-191 | `isOSMFilterValid` holds exactly when every leaf has a category |
| OsmFilters.Attach | src/main/java/eu/smartdatalake/athenarc/osmwrangle/osm/OSMFilterFileParser.java:160 | adding a child appends it to its parent's child list and changes no other filter's key, value or category |
| OsmFilters.Build | src/main/java/eu/smartdatalake/athenarc/osmwrangle/osm/OSMFilterFileParser.java:114-160 | the filter built from a node has its key, value, category and child count |
| OsmFilters.AddEntry | src/main/java/eu/smartdatalake/athenarc/osmwrangle/osm/OSMFilterFileParser.java:125-161 | a top-level line is accepted iff it has a key, becomes a new root and resets the levels; a child is accepted iff its level-1 slot holds a parent, it has a key or value, and it does not follow a valued parent without a key; accepted or not, and the new arena, roots and slots, are exactly `EntryStep`'s |
| OsmFilters.BuildForest | src/main/java/eu/smartdatalake/athenarc/osmwrangle/osm/OSMFilterFileParser.java:164-171 | fails iff some top-level filter has a leaf without category; otherwise returns the filters in order |
| OsmFilters.EntryStep | src/main/java/eu/smartdatalake/athenarc/osmwrangle/osm/OSMFilterFileParser.java:125-161 | a top-level line is rejected exactly when it has no key, and otherwise is appended as a new root with only its own slot filled; a deeper line is rejected exactly when the slot one level up is empty, it has neither key nor value, or it has no key under a parent with a value; otherwise it becomes the last child of the filter in that slot, takes its own level's slot, and no other filter or slot changes |
| OsmFilters.LineStep | src/main/java/eu/smartdatalake/athenarc/osmwrangle/osm/OSMFilterFileParser.java:65-161 | a fatal line stops the parse, a comment or blank line leaves it unchanged, and an entry line is `EntryStep` |
| OsmFilters.FoldLines | src/main/java/eu/smartdatalake/athenarc/osmwrangle/osm/OSMFilterFileParser.java:65-161 | the parse of the lines in order from the empty state keeps a well-formed arena whose children follow their parents and whose slots are empty or name a filter |
| OsmFilters.FoldPrefix | src/main/java/eu/smartdatalake/athenarc/osmwrangle/osm/OSMFilterFileParser.java:65-161 | reading line n continues the parse of the lines before it by one `LineStep` |
| OsmFilters.FoldStaysFailed | src/main/java/eu/smartdatalake/athenarc/osmwrangle/osm/OSMFilterFileParser.java:65-161 | once a line is rejected the whole file is rejected, as every error returns null at once |
| OsmFilters.FoldFatal | src/main/java/eu/smartdatalake/athenarc/osmwrangle/osm/OSMFilterFileParser.java:86-102 | an over-indented line or a line without '=' anywhere in the file makes the parse fail |
| OsmFilters.OSMFilterFileParser.Parse | src/main/java/eu/smartdatalake/athenarc/osmwrangle/osm/OSMFilterFileParser.java:42-172 | returns a forest exactly when no line is rejected (`FoldLines` succeeds) and every top-level filter's childless filters all have a category; the forest is then the filters built from the fold's arena, root by root; an over-indented line or a line without '=' gives null; on success there is one filter per top-level line, in order, each with a key, and `tags`/`categories` hold exactly what the lines named |
| OsmFilters.OSMFilterFileParser.ReadLine | src/main/java/eu/smartdatalake/athenarc/osmwrangle/osm/OSMFilterFileParser.java:65-162 | one loop step succeeds exactly when `LineStep` accepts the line from the current arena, roots and slots, and then leaves exactly the state `LineStep` gives; it keeps the tag and category sets and the top-level filters in step with the lines read |
| OsmRecordBuilders.CategoryOf | src/main/java/eu/smartdatalake/athenarc/osmwrangle/utils/OSMRecordBuilder.java:85-108 | a category is found only when the filter applies (key present, value equal when given) and it is one of the filter tree's categories; a filter that does not apply yields null |
| OsmRecordBuilders.ChildCategory | src/main/java/eu/smartdatalake/athenarc/osmwrangle/utils/OSMRecordBuilder.java:101-106 | the children's result is one of their categories |
| OsmRecordBuilders.ChildCategoryNone | src/main/java/eu/smartdatalake/athenarc/osmwrangle/utils/OSMRecordBuilder.java:101-106 | the children yield nothing iff no child yields a category |
| OsmRecordBuilders.ChildCategoryFirst | src/main/java/eu/smartdatalake/athenarc/osmwrangle/utils/OSMRecordBuilder.java:101-106 | the first child, in order, that yields a category decides |
| OsmRecordBuilders.CategoryOfApplies | src/main/java/eu/smartdatalake/athenarc/osmwrangle/utils/OSMRecordBuilder.java:107 | when no child yields a category the filter's own category is returned |
| OsmRecordBuilders.CategoryOfFirstChild | src/main/java/eu/smartdatalake/athenarc/osmwrangle/utils/OSMRecordBuilder.java:101-107 | when a child yields a category, the first such child's category is returned |
| OsmRecordBuilders.InheritedKey | src/main/java/eu/smartdatalake/athenarc/osmwrangle/utils/OSMRecordBuilder.java:87-98 | a filter without its own key uses its parent's key and yields null when the tags lack it |
| OsmRecordBuilders.CategoryFrom | src/main/java/eu/smartdatalake/athenarc/osmwrangle/utils/OSMRecordBuilder.java:64-74 | a category found comes from some top-level filter |
| OsmRecordBuilders.CategoryFromNone | src/main/java/eu/smartdatalake/athenarc/osmwrangle/utils/OSMRecordBuilder.java:64-74 | `getCategory` is null iff no top-level filter yields a category |
| OsmRecordBuilders.GetCategoryFirst | src/main/java/eu/smartdatalake/athenarc/osmwrangle/utils/OSMRecordBuilder.java:64-74 | the first top-level filter that yields non-null decides |
| OsmRecordBuilders.GetCategory | src/main/java/eu/smartdatalake/athenarc/osmwrangle/utils/OSMRecordBuilder.java:64-74 | `getCategory`: the category of the first top-level filter that yields one, null when none does; its meaning is proved by `CategoryFromNone` and `GetCategoryFirst` |
| OsmRecordBuilders.ResolvedAll | src/main/java/eu/smartdatalake/athenarc/osmwrangle/utils/OSMRecordBuilder.java:383-413 | when every member is indexed, the resolved geometries are the members' geometries, one per member, in order |
| OsmRecordBuilders.OSMRecordBuilder.constructor | src/main/java/eu/smartdatalake/athenarc/osmwrangle/utils/OSMRecordBuilder.java:55-57 | the builder keeps the given filters and starts with no incomplete relation |
| OsmRecordBuilders.OSMRecordBuilder.NewRecord | src/main/java/eu/smartdatalake/athenarc/osmwrangle/utils/OSMRecordBuilder.java:118-127 | the common record fields: prefixed id, type tag, name or "", tags without "name", category |
| OsmRecordBuilders.OSMRecordBuilder.CreateNodeRecord | src/main/java/eu/smartdatalake/athenarc/osmwrangle/utils/OSMRecordBuilder.java:116-129 | id "node/"+id, missing name becomes "", the node's geometry, and category from the filters or the literal "node" |
| OsmRecordBuilders.OSMRecordBuilder.CreateWayRecord | src/main/java/eu/smartdatalake/athenarc/osmwrangle/utils/OSMRecordBuilder.java:137-150 | id "way/"+id, missing name becomes "", the way's geometry, and category from the filters or the literal "way" |
| OsmRecordBuilders.OSMRecordBuilder.ResolveMember | src/main/java/eu/smartdatalake/athenarc/osmwrangle/utils/OSMRecordBuilder.java:388-403 | a member resolves through the index of its type (way, node or relation) |
| OsmRecordBuilders.OSMRecordBuilder.CollectMembers | src/main/java/eu/smartdatalake/athenarc/osmwrangle/utils/OSMRecordBuilder.java:383-413 | collects the resolved member geometries in order; a relation with an unindexed member is added to `incompleteRelations` at most once |
| OsmRecordBuilders.OSMRecordBuilder.CreateRelationRecord | src/main/java/eu/smartdatalake/athenarc/osmwrangle/utils/OSMRecordBuilder.java:190-426 | null exactly on first sight of a relation with a missing member, when the type-specific branches built no usable geometry; otherwise id "relation/"+id, category from the filters or "relation", and a single resolved member's geometry or a collection of several; an exception in the type-specific branches gives a record without geometry and queues nothing |
| Categories.NonEmpty | src/main/java/eu/smartdatalake/athenarc/osmwrangle/utils/Category.java:56-59 | an empty text is stored as null and any other text verbatim |
| Categories.NewCategory | src/main/java/eu/smartdatalake/athenarc/osmwrangle/utils/Category.java:55-62 | each of UUID, id, name and parent is null exactly when given empty and otherwise holds the given text; the embedded category is null exactly when it is null or empty, and then the score is 0.0; otherwise both the category and the score are kept |
| Categories.NewCategoryHas | src/main/java/eu/smartdatalake/athenarc/osmwrangle/utils/Category.java:55-167 | `hasUUID`, `hasId`, `hasName` and `hasParent` of a new category hold exactly when the constructor got a non-empty text, so a top-tier category built with an empty parent has no parent |
| Categories.Category.constructor | src/main/java/eu/smartdatalake/athenarc/osmwrangle/utils/Category.java:55-62 | the new category's fields are those `NewCategory` describes |
| Categories.Category.SetUUID | src/main/java/eu/smartdatalake/athenarc/osmwrangle/utils/Category.java:68-78 | `getUUID` afterwards returns the value set; nothing else changes |
| Categories.Category.SetEmbedCategory | src/main/java/eu/smartdatalake/athenarc/osmwrangle/utils/Category.java:108-118 | `getEmbedCategory` afterwards returns the value set; nothing else changes |
| Categories.Category.SetEmbedScore | src/main/java/eu/smartdatalake/athenarc/osmwrangle/utils/Category.java:124-134 | `getEmbedScore` afterwards returns the value set; nothing else changes |
| Classifications.ClassifyYmlLineCases | src/main/java/eu/smartdatalake/athenarc/osmwrangle/utils/Classification.java:165-194 | blank lines are skipped; the level is leading spaces / 2; a level above 10 or a line without '#' is fatal; otherwise the trimmed line is the text before its first '#', the '#', and the rest; the name is the trimmed text before, and the identifier the trimmed rest with every further '#' a space |
| Classifications.ClassifiedYmlAt | src/main/java/eu/smartdatalake/athenarc/osmwrangle/utils/Classification.java:161-194 | each line is read on its own |
| Classifications.ChildCategory | src/main/java/eu/smartdatalake/athenarc/osmwrangle/utils/Classification.java:235-241 | a child's parent is the parent's id; the child takes the parent's embedded category and score when the parent's score is higher |
| Classifications.YmlStepCases | src/main/java/eu/smartdatalake/athenarc/osmwrangle/utils/Classification.java:205-262 | a level-0 line without id, or a child whose level-1 slot is empty or whose parent or own id is missing, is fatal; a level-0 line creates a category with no parent and clears the other slots; a child fills its own slot only; both maps gain the line's entries; `numTiers` becomes the larger of itself and the level |
| Classifications.FoldSnoc | src/main/java/eu/smartdatalake/athenarc/osmwrangle/utils/Classification.java:161-263 | reading one more line applies one step to the state after the earlier lines |
| Classifications.FoldStaysFailed | src/main/java/eu/smartdatalake/athenarc/osmwrangle/utils/Classification.java:161-263 | once a line is fatal the whole file fails |
| Classifications.FoldTiers | src/main/java/eu/smartdatalake/athenarc/osmwrangle/utils/Classification.java:261-262 | after the lines the tier counter is the deepest level seen |
| Classifications.OutcomeTiers | src/main/java/eu/smartdatalake/athenarc/osmwrangle/utils/Classification.java:261-276 | `countTiers` after a successful parse is the deepest level plus one |
| Classifications.Classification.CountTiers | src/main/java/eu/smartdatalake/athenarc/osmwrangle/utils/Classification.java:482-484 | `countTiers`: the tier counter, which after a successful parse is the deepest level plus one (`OutcomeTiers`, `ParseYml`) |
| Classifications.Classification.CountCategories | src/main/java/eu/smartdatalake/athenarc/osmwrangle/utils/Classification.java:473-475 | `countCategories`: the number of stored categories, which `ParseYml` ties to the categories the fold produces |
| Classifications.FoldFatal | src/main/java/eu/smartdatalake/athenarc/osmwrangle/utils/Classification.java:180-253 | a too deep line, a line without '#' or a line without identifier makes the parse fail |
| Classifications.FoldKeys | src/main/java/eu/smartdatalake/athenarc/osmwrangle/utils/Classification.java:210-257 | after a successful parse every line's name is a category and every line's id has a UUID |
| Classifications.Classification.ReadLine | src/main/java/eu/smartdatalake/athenarc/osmwrangle/utils/Classification.java:165-194 | the loop's line reading gives exactly `ClassifyYmlLine` |
| Classifications.Classification.AddLine | src/main/java/eu/smartdatalake/athenarc/osmwrangle/utils/Classification.java:205-262 | one line changes the maps, the level slots and the tier counter exactly as `YmlStep`, and fails exactly when it does |
| Classifications.Classification.AddTop | src/main/java/eu/smartdatalake/athenarc/osmwrangle/utils/Classification.java:207-223 | a top-level line succeeds exactly when `YmlStep` does, with fresh level slots holding only the new category |
| Classifications.Classification.AddChild | src/main/java/eu/smartdatalake/athenarc/osmwrangle/utils/Classification.java:226-262 | a child line succeeds exactly when `YmlStep` does and then updates the maps and slots as it says |
| Classifications.Classification.SearchByName | src/main/java/eu/smartdatalake/athenarc/osmwrangle/utils/Classification.java:405-410 | the category stored under the name, or null for an unknown name |
| Classifications.Classification.GetUUID | src/main/java/eu/smartdatalake/athenarc/osmwrangle/utils/Classification.java:434-439 | the category's UUID, or null for an unknown name |
| Classifications.Classification.FindUUID | src/main/java/eu/smartdatalake/athenarc/osmwrangle/utils/Classification.java:447-452 | the UUID stored under the id, or null for an unknown id |
| Classifications.Classification.GetEmbeddedCategory | src/main/java/eu/smartdatalake/athenarc/osmwrangle/utils/Classification.java:461-466 | the category's embedded category, or null for an unknown name |
| Classifications.Classification.FirstWithId | src/main/java/eu/smartdatalake/athenarc/osmwrangle/utils/Classification.java:419-426 | a category returned has the id and is the one at some position k of the order with every category before k carrying a different non-null id; none only when every category has a different non-null id; a throw comes from a category without id at a position k before which every category has a different non-null id |
| Classifications.Classification.SearchById | src/main/java/eu/smartdatalake/athenarc/osmwrangle/utils/Classification.java:419-426 | the loop returns `FirstWithId`; when every category has an id it finds one exactly when some category carries the id |
| Classifications.Classification.ParseYml | src/main/java/eu/smartdatalake/athenarc/osmwrangle/utils/Classification.java:148-278 | succeeds exactly when no line is fatal and some category results; then the maps and the tier count are those of `YmlOutcome`; `countCategories` and `countTiers` then report the outcome's category count and depth |
| Classifications.Classification.ParseLines | src/main/java/eu/smartdatalake/athenarc/osmwrangle/utils/Classification.java:161-263 | the line loop leaves the maps and the tier counter as the fold over the lines says |
| Classifications.Classification.Register | src/main/java/eu/smartdatalake/athenarc/osmwrangle/utils/Classification.java:210-257 | the category is stored under its name and its UUID under its identifier; nothing else changes |
| Classifications.Classification.Store | src/main/java/eu/smartdatalake/athenarc/osmwrangle/utils/Classification.java:256-262 | a child category is stored under its name, its UUID under its identifier, it becomes the last category seen at its level, and the tier count rises to its level |
| Mappings.DataTypeOf | src/main/java/eu/smartdatalake/athenarc/osmwrangle/utils/Mapping.java:183-218 | int/integer give xsd:integer, uri gives xsd:anyURI, and any name outside the listed types gives xsd:string, ignoring case |
| Mappings.DataTypeIgnoresCase | src/main/java/eu/smartdatalake/athenarc/osmwrangle/utils/Mapping.java:185 | the data type does not depend on the case of its name |
| Mappings.ProfileOf | src/main/java/eu/smartdatalake/athenarc/osmwrangle/utils/Mapping.java:224-250 | the profile is chosen in priority order instance, part, data type, predicate with language, predicate, URI entity; each branch is taken exactly when the earlier ones fail; a null entity type reaching the URI test throws; the language-tagged variants are chosen exactly when a language is set |
| Mappings.CommaPiecesJoin | src/main/java/eu/smartdatalake/athenarc/osmwrangle/utils/Mapping.java:434-444 | splitting at commas loses nothing: the pieces joined with "," give back the text |
| Mappings.CommaPiecesNoComma | src/main/java/eu/smartdatalake/athenarc/osmwrangle/utils/Mapping.java:434-444 | a text without comma is a single argument |
| Mappings.ParseCall | src/main/java/eu/smartdatalake/athenarc/osmwrangle/utils/Mapping.java:431-448 | without '(' the whole text is the function name and there are no arguments; otherwise the name is the text before the first '(' and the arguments are the trimmed, comma-split text between it and the last character; a '(' as the last character throws |
| Mappings.ParseGenerator | src/main/java/eu/smartdatalake/athenarc/osmwrangle/utils/Mapping.java:428-452 | a generator starting "geometry" loses its first 9 characters (throwing when it is shorter) and is geometric; any other generator is thematic |
| Mappings.PropsBySlot | src/main/java/eu/smartdatalake/athenarc/osmwrangle/utils/Mapping.java:407-458 | slots 0..7 go to entity type, predicate, resource type, language, instance, part, generator and data type by position; only slot 6 can fail |
| Mappings.PropsErrKept | src/main/java/eu/smartdatalake/athenarc/osmwrangle/utils/Mapping.java:407-458 | once a slot has thrown, the later slots do not change the outcome |
| Mappings.RemoveFirst | src/main/java/eu/smartdatalake/athenarc/osmwrangle/utils/Mapping.java:465 | `List.remove(key)` drops one occurrence when the key is present and changes nothing otherwise |
| Mappings.RemoveFirstAt | src/main/java/eu/smartdatalake/athenarc/osmwrangle/utils/Mapping.java:465 | the occurrence removed is the first one, and the rest keep their order |
| Mappings.StoredKey | src/main/java/eu/smartdatalake/athenarc/osmwrangle/utils/Mapping.java:468-475 | a key ending "%LANG" is stored under its prefix before the first '%'; any other key under itself |
| Mappings.FirstCovering | src/main/java/eu/smartdatalake/athenarc/osmwrangle/utils/Mapping.java:631-646 | an item returned covers the key and sits at a position k before which every item gives `Ok(false)`; none when every item gives `Ok(false)`; an error is the error of the item at a position k before which every item gives `Ok(false)` |
| Mappings.CoversPlain | src/main/java/eu/smartdatalake/athenarc/osmwrangle/utils/Mapping.java:634-635 | an item without '*' covers a key exactly when it is a prefix of the key |
| Mappings.LangVariantCovered | src/main/java/eu/smartdatalake/athenarc/osmwrangle/utils/Mapping.java:631-646 | a "%LANG" mapping covers every language variant of its stored key |
| Mappings.Mapping.constructor | src/main/java/eu/smartdatalake/athenarc/osmwrangle/utils/Mapping.java:388-394 | a new mapping table is empty |
| Mappings.Mapping.Add | src/main/java/eu/smartdatalake/athenarc/osmwrangle/utils/Mapping.java:402-479 | the properties read by position are stored under the stored key; a geometric generator adds the key to `extraGeometricAttrs`, any other to `extraThematicAttrs`; a URI profile removes the key from `extraThematicAttrs`; "%LANG" and '*' keys join `multiFacetedAttrs`; a failure stores nothing; `countMappings` grows by one exactly for a new stored key |
| Mappings.Mapping.ReadSlots | src/main/java/eu/smartdatalake/athenarc/osmwrangle/utils/Mapping.java:404-458 | the slot loop yields exactly `PropsFrom` and extends the extra attribute lists by the generator's kind |
| Mappings.Mapping.Remove | src/main/java/eu/smartdatalake/athenarc/osmwrangle/utils/Mapping.java:601-608 | returns true iff the key was present, and the key is absent afterwards, so `countMappings` drops by one exactly then |
| Mappings.Mapping.Find | src/main/java/eu/smartdatalake/athenarc/osmwrangle/utils/Mapping.java:617-621 | the properties stored under the key, or null |
| Mappings.Mapping.FindMultiFaceted | src/main/java/eu/smartdatalake/athenarc/osmwrangle/utils/Mapping.java:631-646 | the loop returns `FirstCovering` of the multi-faceted items: an item returned covers the key and every item listed before it does not |
| Mappings.Mapping.FindExtraGeometricAttr | src/main/java/eu/smartdatalake/athenarc/osmwrangle/utils/Mapping.java:654-659 | the geometric attributes whose generator function is f; an attribute without stored mapping or generator throws |
| Mappings.ResourceTypeOf | src/main/java/eu/smartdatalake/athenarc/osmwrangle/utils/Mapping.java:278-284 | the resource type when set; otherwise the predicate after its first ':' (the whole predicate without ':'); a null predicate throws |
| TripleGenerators.LastWithMeans | src/main/java/eu/smartdatalake/athenarc/osmwrangle/utils/TripleGenerator.java:128-139 | the attribute picked for a role is the last key, in iteration order, whose mapping has that role; none iff no key has it |
| TripleGenerators.PickAttributeNames | src/main/java/eu/smartdatalake/athenarc/osmwrangle/utils/TripleGenerator.java:128-139 | the loop picks the last URI, category-URI, data-source and assigned-category keys, and sets flat mapping exactly when a URI key exists and it is the only mapping |
| TripleGenerators.Bump | src/main/java/eu/smartdatalake/athenarc/osmwrangle/utils/TripleGenerator.java:205-211 | a new key gets count 1 and an existing key one more; every other count is unchanged |
| TripleGenerators.TallySnoc | src/main/java/eu/smartdatalake/athenarc/osmwrangle/utils/TripleGenerator.java:205-211 | counting one more key bumps that key |
| TripleGenerators.TallyCounts | src/main/java/eu/smartdatalake/athenarc/osmwrangle/utils/TripleGenerator.java:205-211 | after counting a sequence of keys each key's count grew by its number of occurrences |
| TripleGenerators.ExpandNamespace | src/main/java/eu/smartdatalake/athenarc/osmwrangle/utils/TripleGenerator.java:712-720 | a name without ':' throws; an unknown prefix leaves the name unchanged; a known prefix has every "prefix:" replaced by its namespace |
| TripleGenerators.ExpandOnce | src/main/java/eu/smartdatalake/athenarc/osmwrangle/utils/TripleGenerator.java:712-720 | when "prefix:" occurs only at the front, the result is the namespace followed by the local part |
| TripleGenerators.ArgValue | src/main/java/eu/smartdatalake/athenarc/osmwrangle/utils/TripleGenerator.java:468-477 | an argument that is not an attribute name keeps no '"' |
| TripleGenerators.TripleGenerator.constructor | src/main/java/eu/smartdatalake/athenarc/osmwrangle/utils/TripleGenerator.java:97-156 | no triples and no statistics; without mappings the URI, category-URI and data-source attribute names are "URI", "CATEGORY_URI" and "DATA_SOURCE"; with mappings each is the picked key or that default |
| TripleGenerators.TripleGenerator.ClearTriples | src/main/java/eu/smartdatalake/athenarc/osmwrangle/utils/TripleGenerator.java:185-197 | after `clearTriples`, `getTriples` is empty |
| TripleGenerators.TripleGenerator.UpdateStatistics | src/main/java/eu/smartdatalake/athenarc/osmwrangle/utils/TripleGenerator.java:205-211 | the statistics become `Bump` of the old ones |
| TripleGenerators.TripleGenerator.GetArgValues | src/main/java/eu/smartdatalake/athenarc/osmwrangle/utils/TripleGenerator.java:461-481 | sets the data-source attribute in the row, then returns one value per argument, in order: an attribute's value (null gives ""), or the argument itself with '"' removed |
| TripleGenerators.TripleGenerator.FirstClassified | src/main/java/eu/smartdatalake/athenarc/osmwrangle/utils/TripleGenerator.java:494-504 | a category value picked has a known UUID |
| TripleGenerators.TripleGenerator.FirstClassifiedMeans | src/main/java/eu/smartdatalake/athenarc/osmwrangle/utils/TripleGenerator.java:494-504 | the value picked is the value of some category attribute k that is non-blank, and no attribute before k has a value that is non-blank and names a category with a UUID; none iff no such value exists |
| TripleGenerators.TripleGenerator.AssignClassificationURI | src/main/java/eu/smartdatalake/athenarc/osmwrangle/utils/TripleGenerator.java:490-507 | false without a classification or a usable category value; otherwise the category URI (and assigned category) of the first usable value is set; missing category attributes throw |
| TripleGenerators.TripleGenerator.AssignCategory | src/main/java/eu/smartdatalake/athenarc/osmwrangle/utils/TripleGenerator.java:498-503 | sets the category-URI attribute to the class namespace plus the category's UUID and returns true |
| TripleGenerators.TripleGenerator.PlainTriples | src/main/java/eu/smartdatalake/athenarc/osmwrangle/utils/TripleGenerator.java:355-364 | every triple emitted is for a non-geometry attribute whose value is non-empty and lacks "Null", with that value as literal, one per counted attribute |
| TripleGenerators.TripleGenerator.TransformPlainThematic2RDF | src/main/java/eu/smartdatalake/athenarc/osmwrangle/utils/TripleGenerator.java:348-369 | the data-source attribute is set, and the triples and statistics grow exactly as `PlainFrom` over the row's keys says; each property is the ontology namespace plus the URL-encoded key with `replaceWhiteSpace` applied, then namespace-expanded |
| TripleGenerators.TripleGenerator.PlainKey | src/main/java/eu/smartdatalake/athenarc/osmwrangle/utils/TripleGenerator.java:356-363 | one attribute: one triple (property `replaceWhiteSpace(ontologyNS + encode(key))`, namespace-expanded) and one count when it qualifies, nothing otherwise; an exception stops the loop |
| TripleGenerators.TripleGenerator.PlainStopsForGood | src/main/java/eu/smartdatalake/athenarc/osmwrangle/utils/TripleGenerator.java:350-368 | after an exception no later attribute is transformed |
| TripleGenerators.TripleGenerator.PlainCoversEmitting | src/main/java/eu/smartdatalake/athenarc/osmwrangle/utils/TripleGenerator.java:355-364 | without an exception the counted attributes are exactly the qualifying ones, in order |
| Assistants.NullOrEmptyOnlyEmpty | src/main/java/eu/smartdatalake/athenarc/osmwrangle/utils/Assistant.java:220-228 | a text is null-or-empty exactly when it is null or has length 0; a blank but non-empty text is not |
| Assistants.GetOutputExtension | src/main/java/eu/smartdatalake/athenarc/osmwrangle/utils/Assistant.java:191-211 | ".ttl" exactly for TURTLE, TTL and N3, ".trig" exactly for TRIG, ".nt" exactly for N-TRIPLES and ".rdf" for every other name, compared upper-cased |
| Assistants.OutputExtensionIgnoresCase | src/main/java/eu/smartdatalake/athenarc/osmwrangle/utils/Assistant.java:193 | lower- or upper-casing the serialization name does not change the extension |
| Assistants.KeepPhoneChars | src/main/java/eu/smartdatalake/athenarc/osmwrangle/utils/Assistant.java:1059 | only '+' and digits are kept, each of them as often as it occurs in the text, and a text made only of them is kept whole |
| Assistants.KeepPhoneCharsConcat | src/main/java/eu/smartdatalake/athenarc/osmwrangle/utils/Assistant.java:1059 | filtering a concatenation is the concatenation of the filtered parts, so the kept characters keep their order |
| Assistants.LeadingZeros | src/main/java/eu/smartdatalake/athenarc/osmwrangle/utils/Assistant.java:1065 | the number of leading '0's, at most the cap: all counted characters are '0' and the next one is not |
| Assistants.ZerosToPlus | src/main/java/eu/smartdatalake/athenarc/osmwrangle/utils/Assistant.java:1065 | 1 to 4 leading zeros become one '+'; a text without a leading zero is unchanged |
| Assistants.StandardizeCases | src/main/java/eu/smartdatalake/athenarc/osmwrangle/utils/Assistant.java:1054-1067 | for a non-blank phone: raises exactly when nothing or only "0" is kept; a single leading '0' becomes "+" and the country code; otherwise leading zeros become '+' and other numbers are kept |
| Assistants.StandardizeIdempotent | src/main/java/eu/smartdatalake/athenarc/osmwrangle/utils/Assistant.java:1054-1067 | with a numeric country code a normalised number is made of '+' and digits and normalises to itself |
| Assistants.NormalisedIsFixed | src/main/java/eu/smartdatalake/athenarc/osmwrangle/utils/Assistant.java:1059-1065 | a text of '+' and digits not starting with '0' normalises to itself |
| Assistants.PhoneWithoutDigitsRaises | src/main/java/eu/smartdatalake/athenarc/osmwrangle/utils/Assistant.java:1059-1061 | "n/a" keeps nothing, so the substring raises instead of the number being null |
| Assistants.NormalisePhoneNumber | src/main/java/eu/smartdatalake/athenarc/osmwrangle/utils/Assistant.java:1054-1067 | the corrected normalisation never raises: null exactly for a null or blank number or one with no '+' or digit, otherwise a non-empty text not starting with '0' |
| Assistants.NormaliseAgrees | src/main/java/eu/smartdatalake/athenarc/osmwrangle/utils/Assistant.java:1054-1067 | the corrected normalisation agrees with `standardizePhoneNumber` wherever that does not raise |
| Assistants.NormaliseIdempotent | src/main/java/eu/smartdatalake/athenarc/osmwrangle/utils/Assistant.java:1054-1067 | with a numeric country code the corrected normalisation is idempotent |
| Assistants.NormalisedIsFixedPoint | src/main/java/eu/smartdatalake/athenarc/osmwrangle/utils/Assistant.java:1059-1065 | the corrected normalisation leaves a text of '+' and digits not starting with '0' unchanged |
| Assistants.GetLanguage | src/main/java/eu/smartdatalake/athenarc/osmwrangle/utils/Assistant.java:1182-1188 | a negative index raises; null exactly when the name is not longer than the index; otherwise the suffix from the index, so the prefix and the tag make up the name |
| Assistants.ConcatenateTrimmed | src/main/java/eu/smartdatalake/athenarc/osmwrangle/utils/Assistant.java:1219-1222 | two non-empty trimmed values are joined by exactly two spaces |
| Assistants.ConcatenateBlanks | src/main/java/eu/smartdatalake/athenarc/osmwrangle/utils/Assistant.java:1219-1222 | two blank values concatenate to the empty text |
| Assistants.ConcatenateBlankSecond | src/main/java/eu/smartdatalake/athenarc/osmwrangle/utils/Assistant.java:1219-1222 | a blank second value leaves a trimmed first value unchanged |
| Assistants.NextLong | src/main/java/eu/smartdatalake/athenarc/osmwrangle/utils/Assistant.java:1075-1077 | `getAndIncrement` stays within the `long` range and adds one below the largest value |
| Assistants.SerialsConsecutive | src/main/java/eu/smartdatalake/athenarc/osmwrangle/utils/Assistant.java:1075-1077 | from a fresh counter the k-th increment gives k + 1, so serials are 1, 2, 3, … |
| Assistants.SerialGenerator.constructor | src/main/java/eu/smartdatalake/athenarc/osmwrangle/utils/Assistant.java:96 | the counter starts at 1 |
| Assistants.SerialGenerator.GetNextSerial | src/main/java/eu/smartdatalake/athenarc/osmwrangle/utils/Assistant.java:1075-1077 | returns the current value and moves the counter to its `long` successor |
| Assistants.FilterThematic | src/main/java/eu/smartdatalake/athenarc/osmwrangle/utils/Assistant.java:982-986 | no filter excludes nothing; otherwise a record is excluded exactly when the filter evaluates to false, kept exactly when it evaluates to true, and an evaluation error propagates |
| OsmCsvConverters.LineBreaksToSpaces | src/main/java/eu/smartdatalake/athenarc/osmwrangle/utils/OsmCsvConverter.java:107 | no CR or LF is left, and a text without them is unchanged |
| OsmCsvConverters.FormatString | src/main/java/eu/smartdatalake/athenarc/osmwrangle/utils/OsmCsvConverter.java:106-108 | the formatted text holds no CR, LF or '\|' |
| OsmCsvConverters.FormatStringIdempotent | src/main/java/eu/smartdatalake/athenarc/osmwrangle/utils/OsmCsvConverter.java:106-108 | formatting a formatted text changes nothing |
| OsmCsvConverters.PutTagsMaps | src/main/java/eu/smartdatalake/athenarc/osmwrangle/utils/OsmCsvConverter.java:93-95 | every comma-separated part of a mapping value maps to that property's column |
| OsmCsvConverters.PutTagsKeeps | src/main/java/eu/smartdatalake/athenarc/osmwrangle/utils/OsmCsvConverter.java:93-95 | a tag not among the parts keeps its earlier column, or stays absent |
| OsmCsvConverters.PutTagsListed | src/main/java/eu/smartdatalake/athenarc/osmwrangle/utils/OsmCsvConverter.java:89-95 | after one entry every mapped column is listed, the entry's key added to the columns |
| OsmCsvConverters.ReadOneMore | src/main/java/eu/smartdatalake/athenarc/osmwrangle/utils/OsmCsvConverter.java:89-96 | reading one more entry appends its key to the columns and puts its parts into the tag map |
| OsmCsvConverters.LastEntryWins | src/main/java/eu/smartdatalake/athenarc/osmwrangle/utils/OsmCsvConverter.java:93-95 | a tag named by the last entry maps to that entry's column |
| OsmCsvConverters.LaterEntriesKeep | src/main/java/eu/smartdatalake/athenarc/osmwrangle/utils/OsmCsvConverter.java:93-95 | a tag the last entry does not name keeps what the earlier entries gave it |
| OsmCsvConverters.TagMapColumnsListed | src/main/java/eu/smartdatalake/athenarc/osmwrangle/utils/OsmCsvConverter.java:89-96 | every column a tag maps to is one of the columns read, so each lookup of a column's running value finds one |
| OsmCsvConverters.CsvCategory | src/main/java/eu/smartdatalake/athenarc/osmwrangle/utils/OsmCsvConverter.java:229 | the CSV category holds '\|' and no '_'; without '_' it is the category followed by '\|' |
| OsmCsvConverters.NameKey | src/main/java/eu/smartdatalake/athenarc/osmwrangle/utils/OsmCsvConverter.java:251-252 | "NAME" is counted exactly when the record has a name |
| OsmCsvConverters.Screen | src/main/java/eu/smartdatalake/athenarc/osmwrangle/utils/OsmCsvConverter.java:184-238 | a record is accepted exactly when its geometry is non-null and non-empty, inside the spatial filter, not excluded by the thematic filter and has a category; an exception of the thematic filter drops it uncounted |
| OsmCsvConverters.EmptyColumns | src/main/java/eu/smartdatalake/athenarc/osmwrangle/utils/OsmCsvConverter.java:254-257 | the running record has exactly the mapped columns, each "" |
| OsmCsvConverters.MergeTags | src/main/java/eu/smartdatalake/athenarc/osmwrangle/utils/OsmCsvConverter.java:259-274 | merging keeps the set of columns |
| OsmCsvConverters.ValuesFor | src/main/java/eu/smartdatalake/athenarc/osmwrangle/utils/OsmCsvConverter.java:263-271 | the values gathered for a column are all non-empty |
| OsmCsvConverters.MergeTagsStep | src/main/java/eu/smartdatalake/athenarc/osmwrangle/utils/OsmCsvConverter.java:263-271 | one more tag: an empty column takes the value, otherwise a non-empty value is appended after ';', an empty one is skipped |
| OsmCsvConverters.MergeJoinsValues | src/main/java/eu/smartdatalake/athenarc/osmwrangle/utils/OsmCsvConverter.java:259-274 | each column ends up as the ';'-join of the non-empty values of the tags mapped to it, in iteration order |
| OsmCsvConverters.ColumnsStep | src/main/java/eu/smartdatalake/athenarc/osmwrangle/utils/OsmCsvConverter.java:276-281 | one more column adds its formatted value to the row, and counts it exactly when its value is non-empty |
| OsmCsvConverters.OsmCsvConverter.constructor | src/main/java/eu/smartdatalake/athenarc/osmwrangle/utils/OsmCsvConverter.java:116-149 | no records, no rejects, no statistics, no rows; the columns and tag map are those read from the mapping entries |
| OsmCsvConverters.OsmCsvConverter.ReadAttrMappingFile | src/main/java/eu/smartdatalake/athenarc/osmwrangle/utils/OsmCsvConverter.java:82-101 | appends each entry's key to the columns and maps every part of its value to that key, entry by entry |
| OsmCsvConverters.OsmCsvConverter.PutMappingTags | src/main/java/eu/smartdatalake/athenarc/osmwrangle/utils/OsmCsvConverter.java:93-95 | the tag map becomes `PutTags` of the old one |
| OsmCsvConverters.OsmCsvConverter.UpdateStatistics | src/main/java/eu/smartdatalake/athenarc/osmwrangle/utils/OsmCsvConverter.java:306-312 | a new key gets count 1, an existing one one more |
| OsmCsvConverters.OsmCsvConverter.Parse | src/main/java/eu/smartdatalake/athenarc/osmwrangle/utils/OsmCsvConverter.java:171-298 | every call counts one record; a rejected record is counted as rejected and writes nothing; exactly an accepted record writes a row, which is what `WriteRecord` writes |
| OsmCsvConverters.OsmCsvConverter.WriteRecord | src/main/java/eu/smartdatalake/athenarc/osmwrangle/utils/OsmCsvConverter.java:240-287 | the row holds id, name, CSV category, SRID, each column's merged formatted value and the tags left after removing every mapped key; the name and the non-empty columns are counted |
| OsmCsvConverters.OsmCsvConverter.MergeRecordTags | src/main/java/eu/smartdatalake/athenarc/osmwrangle/utils/OsmCsvConverter.java:254-274 | the merged columns are `MergeTags` over the tag map's keys, and every mapped key is removed from the record's tags |
| OsmCsvConverters.OsmCsvConverter.CountColumns | src/main/java/eu/smartdatalake/athenarc/osmwrangle/utils/OsmCsvConverter.java:276-281 | the formatted values of all columns in order, and the statistics bumped for every non-empty one |
| OsmCsvConverters.OsmCsvConverter.CountColumn | src/main/java/eu/smartdatalake/athenarc/osmwrangle/utils/OsmCsvConverter.java:277-280 | one column more of the formatted values and of the statistics |
| IoUtils.IndexOfLastSeparator | src/main/java/io/github/qmjy/mapserver/util/IOUtils.java:73-81 | -1 for null; otherwise the position of the last '/' or '\\', or -1, with no separator after it |
| IoUtils.FailIfNullBytePresent | src/main/java/io/github/qmjy/mapserver/util/IOUtils.java:83-92 | raises exactly when the path holds a NUL character |
| IoUtils.GetName | src/main/java/io/github/qmjy/mapserver/util/IOUtils.java:63-71 | null for null; raises exactly for a path with a NUL; otherwise a name |
| IoUtils.IndexOfExtension | src/main/java/io/github/qmjy/mapserver/util/IOUtils.java:103-111 | -1 for null; otherwise the position of a '.' after which there is no '.' and no separator, and -1 only when the last segment has no '.' |
| IoUtils.GetExtension | src/main/java/io/github/qmjy/mapserver/util/IOUtils.java:94-101 | null exactly for null; "" when there is no extension; otherwise a suffix of the path holding no '.' and no separator |
| IoUtils.RemoveExtension | src/main/java/io/github/qmjy/mapserver/util/IOUtils.java:113-121 | null for null; raises exactly for a path with a NUL; otherwise a path without an extension comes back unchanged, and one with an extension is the returned base, the dot and `getExtension`'s text |
| IoUtils.GetNameIsLastSegment | src/main/java/io/github/qmjy/mapserver/util/IOUtils.java:63-81 | the name is a suffix of the path without separators, preceded by a separator or the whole path |
| IoUtils.ExtensionRoundTrip | src/main/java/io/github/qmjy/mapserver/util/IOUtils.java:94-121 | a path with an extension is its extension removed, a '.', and its extension |
| IoUtils.NoSeparatorInName | src/main/java/io/github/qmjy/mapserver/util/IOUtils.java:68-79 | the text after the last separator holds no separator |
| IoUtils.NameOf | src/main/java/io/github/qmjy/mapserver/util/IOUtils.java:63-71 | the name is the text after the last separator; it has no NUL and no separator |
| IoUtils.GetNameIdempotent | src/main/java/io/github/qmjy/mapserver/util/IOUtils.java:63-71 | the name of a name is itself |
| IoUtils.ExtensionAfterSeparator | src/main/java/io/github/qmjy/mapserver/util/IOUtils.java:103-111 | an extension's dot lies after the last separator |
| IoUtils.DotInName | src/main/java/io/github/qmjy/mapserver/util/IOUtils.java:103-111 | the extension's dot sits at the same place in the name as in the path, shifted by the directory part |
| IoUtils.NoDotInName | src/main/java/io/github/qmjy/mapserver/util/IOUtils.java:103-111 | a path without an extension has a name without one |
| IoUtils.ExtensionOfName | src/main/java/io/github/qmjy/mapserver/util/IOUtils.java:63-111 | the extension of the name is the extension of the path |
| IoUtils.BaseNameIsPlain | src/main/java/io/github/qmjy/mapserver/util/IOUtils.java:59-61 | the base name of a path without NUL exists and holds no separator and no NUL |
| SystemUtils.ContainsChar | src/main/java/io/github/qmjy/mapserver/util/SystemUtils.java:5 | a one-character text is contained exactly when that character occurs |
| SystemUtils.ContainsDots | src/main/java/io/github/qmjy/mapserver/util/SystemUtils.java:5 | ".." is contained exactly when two adjacent dots occur |
| SystemUtils.CheckTilesetNameIff | src/main/java/io/github/qmjy/mapserver/util/SystemUtils.java:4-6 | a tileset name is flagged exactly when it holds '/', '\\' or two adjacent dots |
| SystemUtils.CheckTilesetName | src/main/java/io/github/qmjy/mapserver/util/SystemUtils.java:4-6 | `checkTilesetName`: true when the name contains "..", '/' or '\\'; `CheckTilesetNameIff` states this position by position |
| SystemUtils.AcceptedNameIsOwnFileName | src/main/java/io/github/qmjy/mapserver/util/SystemUtils.java:4-6 | a name that passes (and has no NUL) is its own file name, so it cannot leave the tiles directory |
| SystemUtils.SingleDotsPass | src/main/java/io/github/qmjy/mapserver/util/SystemUtils.java:5 | "a.mbtiles" passes |
| SystemUtils.ParentReferenceFlagged | src/main/java/io/github/qmjy/mapserver/util/SystemUtils.java:5 | "../a.mbtiles" is flagged |
| Responses.Build | src/main/java/io/github/qmjy/mapserver/util/ResponseMapUtil.java:67-125 | every response map has exactly the keys "code", "msg" and "data" |
| Responses.Decode | src/main/java/io/github/qmjy/mapserver/util/ResponseMapUtil.java:67-125 | a map reads back as a response only when it has all three keys |
| Responses.Ok | src/main/java/io/github/qmjy/mapserver/util/ResponseMapUtil.java:67-73 | code 0 (STATUS_OK), an empty message and the data "Nothing" |
| Responses.OkData | src/main/java/io/github/qmjy/mapserver/util/ResponseMapUtil.java:81-87 | code 0, an empty message and the given data |
| Responses.NotFoundMsg | src/main/java/io/github/qmjy/mapserver/util/ResponseMapUtil.java:104-110 | code 1 (STATUS_NOT_FOUND), the given message and empty data |
| Responses.NotFound | src/main/java/io/github/qmjy/mapserver/util/ResponseMapUtil.java:94-96 | code 1 with the message "Not found!" and empty data |
| Responses.Nok | src/main/java/io/github/qmjy/mapserver/util/ResponseMapUtil.java:119-125 | the given code and message with empty data |
| Responses.BuildDecodeInverse | src/main/java/io/github/qmjy/mapserver/util/ResponseMapUtil.java:67-125 | building then reading back gives the same code, message and data, and a three-key map is determined by what it reads back as |
| Responses.OkIsOkNothing | src/main/java/io/github/qmjy/mapserver/util/ResponseMapUtil.java:67-87 | `ok()` is `ok("Nothing")` |
| Responses.NokIsNotFound | src/main/java/io/github/qmjy/mapserver/util/ResponseMapUtil.java:104-125 | `nok(code, msg)` is `notFound(msg)` exactly when the code is STATUS_NOT_FOUND |
| Responses.OkDiffersFromNotFound | src/main/java/io/github/qmjy/mapserver/util/ResponseMapUtil.java:32-110 | a successful response is never a not-found one |
| LayerFilter.IncludeMeaning | src/main/java/no/ecc/vectortile/Filter.java:28-69 | ALL includes every layer, Single exactly its one name, Any exactly the names in its set |
| LayerFilter.Include | src/main/java/no/ecc/vectortile/Filter.java:26-69 | `include` of the three filter kinds; `IncludeMeaning` states which layers each includes |
| LayerFilter.AnyOfOneIsSingle | src/main/java/no/ecc/vectortile/Filter.java:40-69 | Any over a one-name set includes the same layers as Single of that name |
| LayerFilter.AnyOfUnion | src/main/java/no/ecc/vectortile/Filter.java:58-69 | Any over a union includes what either part includes |
| LayerFilter.AnyOfNothing | src/main/java/no/ecc/vectortile/Filter.java:58-69 | Any over no names includes no layer |
| CoordinateSwap.SwapXY | src/main/java/com/example/CoordinateSwapper.java:16-19 | x and y are exchanged and z is kept |
| CoordinateSwap.SwapTwice | src/main/java/com/example/CoordinateSwapper.java:16-19 | swapping twice gives the coordinate back |
| CoordinateSwap.SwapAll | src/main/java/com/example/CoordinateSwapper.java:15-19 | every coordinate of a sequence is swapped, in place order kept |
| CoordinateSwap.CoordinateSwapper.constructor | src/main/java/com/example/CoordinateSwapper.java:12 | a new swapper is not done |
| CoordinateSwap.CoordinateSwapper.Filter | src/main/java/com/example/CoordinateSwapper.java:15-23 | swaps the i-th coordinate only, and becomes done when i is the last index |
| CoordinateSwap.CoordinateSwapper.IsDone | src/main/java/com/example/CoordinateSwapper.java:26-28 | reports the done flag |
| CoordinateSwap.CoordinateSwapper.IsGeometryChanged | src/main/java/com/example/CoordinateSwapper.java:31-33 | always true |
| CoordinateSwap.ApplyToSequence | src/main/java/com/example/CoordinateSwapper.java:15-37 | one coordinate sequence is swapped whole, and the swapper is done afterwards exactly when the sequence is non-empty |
| CoordinateSwap.FirstNonEmpty | src/main/java/com/example/CoordinateSwapper.java:20-22 | the index of the first non-empty part: all before it are empty |
| CoordinateSwap.AsWritten | src/main/java/com/example/CoordinateSwapper.java:20-37 | the parts up to the first non-empty one are swapped, every later part is left as it was |
| CoordinateSwap.StoppedAtFirst | src/main/java/com/example/CoordinateSwapper.java:20-37 | once the first non-empty part is swapped the geometry is as `AsWritten` says |
| CoordinateSwap.SwapCoordinates | src/main/java/com/example/CoordinateSwapper.java:35-37 | `swapCoordinates` leaves the geometry's parts as `AsWritten` of the old ones |
| CoordinateSwap.SinglePartComplete | src/main/java/com/example/CoordinateSwapper.java:35-37 | a geometry with at most one part is swapped whole |
| CoordinateSwap.AsWrittenCompleteIf | src/main/java/com/example/CoordinateSwapper.java:20-37 | the written swap agrees with the intended one when every later part is unchanged by swapping |
| CoordinateSwap.AsWrittenCompleteOnlyIf | src/main/java/com/example/CoordinateSwapper.java:20-37 | and only then |
| CoordinateSwap.SecondPartLeftUnswapped | src/main/java/com/example/CoordinateSwapper.java:20-37 | the two-part geometry [(1,2)], [(3,4)] comes out as [(2,1)], [(3,4)], not the intended swap |
| CoordinateSwap.Intended | src/main/java/com/example/CoordinateSwapper.java:8-37 | every coordinate of every part swapped |
| CoordinateSwap.IntendedTwice | src/main/java/com/example/CoordinateSwapper.java:8-37 | swapping a geometry twice gives it back |
| CoordinateSwap.FullCoordinateSwapper.Filter | src/main/java/com/example/CoordinateSwapper.java:15-19 | swaps the i-th coordinate only |
| CoordinateSwap.FullCoordinateSwapper.IsDone | src/main/java/com/example/CoordinateSwapper.java:26-28 | never done, so every part is visited |
| CoordinateSwap.ApplyFullToSequence | src/main/java/com/example/CoordinateSwapper.java:15-19 | one coordinate sequence is swapped whole |
| CoordinateSwap.SwapCoordinatesFixed | src/main/java/com/example/CoordinateSwapper.java:35-37 | every part of the geometry is swapped |
| TilesView.Divisor | src/main/java/io/github/qmjy/mapserver/model/TilesViewModel.java:59-66 | each unit's divisor (1, 1024, 1024², 1024³) is positive |
| TilesView.UnitOfIsUnique | src/main/java/io/github/qmjy/mapserver/model/TilesViewModel.java:59-66 | the unit chosen for a size is exactly the one whose range holds it: KB for [1024, 1024²), MB for [1024², 1024³), GB from 1024³, B otherwise |
| TilesView.UnitOf | src/main/java/io/github/qmjy/mapserver/model/TilesViewModel.java:59-66 | the unit `formatFileSize` picks for a size; `UnitOfIsUnique` and `UnitOfFits` characterise it by ranges |
| TilesView.UnitOfFits | src/main/java/io/github/qmjy/mapserver/model/TilesViewModel.java:59-66 | the chosen unit is the largest that fits: its divisor is at most the size (or the size is under 1024), and below GB the size is under 1024 of it |
| TilesView.NatToStringRoundTrip | src/main/java/io/github/qmjy/mapserver/model/TilesViewModel.java:66 | the decimal text of a natural number reads back as that number |
| TilesView.LongToStringRoundTrip | src/main/java/io/github/qmjy/mapserver/model/TilesViewModel.java:66 | `Long.toString` of any number reads back as that number |
| TilesView.NegativeRoundTrip | src/main/java/io/github/qmjy/mapserver/model/TilesViewModel.java:66 | a '-' before the digits of a positive number reads back as its negation |
| TilesView.FormatFileSizeUnit | src/main/java/io/github/qmjy/mapserver/model/TilesViewModel.java:57-69 | the text ends in the chosen unit's name; in bytes it is the plain number and "B"; otherwise the scaled value is at least 1, and below 1024 for KB and MB |
| TilesView.FormatFileSize | src/main/java/io/github/qmjy/mapserver/model/TilesViewModel.java:57-69 | `formatFileSize`: the scaled value and the unit name; `FormatFileSizeUnit` states the suffix, the byte case and the scaled value's range |
| TilesView.TypeOf | src/main/java/io/github/qmjy/mapserver/model/TilesViewModel.java:40 | the type of a file without '.' raises; otherwise none is raised |
| TilesView.TypeIsLastDotSuffix | src/main/java/io/github/qmjy/mapserver/model/TilesViewModel.java:40 | a file's type is the suffix from its last '.' on |
| TilesView.MakeView | src/main/java/io/github/qmjy/mapserver/model/TilesViewModel.java:37-47 | raises exactly when the type does; otherwise the name and metadata are the file's, a directory has empty type and size, and a file's size is its formatted length |
| AdminDivision.AdministrativeDivisionNode.constructor | src/main/java/io/github/qmjy/mapserver/model/AdministrativeDivisionNode.java:69-76 | the fields are the arguments and there are no children |
| AdminDivision.AdministrativeDivisionNode.FromFeature | src/main/java/io/github/qmjy/mapserver/model/AdministrativeDivisionNode.java:49-57 | the id and geometry are the feature's, the name is the local name or else the name, the English name is "name_en" or "", the level is "admin_level" or -1, and there are no children |
| AdminDivision.AdministrativeDivisionNode.Clone | src/main/java/io/github/qmjy/mapserver/model/AdministrativeDivisionNode.java:84-99 | the clone is fresh with the same fields, and its children are fresh copies of the old children's fields, in order, with no children of their own; the original node is not modified |
| AdminDivision.CopyChildren | src/main/java/io/github/qmjy/mapserver/model/AdministrativeDivisionNode.java:87-92 | one fresh childless copy per old child, fields equal, in order |
| AdminDivision.WrapAt | src/main/java/io/github/qmjy/mapserver/model/AdministrativeDivision.java:55-61 | the j-th wrapped child is the division of the j-th child |
| AdminDivision.Wrap | src/main/java/io/github/qmjy/mapserver/model/AdministrativeDivision.java:55-61 | one division for every remaining child of the node |
| AdminDivision.ToDivisionAt | src/main/java/io/github/qmjy/mapserver/model/AdministrativeDivision.java:47-61 | along any path of child indexes the division has a node exactly when the tree does, with the same id, parent, level and child count, and the local name for language 0 and the English name otherwise |
| AdminDivision.ToDivision | src/main/java/io/github/qmjy/mapserver/model/AdministrativeDivision.java:47-53 | the `AdministrativeDivision(node, langType)` constructor: id, parent, level, the name for the language, and the wrapped children; `ToDivisionAt` states the shape along every path |
| DataCenter.MapServerDataCenter.constructor | src/main/java/io/github/qmjy/mapserver/MapServerDataCenter.java:63-76 | the tilesets, the blocked names and the fonts start empty |
| DataCenter.MapServerDataCenter.InitJdbcTemplate | src/main/java/io/github/qmjy/mapserver/MapServerDataCenter.java:123-131 | a loaded name is never replaced and only a valid model is added; the blocked names and fonts are unchanged, and every loaded model stays valid |
| DataCenter.MapServerDataCenter.IndexTpk | src/main/java/io/github/qmjy/mapserver/MapServerDataCenter.java:138-148 | a loaded or blocked name is skipped; otherwise a valid package is loaded and an invalid one's name blocked; no name is both loaded and blocked afterwards |
| DataCenter.MapServerDataCenter.InitFontsFile | src/main/java/io/github/qmjy/mapserver/MapServerDataCenter.java:178-180 | the font folder is registered under its name and can then be looked up |
| DataCenter.MapServerDataCenter.ReleaseDataSource | src/main/java/io/github/qmjy/mapserver/MapServerDataCenter.java:370-392 | only a present key ending ".mbtiles" or ".tpk" is removed, everything else is unchanged, and its metadata is then empty |
| DataCenter.MapServerDataCenter.GetTileMetaData | src/main/java/io/github/qmjy/mapserver/MapServerDataCenter.java:411-419 | an empty or unknown name gives an empty map; a loaded one its model's metadata |
| DataCenter.MapServerDataCenter.GetFontFolder | src/main/java/io/github/qmjy/mapserver/MapServerDataCenter.java:428-436 | present exactly for a non-empty known name, and then that name's font model |
| DataCenter.Contains | src/main/java/io/github/qmjy/mapserver/MapServerDataCenter.java:302-309 | true exactly when some direct child has the id |
| DataCenter.FindNode | src/main/java/io/github/qmjy/mapserver/MapServerDataCenter.java:336-352 | the node itself when its id matches; otherwise a node of the subtree with that id, and empty only when no node of the subtree has it |

## Left out

- Geometry is abstract: a handle that is empty or not, or a collection of geometries. JTS geometry construction is not modelled: ring and multipolygon merging in the record builder, WKT text, reprojection, the minimum bounding rectangle, and longitude/latitude extraction.
- OsmRecordBuilders.OSMRecordBuilder.constructor: in Java `filters` is a `static` field (OSMRecordBuilder.java:45), so constructing a second builder replaces the filters of every existing one; in the model each builder keeps its own. The Java constructor also leaves `incompleteRelations` and the three indexes unset (null until a caller assigns them), while the model takes the indexes as arguments and starts `incompleteRelations` empty.
- The relation record takes the outcome of the type-specific branches (multilinestring, route, multipolygon, boundary) as a parameter: a geometry, none, or an exception that the `catch` swallows. How those branches build or fail to build a geometry is JTS work and not modelled; the fallback to member geometries and the skipping of it after an exception are.
- Deciding whether a geometry lies inside the spatial filter is a boolean parameter of the CSV converter's `parse`.
- Floating point:
  - The `%.2f` formatting of file sizes is a function parameter; the unit choice and the scaled value's range are proved.
  - Coordinates are reals, because the swapper only moves them.
  - Embedding scores are reals, compared as in the source.
- The embedded classifier (Jaro-Winkler similarity over a resource file) is a function parameter of the classification reader. So are UUID generation (a name-based UUID), URL encoding in the triple generator, and `ValueChecker.replaceWhiteSpace`, a `String.replace` whose search and replacement texts come from an external resource file.
- Parsing numbers in the ordering operators (`NumberUtils.isCreatable`, `Double.parseDouble`) is a parameter: a predicate for numeric text and a parser into Java doubles, which are finite values, NaN or an infinity. The comparisons follow Java's rules on those, NaN included. The rounding of decimal text to binary doubles is not modelled: finite values are exact reals.
- Java `HashMap` iteration order is unspecified, so it is given as a parameter, a sequence of the map's keys. This applies to:
  - the tag-to-column merge of the CSV converter;
  - the attribute loop of the triple generator's constructor;
  - the plain mapping of a row.
- `searchById` visits categories in that unspecified order; the model fixes one order as a parameter.
- The OrExpr and AndExpr classes are not part of this model. Their grammar is taken as one child followed by more children while OR or AND follows, evaluated left to right with short-circuiting.
- File, stream and database I/O are not modelled: the mapping properties file, the YML and filter files (given as sequences of lines), the CSV writer, JDBC and TPK opening (a `TilesFileModel` is a parameter with its validity), the connection close and WAL checkpoint on release, progress notification, and logging.
- OSM `null` names, ids and types are `None`. A Java `Map.put(k, null)` is modelled as the key being absent wherever the source then reads it back with `get`.
- The `==` comparison with "" in the CSV converter's merge, and the `!=` comparison with "" that decides whether a column is counted in the statistics, compare references in Java. Both are modelled as content comparison: the intended behaviour, and what happens for the interned empty literal.
- The put of the category attribute into `attrValues` after the thematic filter of the CSV converter is not modelled, because nothing reads that map afterwards.
- OsmCsvConverters.OsmCsvConverter.Parse: `numRec`, `rejectedRec` and the statistics are unbounded integers. The 32-bit `int` wrap-around after 2^31 records is not modelled.
- TripleGenerators.TripleGenerator.UpdateStatistics: the counts are unbounded integers. The `Integer` wrap-around is not modelled.
- ExpressionEval.LikeText: a LIKE literal holding a regular-expression metacharacter other than '%' and '?' yields `UnsupportedPattern`. The model does not follow Java's regex semantics for such literals.
- Mappings.Mapping.Add: when a later slot throws, the contract does not say which extra-attribute lists were already extended. It states only that the mapping table is unchanged.
- Mappings.Mapping.FindExtraGeometricAttr: the contract states which attributes are returned, not their order.
- DataCenter.FindNode: when several nodes of the subtree carry the id, the contract does not say which one is returned. The source returns the first in depth-first pre-order.
- TripleGenerators.TripleGenerator.constructor: receives the category attribute names already split. The source splits the configured text at commas with `split("\\s*,\\s*")`, which drops blanks around each comma.
- CoordinateSwap.SwapCoordinates: the geometry's parts are required to be distinct sequences, and so are those of CoordinateSwap.SwapCoordinatesFixed. A geometry whose parts share one coordinate sequence object, so that swapping one part swaps another, is not modelled.
- Case mapping and string indexing follow ASCII and Unicode scalar values. Java's `toUpperCase`, `toLowerCase` and `equalsIgnoreCase` are Unicode-aware and locale-dependent, and Java indexes strings by UTF-16 code unit. So `"urı".equalsIgnoreCase("URI")` is true in Java and false in the model, and a Turkish default locale upper-cases "trig" to "TRİG". This affects Mappings.DataTypeOf, Mappings.ProfileOf, Mappings.DataTypeIgnoresCase, Assistants.GetOutputExtension, Assistants.OutputExtensionIgnoresCase, ExpressionEval.LikeIgnoresCase, and every position and substring in Assistants.GetLanguage and the other string helpers, for text outside the Basic Multilingual Plane or non-ASCII letters.
- `getResourceTypeFunction` of the mapping table is not modelled, because it is only a getter of the parsed generator. `HAS_DATA_TYPE_URL` is chosen when the data type is `xsd:anyURI`. The source instead asks whether the Jena data type's class accepts `XSDanyURI` as an instance, which depends on Jena's class hierarchy.
- The remaining `Assistant` built-ins are not part of this model, because they are library calls: transliteration, date standardisation, UUIDs, reprojection, geometry measures and file merging.
- `OSMRecordBuilder` receives its three indexes at construction. In the source they are fields the caller assigns.
- Relations in `incompleteRelations` are compared by value; the source's `contains` uses `equals`, which `OSMRelation` does not override, so it compares identity.
- `AdministrativeDivisionNode` keeps its geometry as an opaque value of a type parameter. `getAttribute` on a feature is modelled as a record of optional fields, in which "name" and "osm_id" are assumed present. In Java, a feature with neither "local_name" nor "name" gets a null name, which the model's node name cannot hold. A missing "osm_id" throws a NullPointerException when it is unboxed.
- The legacy `io.github.qmjy.mapbox` package is not part of this model, because it is an older copy of the map-server code.

## Findings

| source | as written | input that shows it | evidently intended | confidence | as-written member | corrected member |
|---|---|---|---|---|---|---|
| src/main/java/eu/smartdatalake/athenarc/osmwrangle/utils/Assistant.java:1059-1061 | after removing every character except '+' and digits, `substring(0, 1)` and `substring(1, 2)` are taken unchecked, so a non-blank number with nothing left (or only "0") throws `StringIndexOutOfBoundsException` | `standardizePhoneNumber("n/a", "49")` | such a number gives null, as a blank one does, and a lone "0" is treated like any other leading zero | not executed; follows from `String.substring` bounds | Assistants.PhoneWithoutDigitsRaises | Assistants.NormalisePhoneNumber |
| src/main/java/com/example/CoordinateSwapper.java:20-22 | `done` is set at the last index of the first coordinate sequence visited, and the geometry traversal stops at `isDone`, so later parts of a multi-part geometry (polygon holes, collection members) are not swapped | a geometry with the parts [(1,2)] and [(3,4)] becomes [(2,1)], [(3,4)] | every coordinate of every part is swapped | not executed; relies on the traversal stopping once `isDone` is true | CoordinateSwap.SecondPartLeftUnswapped | CoordinateSwap.SwapCoordinatesFixed |
