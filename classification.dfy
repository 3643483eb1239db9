/**
 * A classification scheme read from a YML file: one category per line,
 * each pair of leading spaces one level deeper, "name # id" on every line.
 * Categories are kept by name, their UUIDs by original identifier.
 */
module Classifications {
  import opened Wrappers
  import opened JavaStrings
  import opened Categories

  /** The deepest level a classification may have. */
  const MaxLevels: nat := 10

  /** The embedded classifier: the closest default category for a name, with a similarity score. */
  type Classifier = string -> (Option<string>, real)

  /** `searchById` dereferences every identifier it compares. */
  datatype SearchError = NullId

  /** What one line of the YML file holds. */
  datatype YmlLine = Blank | TooDeep | NoHash | Item(level: nat, name: string, id: string)

  /**
   * A blank line is skipped; otherwise the level is half the leading space
   * count, and the trimmed line splits at its first '#' into name and
   * identifier (further '#' in the identifier become spaces).
   */
  function ClassifyYmlLine(line: string): YmlLine
  {
    var t := Trim(line);
    if t == [] then Blank
    else if LeadingSpaces(line) / 2 > MaxLevels then TooDeep
    else
      match SplitFirst(t, '#')
      case None => NoHash
      case Some((name, rest)) =>
        Item(LeadingSpaces(line) / 2, Trim(name), Trim(ReplaceChar(rest, '#', ' ')))
  }

  /**
   * The four kinds of line; an item's name is the trimmed text before the
   * first '#' of the trimmed line, its identifier the trimmed rest with
   * every further '#' turned into a space.
   */
  lemma ClassifyYmlLineCases(line: string)
    ensures var l := ClassifyYmlLine(line);
      && (l.Blank? <==> Trim(line) == [])
      && (l.TooDeep? <==> Trim(line) != [] && LeadingSpaces(line) / 2 > MaxLevels)
      && (l.NoHash? <==> Trim(line) != [] && LeadingSpaces(line) / 2 <= MaxLevels && '#' !in Trim(line))
      && (l.Item? ==> l.level == LeadingSpaces(line) / 2 <= MaxLevels && '#' in Trim(line))
    ensures var l := ClassifyYmlLine(line);
      l.Item? ==> (SplitFirst(Trim(line), '#').Some?
        && var (before, after) := SplitFirst(Trim(line), '#').value;
        && before + ['#'] + after == Trim(line) && '#' !in before
        && l.name == Trim(before)
        && l.id == Trim(ReplaceChar(after, '#', ' ')))
  {
  }

  /** The lines as classified, in order. */
  function ClassifiedYml(lines: seq<string>): (ls: seq<YmlLine>)
    ensures |ls| == |lines|
  {
    if lines == [] then [] else ClassifiedYml(lines[..|lines| - 1]) + [ClassifyYmlLine(lines[|lines| - 1])]
  }

  lemma {:induction false} ClassifiedYmlAt(lines: seq<string>, n: nat)
    requires n < |lines|
    ensures ClassifiedYml(lines)[n] == ClassifyYmlLine(lines[n])
    decreases |lines|
  {
    if n < |lines| - 1 {
      ClassifiedYmlAt(lines[..|lines| - 1], n);
    }
  }

  /** The parser's state: categories by name, UUIDs by identifier, the last category seen at each level, the deepest level. */
  datatype YmlState = YmlState(
    categories: map<string, CategoryView>, uuids: map<string, string>, levels: seq<Option<CategoryView>>, tiers: nat)

  function EmptyLevels(): (s: seq<Option<CategoryView>>)
    ensures |s| == MaxLevels + 1 && forall k :: 0 <= k < |s| ==> s[k].None?
  {
    seq(MaxLevels + 1, _ => None)
  }

  /**
   * The category a child line creates: its parent is the identifier of the
   * last category seen one level up, and it takes its parent's embedded
   * category when the parent's score is higher than its own.
   */
  function ChildCategory(parent: CategoryView, uuid: string, name: string, id: string, embed: (Option<string>, real)): (c: CategoryView)
    requires parent.id.Some?
    ensures parent.id.value != [] ==> c.parent == parent.id
    ensures c.embedCategory.Some? ==> c.embedScore >= embed.1 && c.embedScore >= parent.embedScore
    ensures parent.embedScore > embed.1 && parent.embedCategory.Some? && parent.embedCategory.value != [] ==>
      c.embedCategory == parent.embedCategory && c.embedScore == parent.embedScore
  {
    var (category, score) := if parent.embedScore > embed.1 then (parent.embedCategory, parent.embedScore) else embed;
    NewCategory(uuid, id, name, parent.id.value, category, score)
  }

  /**
   * One line applied to the state; `None` is a fatal error: a line too deep,
   * without '#', without identifier, or with no category one level up.
   */
  function YmlStep(st: YmlState, l: YmlLine, classifier: Classifier, uuidOf: string -> string): (r: Option<YmlState>)
    requires |st.levels| == MaxLevels + 1
    ensures r.Some? ==> |r.value.levels| == MaxLevels + 1
  {
    match l
    case Blank => Some(st)
    case TooDeep => None
    case NoHash => None
    case Item(level, name, id) =>
      var uuid := uuidOf(id + name);
      if level > MaxLevels then None
      else if level == 0 then
        if id == [] then None
        else
          var c := NewCategory(uuid, id, name, "", classifier(name).0, classifier(name).1);
          Some(YmlState(st.categories[name := c], st.uuids[id := uuid], EmptyLevels()[0 := Some(c)], st.tiers))
      else
        var parent := st.levels[level - 1];
        if parent.None? || parent.value.id.None? || id == [] then None
        else
          var c := ChildCategory(parent.value, uuid, name, id, classifier(name));
          Some(YmlState(st.categories[name := c], st.uuids[id := uuid], st.levels[level := Some(c)],
                        if level > st.tiers then level else st.tiers))
  }

  /** What one line does to the state. */
  lemma YmlStepCases(st: YmlState, l: YmlLine, classifier: Classifier, uuidOf: string -> string)
    requires |st.levels| == MaxLevels + 1
    ensures YmlStep(st, l, classifier, uuidOf).None? <==> (l.TooDeep? || l.NoHash? || (l.Item? && (l.id == [] || l.level > MaxLevels || (l.level > 0 &&
      (st.levels[l.level - 1].None? || st.levels[l.level - 1].value.id.None?)))))
    ensures YmlStep(st, l, classifier, uuidOf).Some? && !l.Item? ==> YmlStep(st, l, classifier, uuidOf) == Some(st)
    ensures YmlStep(st, l, classifier, uuidOf).Some? && l.Item? ==> var s := YmlStep(st, l, classifier, uuidOf).value;
      && l.name in s.categories && s.categories[l.name].id == Some(l.id)
      && s.levels[l.level] == Some(s.categories[l.name])
      && s.uuids == st.uuids[l.id := uuidOf(l.id + l.name)]
      && s.categories == st.categories[l.name := s.categories[l.name]]
      && s.tiers == (if l.level > st.tiers then l.level else st.tiers)
      && (l.level == 0 ==> s.categories[l.name].parent.None? && forall k :: 0 < k < |s.levels| ==> s.levels[k].None?)
      && (l.level > 0 ==>
            (st.levels[l.level - 1].value.id.value != [] ==> s.categories[l.name].parent == st.levels[l.level - 1].value.id)
            && forall k :: 0 <= k < |s.levels| && k != l.level ==> s.levels[k] == st.levels[k])
  {
  }

  /** The lines applied in order from `st`; the first fatal line stops the parse. */
  function YmlFold(st: YmlState, ls: seq<YmlLine>, classifier: Classifier, uuidOf: string -> string): (r: Option<YmlState>)
    requires |st.levels| == MaxLevels + 1
    ensures r.Some? ==> |r.value.levels| == MaxLevels + 1
  {
    if ls == [] then Some(st)
    else
      match YmlFold(st, ls[..|ls| - 1], classifier, uuidOf)
      case None => None
      case Some(s) => YmlStep(s, ls[|ls| - 1], classifier, uuidOf)
  }

  /** The fold over one more line is that line's step. */
  lemma FoldSnoc(st: YmlState, ls: seq<YmlLine>, n: nat, classifier: Classifier, uuidOf: string -> string)
    requires |st.levels| == MaxLevels + 1 && n < |ls|
    ensures YmlFold(st, ls[..n + 1], classifier, uuidOf) ==
      (match YmlFold(st, ls[..n], classifier, uuidOf)
       case None => None
       case Some(s) => YmlStep(s, ls[n], classifier, uuidOf))
  {
    assert ls[..n + 1][..n] == ls[..n];
  }

  /** Once a prefix has failed, the whole fold fails. */
  lemma {:induction false} FoldStaysFailed(st: YmlState, ls: seq<YmlLine>, n: nat, classifier: Classifier, uuidOf: string -> string)
    requires |st.levels| == MaxLevels + 1
    requires n <= |ls| && YmlFold(st, ls[..n], classifier, uuidOf).None?
    ensures YmlFold(st, ls, classifier, uuidOf).None?
    decreases |ls|
  {
    if n < |ls| {
      assert ls[..|ls| - 1][..n] == ls[..n];
      FoldStaysFailed(st, ls[..|ls| - 1], n, classifier, uuidOf);
    } else {
      assert ls[..n] == ls;
    }
  }

  /** The whole file: fatal when a line is, or when no category results; the tier count is the deepest level plus one. */
  function YmlOutcome(st: YmlState, lines: seq<string>, classifier: Classifier, uuidOf: string -> string): Option<YmlState>
    requires |st.levels| == MaxLevels + 1
  {
    match YmlFold(st, ClassifiedYml(lines), classifier, uuidOf)
    case None => None
    case Some(s) => if s.categories == map[] then None else Some(s.(tiers := s.tiers + 1))
  }

  /** The deepest level among the item lines, or `t` if that is deeper. */
  function DeepestLevel(t: nat, ls: seq<YmlLine>): nat
  {
    if ls == [] then t
    else
      var d := DeepestLevel(t, ls[..|ls| - 1]);
      var l := ls[|ls| - 1];
      if l.Item? && l.level > d then l.level else d
  }

  /** A successful parse counts one tier more than the deepest level seen. */
  lemma {:induction false} FoldTiers(st: YmlState, ls: seq<YmlLine>, classifier: Classifier, uuidOf: string -> string)
    requires |st.levels| == MaxLevels + 1
    ensures YmlFold(st, ls, classifier, uuidOf).Some? ==> YmlFold(st, ls, classifier, uuidOf).value.tiers == DeepestLevel(st.tiers, ls)
  {
    if ls != [] {
      FoldTiers(st, ls[..|ls| - 1], classifier, uuidOf);
    }
  }

  lemma OutcomeTiers(st: YmlState, lines: seq<string>, classifier: Classifier, uuidOf: string -> string)
    requires |st.levels| == MaxLevels + 1
    ensures YmlOutcome(st, lines, classifier, uuidOf).Some? ==>
      YmlOutcome(st, lines, classifier, uuidOf).value.tiers == DeepestLevel(st.tiers, ClassifiedYml(lines)) + 1
  {
    FoldTiers(st, ClassifiedYml(lines), classifier, uuidOf);
  }

  /** A line too deep, without '#' or without identifier makes the whole parse fail. */
  lemma {:induction false} FoldFatal(st: YmlState, ls: seq<YmlLine>, classifier: Classifier, uuidOf: string -> string, i: nat)
    requires |st.levels| == MaxLevels + 1
    requires i < |ls| && (ls[i].TooDeep? || ls[i].NoHash? || (ls[i].Item? && ls[i].id == []))
    ensures YmlFold(st, ls, classifier, uuidOf).None?
  {
    if i < |ls| - 1 {
      FoldFatal(st, ls[..|ls| - 1], classifier, uuidOf, i);
    }
  }

  /** Every item line of a successful parse leaves its name among the categories and its identifier among the UUIDs. */
  lemma {:induction false} FoldKeys(st: YmlState, ls: seq<YmlLine>, classifier: Classifier, uuidOf: string -> string, i: nat)
    requires |st.levels| == MaxLevels + 1
    requires i < |ls| && ls[i].Item? && YmlFold(st, ls, classifier, uuidOf).Some?
    ensures ls[i].name in YmlFold(st, ls, classifier, uuidOf).value.categories
    ensures ls[i].id in YmlFold(st, ls, classifier, uuidOf).value.uuids
  {
    if i < |ls| - 1 {
      FoldKeys(st, ls[..|ls| - 1], classifier, uuidOf, i);
    }
  }

  class Classification {
    var categories: map<string, Category>
    var categoryUUIDs: map<string, string>
    var numTiers: nat

    /** The categories by name, as values. */
    ghost function Views(): map<string, CategoryView>
      reads this`categories, categories.Values
    {
      map n | n in categories :: categories[n].View()
    }

    ghost function State(): YmlState
      reads this, categories.Values
    {
      YmlState(Views(), categoryUUIDs, EmptyLevels(), numTiers)
    }

    /**
     * Reads one line: skips a blank one, measures the indentation, checks the
     * depth, and splits the trimmed text at its first '#' into name and identifier.
     */
    method ReadLine(line: string) returns (l: YmlLine)
      ensures l == ClassifyYmlLine(line)
      ensures l.Item? ==> l.level <= MaxLevels
    {
      if Trim(line) == [] {
        return Blank;
      }
      var level := LeadingSpaces(line) / 2;
      if level > MaxLevels {
        return TooDeep;
      }
      var t := Trim(line);
      var parts := SplitFirst(t, '#');
      if parts.None? {
        return NoHash;
      }
      var id := Trim(ReplaceChar(parts.value.1, '#', ' '));
      var name := Trim(parts.value.0);
      return Item(level, name, id);
    }

    /** Line `n` of the file, read. */
    method ReadLineAt(lines: seq<string>, n: nat, ghost ls: seq<YmlLine>) returns (l: YmlLine)
      requires n < |lines| && ls == ClassifiedYml(lines)
      ensures l == ls[n]
      ensures l.Item? ==> l.level <= MaxLevels
    {
      l := ReadLine(lines[n]);
      ClassifiedYmlAt(lines, n);
    }

    /** One classified line applied to the classification; false for a fatal line. */
    method AddLine(levels: array<Category?>, l: YmlLine, classifier: Classifier, uuidOf: string -> string, ghost st: YmlState)
      returns (ok: bool, levels': array<Category?>)
      requires l.Item? ==> l.level <= MaxLevels
      requires |st.levels| == MaxLevels + 1 && LevelsMatch(levels, st.levels)
      requires st.categories == Views() && st.uuids == categoryUUIDs && st.tiers == numTiers
      modifies this, levels
      ensures var r := YmlStep(st, l, classifier, uuidOf);
        && (ok <==> r.Some?)
        && (ok ==>
              (levels' == levels || fresh(levels')) && LevelsMatch(levels', r.value.levels)
              && r.value.categories == Views() && r.value.uuids == categoryUUIDs && r.value.tiers == numTiers)
    {
      levels' := levels;
      match l
      case Blank => ok := true;
      case TooDeep => ok := false;
      case NoHash => ok := false;
      case Item(level, name, id) =>
        if level == 0 {
          ok, levels' := AddTop(name, id, classifier, uuidOf, st);
        } else {
          ok := AddChild(levels, level, name, id, classifier, uuidOf, st);
        }
    }

    /** A top-tier line: the category is stored first, then a missing identifier is fatal; the level slots start afresh. */
    method AddTop(name: string, id: string, classifier: Classifier, uuidOf: string -> string, ghost st: YmlState)
      returns (ok: bool, levels: array<Category?>)
      requires |st.levels| == MaxLevels + 1
      requires st.categories == Views() && st.uuids == categoryUUIDs && st.tiers == numTiers
      modifies this
      ensures ok <==> YmlStep(st, Item(0, name, id), classifier, uuidOf).Some?
      ensures ok ==> fresh(levels) && LevelsMatch(levels, YmlStep(st, Item(0, name, id), classifier, uuidOf).value.levels)
      ensures ok ==> var r := YmlStep(st, Item(0, name, id), classifier, uuidOf).value;
        r.categories == Views() && r.uuids == categoryUUIDs && r.tiers == numTiers
    {
      var uuid := uuidOf(id + name);
      var embed := classifier(name);
      var c := new Category(uuid, id, name, "", embed.0, embed.1);
      Register(name, id, uuid, c, st.categories);
      ok := id != [];
      levels := new Category?[MaxLevels + 1](k => if k == 0 && ok then c else null);
      if ok {
        TopLevelsMatch(levels, c, st, name, id, classifier, uuidOf);
      }
    }

    /** Records a category under its name and its UUID under its identifier. */
    method Register(name: string, id: string, uuid: string, c: Category, ghost views: map<string, CategoryView>)
      requires views == Views()
      modifies this`categories, this`categoryUUIDs
      ensures Views() == views[name := c.View()] && categoryUUIDs == old(categoryUUIDs)[id := uuid]
      ensures categories == old(categories)[name := c]
    {
      categories := categories[name := c];
      categoryUUIDs := categoryUUIDs[id := uuid];
      forall n | n in categories
        ensures categories[n].View() == views[name := c.View()][n]
      {
        if n != name {
          assert categories[n] == old(categories)[n];
        }
      }
    }

    /** A deeper line: its parent is the last category one level up, whose embedded category it may inherit. */
    method AddChild(levels: array<Category?>, level: nat, name: string, id: string, classifier: Classifier, uuidOf: string -> string,
                    ghost st: YmlState)
      returns (ok: bool)
      requires 0 < level <= MaxLevels && LevelsMatch(levels, st.levels) && |st.levels| == MaxLevels + 1
      requires st.categories == Views() && st.uuids == categoryUUIDs && st.tiers == numTiers
      modifies this, levels
      ensures var r := YmlStep(st, Item(level, name, id), classifier, uuidOf);
        && (ok <==> r.Some?)
        && (ok ==>
              LevelsMatch(levels, r.value.levels)
              && r.value.categories == Views() && r.value.uuids == categoryUUIDs && r.value.tiers == numTiers)
    {
      var uuid := uuidOf(id + name);
      var embed := classifier(name);
      var parent := levels[level - 1];
      if parent == null || parent.id.None? {
        return false;
      }
      var category, score := embed.0, embed.1;
      if parent.embedScore > score {
        category, score := parent.embedCategory, parent.embedScore;
      }
      ghost var pv := st.levels[level - 1].value;
      assert parent.View() == pv;
      var c := new Category(uuid, id, name, parent.id.value, category, score);
      assert c.View() == ChildCategory(pv, uuid, name, id, classifier(name));
      if !c.HasId() && !c.HasName() {
        return false;
      }
      if c.HasName() && !c.HasId() {
        return false;
      }
      assert YmlStep(st, Item(level, name, id), classifier, uuidOf) ==
        Some(YmlState(st.categories[name := c.View()], st.uuids[id := uuid], st.levels[level := Some(c.View())],
                      if level > st.tiers then level else st.tiers));
      Store(levels, level, name, id, uuid, c, st);
      return true;
    }

    /** Records a new category under its name, its UUID under its identifier, and the category as the last one seen at its level. */
    method Store(levels: array<Category?>, level: nat, name: string, id: string, uuid: string, c: Category, ghost st: YmlState)
      requires level < levels.Length && LevelsMatch(levels, st.levels)
      requires st.categories == Views() && st.uuids == categoryUUIDs && st.tiers == numTiers
      modifies this, levels
      ensures Views() == st.categories[name := c.View()] && categoryUUIDs == st.uuids[id := uuid]
      ensures LevelsMatch(levels, st.levels[level := Some(c.View())])
      ensures numTiers == if level > st.tiers then level else st.tiers
    {
      levels[level] := c;
      Register(name, id, uuid, c, st.categories);
      if level > numTiers {
        numTiers := level;
      }
    }

    /** `searchByName`: the category stored under a name, or `None`. */
    function SearchByName(name: string): (r: Option<Category>)
      reads this
      ensures r.Some? <==> name in categories
      ensures r.Some? ==> r.value == categories[name]
    {
      if name in categories then Some(categories[name]) else None
    }

    /** `getUUID`: the UUID of the category with that name; `None` for an unknown name (or a category without UUID). */
    function GetUUID(name: string): (r: Option<string>)
      reads this, categories.Values
      ensures name !in categories ==> r.None?
      ensures name in categories ==> r == categories[name].uuid
    {
      if name in categories then categories[name].uuid else None
    }

    /** `findUUID`: the UUID recorded for an original identifier, or `None`. */
    function FindUUID(id: string): (r: Option<string>)
      reads this
      ensures r.Some? <==> id in categoryUUIDs
      ensures r.Some? ==> r.value == categoryUUIDs[id]
    {
      if id in categoryUUIDs then Some(categoryUUIDs[id]) else None
    }

    /** `getEmbeddedCategory`: the embedded category of the category with that name, or `None`. */
    function GetEmbeddedCategory(name: string): (r: Option<string>)
      reads this, categories.Values
      ensures name !in categories ==> r.None?
      ensures name in categories ==> r == categories[name].embedCategory
    {
      if name in categories then categories[name].embedCategory else None
    }

    /** `countCategories`: the number of categories, at all levels. */
    function CountCategories(): nat
      reads this
    {
      |categories|
    }

    /** `countTiers`: the depth of the hierarchy. */
    function CountTiers(): nat
      reads this
    {
      numTiers
    }

    /**
     * The first category, visiting the names in `order` from position `i`,
     * whose identifier is `categoryId`; a category without identifier met on
     * the way raises a NullPointerException.
     */
    function FirstWithId(order: seq<string>, categoryId: string, i: nat): (r: Result<Option<Category>, SearchError>)
      reads this, categories.Values
      requires i <= |order| && forall k :: 0 <= k < |order| ==> order[k] in categories
      ensures r.Ok? && r.value.Some? ==> r.value.value in categories.Values && r.value.value.id == Some(categoryId)
      ensures r.Ok? && r.value.Some? ==> exists k :: (i <= k < |order| && categories[order[k]] == r.value.value
        && forall j :: i <= j < k ==> categories[order[j]].id.Some? && categories[order[j]].id != Some(categoryId))
      ensures r.Ok? && r.value.None? ==>
        forall k :: i <= k < |order| ==> categories[order[k]].id.Some? && categories[order[k]].id != Some(categoryId)
      ensures r.Err? ==> exists k :: (i <= k < |order| && categories[order[k]].id.None?
        && forall j :: i <= j < k ==> categories[order[j]].id.Some? && categories[order[j]].id != Some(categoryId))
      decreases |order| - i
    {
      if i == |order| then Ok(None)
      else
        var c := categories[order[i]];
        if c.id.None? then Err(NullId)
        else if c.id == Some(categoryId) then Ok(Some(c))
        else FirstWithId(order, categoryId, i + 1)
    }

    /**
     * `searchById`: scans the categories in the dictionary's iteration order,
     * given here as `order`, for one with the identifier. When every category
     * has an identifier the answer is `None` exactly when none matches.
     */
    method SearchById(categoryId: string, order: seq<string>) returns (r: Result<Option<Category>, SearchError>)
      requires forall n :: n in order <==> n in categories
      ensures r == FirstWithId(order, categoryId, 0)
      ensures (forall n :: n in categories ==> categories[n].id.Some?) ==>
        r.Ok? && (r.value.None? <==> forall n :: n in categories ==> categories[n].id != Some(categoryId))
    {
      var i := 0;
      while i < |order|
        invariant 0 <= i <= |order|
        invariant FirstWithId(order, categoryId, 0) == FirstWithId(order, categoryId, i)
      {
        var c := categories[order[i]];
        if c.id.None? {
          return Err(NullId);
        }
        if c.id == Some(categoryId) {
          return Ok(Some(c));
        }
        i := i + 1;
      }
      return Ok(None);
    }

    /** `parseYMLFile`: returns false where the source stops the program. */
    method ParseYml(lines: seq<string>, classifier: Classifier, uuidOf: string -> string) returns (ok: bool)
      modifies this
      ensures ok <==> YmlOutcome(old(State()), lines, classifier, uuidOf).Some?
      ensures ok ==> var s := YmlOutcome(old(State()), lines, classifier, uuidOf).value;
        Views() == s.categories && categoryUUIDs == s.uuids && numTiers == s.tiers
      ensures ok ==> var s := YmlOutcome(old(State()), lines, classifier, uuidOf).value;
        CountCategories() == |s.categories| && CountTiers() == s.tiers
    {
      ok := ParseLines(lines, classifier, uuidOf);
      if !ok {
        return false;
      }
      ghost var views := Views();
      assert views.Keys == categories.Keys;
      if categories == map[] {
        return false;
      }
      numTiers := numTiers + 1;
      assert Views() == views;
      return true;
    }

    /** The line loop of `parseYMLFile`, with a fresh level stack. */
    method ParseLines(lines: seq<string>, classifier: Classifier, uuidOf: string -> string) returns (ok: bool)
      modifies this
      ensures var r := YmlFold(old(State()), ClassifiedYml(lines), classifier, uuidOf);
        && (ok <==> r.Some?)
        && (ok ==> Views() == r.value.categories && categoryUUIDs == r.value.uuids && numTiers == r.value.tiers)
    {
      ghost var ls := ClassifiedYml(lines);
      ghost var st0 := State();
      ghost var st := st0;
      var levels := new Category?[MaxLevels + 1](_ => null);
      var n := 0;
      while n < |lines|
        invariant 0 <= n <= |lines|
        invariant fresh(levels) && levels.Length == MaxLevels + 1
        invariant YmlFold(st0, ls[..n], classifier, uuidOf) == Some(st)
        invariant st.categories == Views() && st.uuids == categoryUUIDs && st.tiers == numTiers
        invariant LevelsMatch(levels, st.levels)
      {
        var ok1, levels1, st1 := ParseLine(lines, n, ls, st0, levels, classifier, uuidOf, st);
        if !ok1 {
          FoldStaysFailed(st0, ls, n + 1, classifier, uuidOf);
          return false;
        }
        levels, st := levels1, st1;
        n := n + 1;
      }
      assert ls[..n] == ls;
      return true;
    }

    /** One pass of the line loop: line `n` read and applied after the lines before it. */
    method ParseLine(lines: seq<string>, n: nat, ghost ls: seq<YmlLine>, ghost st0: YmlState, levels: array<Category?>,
                     classifier: Classifier, uuidOf: string -> string, ghost st: YmlState)
      returns (ok: bool, levels': array<Category?>, ghost st': YmlState)
      requires n < |lines| && ls == ClassifiedYml(lines)
      requires |st0.levels| == MaxLevels + 1 && YmlFold(st0, ls[..n], classifier, uuidOf) == Some(st)
      requires levels.Length == MaxLevels + 1 && LevelsMatch(levels, st.levels)
      requires st.categories == Views() && st.uuids == categoryUUIDs && st.tiers == numTiers
      modifies this, levels
      ensures !ok ==> YmlFold(st0, ls[..n + 1], classifier, uuidOf).None?
      ensures ok ==> (levels' == levels || fresh(levels')) && levels'.Length == MaxLevels + 1
      ensures ok ==> YmlFold(st0, ls[..n + 1], classifier, uuidOf) == Some(st')
      ensures ok ==> st'.categories == Views() && st'.uuids == categoryUUIDs && st'.tiers == numTiers
      ensures ok ==> LevelsMatch(levels', st'.levels)
    {
      var l := ReadLineAt(lines, n, ls);
      FoldSnoc(st0, ls, n, classifier, uuidOf);
      var ok1, levels1 := AddLine(levels, l, classifier, uuidOf, st);
      ok := ok1;
      levels' := levels1;
      st' := if ok then YmlStep(st, l, classifier, uuidOf).value else st;
    }
  }

  /** A fresh level stack holding only a top-tier category matches the state's stack after that category. */
  lemma TopLevelsMatch(levels: array<Category?>, c: Category, st: YmlState, name: string, id: string,
                       classifier: Classifier, uuidOf: string -> string)
    requires |st.levels| == MaxLevels + 1 && id != []
    requires c.View() == NewCategory(uuidOf(id + name), id, name, "", classifier(name).0, classifier(name).1)
    requires levels.Length == MaxLevels + 1 && levels[0] == c
    requires forall k :: 1 <= k < levels.Length ==> levels[k] == null
    ensures YmlStep(st, Item(0, name, id), classifier, uuidOf).Some?
    ensures LevelsMatch(levels, YmlStep(st, Item(0, name, id), classifier, uuidOf).value.levels)
  {
    assert YmlStep(st, Item(0, name, id), classifier, uuidOf).value.levels == EmptyLevels()[0 := Some(c.View())];
  }

  ghost predicate LevelsMatch(levels: array<Category?>, views: seq<Option<CategoryView>>)
    reads levels, set k | 0 <= k < levels.Length && levels[k] != null :: levels[k]
  {
    levels.Length == |views| &&
    forall k :: 0 <= k < levels.Length ==> (levels[k] == null <==> views[k].None?) && (levels[k] != null ==> levels[k].View() == views[k].value)
  }
}
