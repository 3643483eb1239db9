/**
 * The OSM tag-filter file: an indentation-levelled list of
 * "key=value category" lines, two spaces per level, parsed into a forest of
 * filters. A filter without children must name a category.
 */
module OsmFilters {
  import opened Wrappers
  import opened JavaStrings

  /** The deepest level a line may be indented to. */
  const MaxIndent: nat := 100

  /** A filter rule; an empty key, value or category counts as absent. */
  datatype OSMFilter = OSMFilter(key: string, value: string, category: string, childs: seq<OSMFilter>)
  {
    predicate HasKey() { key != "" }
    predicate HasValue() { value != "" }
    predicate HasCategory() { category != "" }
  }

  /** What one line of the file says. */
  datatype FilterLine =
    | Skip                 // a comment or a blank line
    | TooDeep              // indented beyond `MaxIndent` levels
    | NoEquals             // no '=' after trimming
    | Entry(level: nat, key: string, value: string, category: string)

  predicate IsComment(line: string) { |line| > 0 && line[0] == '#' }

  predicate IsBlank(line: string) { Trim(line) == [] }

  /** The trimmed text split at its first '=' into key and rest, and the rest at its first ' ' into value and category. */
  function EntryParts(t: string): (r: Option<(string, string, string)>)
    ensures r.None? <==> '=' !in t
    ensures r.Some? ==>
      ('=' !in r.value.0 && ' ' !in r.value.1
       && (t == r.value.0 + "=" + r.value.1 + " " + r.value.2
           || (t == r.value.0 + "=" + r.value.1 && r.value.2 == "")))
  {
    match SplitFirst(t, '=')
    case None => None
    case Some((key, rest)) =>
      assert t == key + "=" + rest;
      match SplitFirst(rest, ' ')
      case None => Some((key, rest, ""))
      case Some((value, category)) =>
        EntryConcat(t, key, rest, value, category);
        Some((key, value, category))
  }

  /** Regrouping of a line split twice. */
  lemma EntryConcat(t: string, key: string, rest: string, value: string, category: string)
    requires t == key + "=" + rest && rest == value + " " + category
    ensures t == key + "=" + value + " " + category
  {
    assert key + "=" + (value + " " + category) == key + "=" + value + " " + category;
  }

  /**
   * One line: comments and blank lines are skipped; the level is the leading
   * space count halved; the trimmed text splits at its first '=' into key and
   * the rest, and the rest at its first ' ' into value and category.
   */
  function ClassifyFilterLine(line: string): (r: FilterLine)
    ensures r.Entry? ==> r.level <= MaxIndent
  {
    if IsComment(line) || IsBlank(line) then Skip
    else
      var level := LeadingSpaces(line) / 2;
      if level > MaxIndent then TooDeep
      else
        match EntryParts(Trim(line))
        case None => NoEquals
        case Some((key, value, category)) => Entry(level, key, value, category)
  }

  /** Which kind of line `ClassifyFilterLine` reports, and what an entry holds. */
  lemma ClassifyFilterLineCases(line: string)
    ensures var r := ClassifyFilterLine(line);
      && (r.Skip? <==> IsComment(line) || IsBlank(line))
      && (r.TooDeep? <==> !IsComment(line) && !IsBlank(line) && LeadingSpaces(line) / 2 > MaxIndent)
      && (r.NoEquals? <==> !IsComment(line) && !IsBlank(line) && LeadingSpaces(line) / 2 <= MaxIndent && '=' !in Trim(line))
      && (r.Entry? ==> r.level == LeadingSpaces(line) / 2 && r.level <= MaxIndent)
      && (r.Entry? ==> EntryParts(Trim(line)) == Some((r.key, r.value, r.category)))
  {
  }

  /** The tags a line contributes: its key and its value. */
  function LineTags(l: FilterLine): set<string>
  {
    if l.Entry? then {l.key, l.value} else {}
  }

  /** The category a line contributes, when it is not blank. */
  function LineCategories(l: FilterLine): set<string>
  {
    if l.Entry? && Trim(l.category) != [] then {l.category} else {}
  }

  /** Every line of a file, classified. */
  function Classified(lines: seq<string>): (ls: seq<FilterLine>)
    ensures |ls| == |lines|
    ensures Bounded(ls)
  {
    if lines == [] then [] else Classified(lines[..|lines| - 1]) + [ClassifyFilterLine(lines[|lines| - 1])]
  }

  /** No entry is deeper than `MaxIndent`. */
  predicate Bounded(ls: seq<FilterLine>)
  {
    forall k :: 0 <= k < |ls| && ls[k].Entry? ==> ls[k].level <= MaxIndent
  }

  lemma {:induction false} ClassifiedAt(lines: seq<string>, i: nat)
    requires i < |lines|
    ensures Classified(lines)[i] == ClassifyFilterLine(lines[i])
    decreases |lines|
  {
    if i < |lines| - 1 {
      ClassifiedAt(lines[..|lines| - 1], i);
    }
  }

  function TagsOf(ls: seq<FilterLine>): set<string>
  {
    if ls == [] then {} else TagsOf(ls[..|ls| - 1]) + LineTags(ls[|ls| - 1])
  }

  function CategoriesOf(ls: seq<FilterLine>): set<string>
  {
    if ls == [] then {} else CategoriesOf(ls[..|ls| - 1]) + LineCategories(ls[|ls| - 1])
  }

  /** The top-level (level 0) entries, in file order. */
  function TopEntries(ls: seq<FilterLine>): (r: seq<FilterLine>)
    ensures forall k :: 0 <= k < |r| ==> r[k].Entry? && r[k].level == 0
  {
    if ls == [] then []
    else
      var l := ls[|ls| - 1];
      var prior := TopEntries(ls[..|ls| - 1]);
      if l.Entry? && l.level == 0 then prior + [l] else prior
  }

  /** Over-indented lines and lines without '=' end the parse with an error. */
  predicate IsFatal(l: FilterLine) { l.TooDeep? || l.NoEquals? }

  predicate NoFatal(ls: seq<FilterLine>) { forall i :: 0 <= i < |ls| ==> !IsFatal(ls[i]) }

  /** Reading one more line extends the tags, categories and top-level entries by what that line contributes. */
  lemma PrefixStep(ls: seq<FilterLine>, n: nat)
    requires n < |ls|
    ensures var l := ls[n];
      && TagsOf(ls[..n + 1]) == TagsOf(ls[..n]) + LineTags(l)
      && CategoriesOf(ls[..n + 1]) == CategoriesOf(ls[..n]) + LineCategories(l)
      && (l.Entry? && l.level == 0 ==> TopEntries(ls[..n + 1]) == TopEntries(ls[..n]) + [l])
      && (!(l.Entry? && l.level == 0) ==> TopEntries(ls[..n + 1]) == TopEntries(ls[..n]))
      && (NoFatal(ls[..n + 1]) <==> NoFatal(ls[..n]) && !IsFatal(l))
  {
    assert ls[..n + 1][..n] == ls[..n];
    assert ls[..n + 1] == ls[..n] + [ls[n]];
  }

  /** `isOSMFilterValid`: a filter without children has a category, and so does every such filter below it. */
  predicate IsOSMFilterValid(f: OSMFilter)
  {
    (|f.childs| > 0 || f.HasCategory())
    && forall k :: 0 <= k < |f.childs| ==> IsOSMFilterValid(f.childs[k])
  }

  /** The filter reached from `f` by following child indices along `path`. */
  function At(f: OSMFilter, path: seq<nat>): Option<OSMFilter>
    decreases |path|
  {
    if path == [] then Some(f)
    else if path[0] < |f.childs| then At(f.childs[path[0]], path[1..])
    else None
  }

  /** Every filter without children reachable from `f` has a category. */
  ghost predicate LeavesHaveCategories(f: OSMFilter)
  {
    forall path :: At(f, path).Some? && |At(f, path).value.childs| == 0 ==> At(f, path).value.HasCategory()
  }

  lemma {:induction false} ValidLeaves(f: OSMFilter, path: seq<nat>)
    requires IsOSMFilterValid(f)
    requires At(f, path).Some? && |At(f, path).value.childs| == 0
    ensures At(f, path).value.HasCategory()
    decreases |path|
  {
    if path != [] {
      ValidLeaves(f.childs[path[0]], path[1..]);
    }
  }

  lemma {:induction false} LeavesValid(f: OSMFilter)
    requires LeavesHaveCategories(f)
    ensures IsOSMFilterValid(f)
    decreases f
  {
    assert At(f, []) == Some(f);
    forall k | 0 <= k < |f.childs|
      ensures IsOSMFilterValid(f.childs[k])
    {
      var c := f.childs[k];
      forall path | At(c, path).Some? && |At(c, path).value.childs| == 0
        ensures At(c, path).value.HasCategory()
      {
        assert ([k as nat] + path)[1..] == path;
        assert At(f, [k as nat] + path) == At(c, path);
      }
      LeavesValid(c);
    }
  }

  /** `isOSMFilterValid` holds exactly when every filter without children, at any depth, has a category. */
  lemma ValidIffLeavesHaveCategories(f: OSMFilter)
    ensures IsOSMFilterValid(f) <==> LeavesHaveCategories(f)
  {
    if IsOSMFilterValid(f) {
      forall path | At(f, path).Some? && |At(f, path).value.childs| == 0
        ensures At(f, path).value.HasCategory()
      {
        ValidLeaves(f, path);
      }
    }
    if LeavesHaveCategories(f) {
      LeavesValid(f);
    }
  }

  /** A filter under construction: its fields and the positions of its children in the arena. */
  datatype FilterNode = FilterNode(key: string, value: string, category: string, children: seq<nat>)

  /** Every child comes after its parent in the arena. */
  predicate ArenaOk(nodes: seq<FilterNode>)
  {
    forall i, j :: 0 <= i < |nodes| && 0 <= j < |nodes[i].children| ==> i < nodes[i].children[j] < |nodes|
  }

  /** The arena with `n` appended as the last child of the node at `parent`. */
  function Attach(nodes: seq<FilterNode>, parent: nat, n: FilterNode): (r: seq<FilterNode>)
    requires ArenaOk(nodes) && parent < |nodes| && n.children == []
    ensures ArenaOk(r) && |r| == |nodes| + 1 && r[|nodes|] == n
    ensures r[parent].children == nodes[parent].children + [|nodes|]
    ensures forall i :: 0 <= i < |nodes| ==>
      r[i].key == nodes[i].key && r[i].value == nodes[i].value && r[i].category == nodes[i].category
  {
    var grown := nodes + [n];
    grown[parent := grown[parent].(children := grown[parent].children + [|nodes|])]
  }

  /** The filter tree rooted at arena position `i`. */
  function Build(nodes: seq<FilterNode>, i: nat): (f: OSMFilter)
    requires ArenaOk(nodes) && i < |nodes|
    ensures f.key == nodes[i].key && f.value == nodes[i].value && f.category == nodes[i].category
    ensures |f.childs| == |nodes[i].children|
    decreases |nodes| - i
  {
    var n := nodes[i];
    OSMFilter(n.key, n.value, n.category,
      seq(|n.children|, j requires 0 <= j < |n.children| => Build(nodes, n.children[j])))
  }

  /** The filter at a root matches the top-level line it was made from. */
  predicate RootMatches(n: FilterNode, l: FilterLine)
  {
    l.Entry? && n.key == l.key && n.value == l.value && n.category == l.category
  }

  /** The filters at `roots` were made, in order, from the top-level lines `tops`, and each has a key. */
  predicate RootsMatch(nodes: seq<FilterNode>, roots: seq<nat>, tops: seq<FilterLine>)
  {
    |roots| == |tops|
    && forall i :: 0 <= i < |roots| ==> roots[i] < |nodes| && RootMatches(nodes[roots[i]], tops[i]) && nodes[roots[i]].key != ""
  }

  /** The level slots hold `-1` (no filter) or an arena position. */
  predicate SlotsOk(nodes: seq<FilterNode>, levels: seq<int>)
  {
    |levels| == MaxIndent + 1 && forall i :: 0 <= i < |levels| ==> -1 <= levels[i] < |nodes|
  }

  /** What the parse has built so far: the arena, the top-level filters, and the slot of each level. */
  datatype ArenaState = ArenaState(nodes: seq<FilterNode>, roots: seq<nat>, levels: seq<int>)

  predicate StateOk(s: ArenaState)
  {
    ArenaOk(s.nodes) && SlotsOk(s.nodes, s.levels) && forall i :: 0 <= i < |s.roots| ==> s.roots[i] < |s.nodes|
  }

  /** Before the first line: no filters and every slot empty. */
  function InitialState(): (s: ArenaState)
    ensures StateOk(s) && s.nodes == [] && s.roots == []
    ensures forall i :: 0 <= i < |s.levels| ==> s.levels[i] == -1
  {
    ArenaState([], [], seq(MaxIndent + 1, _ => -1))
  }

  /**
   * The parse after one entry line, or `None` when the line is rejected.
   * A top-level line is rejected without a key; otherwise it becomes a new
   * root, its slot the only one filled. A deeper line is rejected when the
   * slot one level up is empty, when it has neither key nor value, or when
   * it has no key under a parent with a value; otherwise it is appended as
   * the last child of the filter in that slot and takes its own level's
   * slot, every other slot keeping what it held.
   */
  function EntryStep(s: ArenaState, l: FilterLine): (r: Option<ArenaState>)
    requires StateOk(s) && l.Entry? && l.level <= MaxIndent
    ensures r.Some? ==> (StateOk(r.value) && |r.value.nodes| == |s.nodes| + 1
      && r.value.nodes[|s.nodes|] == FilterNode(l.key, l.value, l.category, [])
      && forall i :: 0 <= i < |s.nodes| ==>
           r.value.nodes[i].key == s.nodes[i].key && r.value.nodes[i].value == s.nodes[i].value
           && r.value.nodes[i].category == s.nodes[i].category)
    ensures l.level == 0 ==> (r.Some? <==> l.key != "")
    ensures l.level == 0 && r.Some? ==>
      r.value.roots == s.roots + [|s.nodes|] && r.value.nodes[..|s.nodes|] == s.nodes
      && r.value.levels[0] == |s.nodes| && forall i :: 0 < i < |r.value.levels| ==> r.value.levels[i] == -1
    ensures l.level > 0 ==>
      (r.Some? <==> s.levels[l.level - 1] >= 0 && (l.key != "" || l.value != "")
                    && !(s.nodes[s.levels[l.level - 1]].value != "" && l.key == ""))
    ensures l.level > 0 && r.Some? ==>
      var parent := s.levels[l.level - 1];
      && r.value.roots == s.roots
      && r.value.nodes[parent].children == s.nodes[parent].children + [|s.nodes|]
      && (forall i :: 0 <= i < |s.nodes| && i != parent ==> r.value.nodes[i] == s.nodes[i])
      && r.value.levels == s.levels[l.level := |s.nodes|]
  {
    var node := FilterNode(l.key, l.value, l.category, []);
    if l.level == 0 then
      if l.key == "" then None
      else Some(ArenaState(s.nodes + [node], s.roots + [|s.nodes|], seq(MaxIndent + 1, i => if i == 0 then |s.nodes| else -1)))
    else
      var parent := s.levels[l.level - 1];
      if parent < 0 || (l.key == "" && l.value == "") || (s.nodes[parent].value != "" && l.key == "") then None
      else Some(ArenaState(Attach(s.nodes, parent, node), s.roots, s.levels[l.level := |s.nodes|]))
  }

  /** The parse after one line: a fatal line stops it, a skipped line leaves it as it was. */
  function LineStep(s: ArenaState, l: FilterLine): (r: Option<ArenaState>)
    requires StateOk(s) && (l.Entry? ==> l.level <= MaxIndent)
    ensures IsFatal(l) ==> r.None?
    ensures l.Skip? ==> r == Some(s)
    ensures l.Entry? ==> r == EntryStep(s, l)
    ensures r.Some? ==> StateOk(r.value)
  {
    match l
    case Skip => Some(s)
    case TooDeep => None
    case NoEquals => None
    case Entry(level, _, _, _) => EntryStep(s, l)
  }

  /** The parse over the lines, in order, from the initial state; `None` once a line is rejected. */
  function FoldLines(ls: seq<FilterLine>): (r: Option<ArenaState>)
    requires Bounded(ls)
    ensures r.Some? ==> StateOk(r.value)
  {
    if ls == [] then Some(InitialState())
    else
      match FoldLines(ls[..|ls| - 1])
      case None => None
      case Some(s) => LineStep(s, ls[|ls| - 1])
  }

  /** Reading line `n` continues the parse of the lines before it. */
  lemma FoldPrefix(ls: seq<FilterLine>, n: nat)
    requires n < |ls| && Bounded(ls)
    ensures FoldLines(ls[..n + 1]) == if FoldLines(ls[..n]).None? then None else LineStep(FoldLines(ls[..n]).value, ls[n])
  {
    assert ls[..n + 1][..n] == ls[..n];
  }

  /** Once a line is rejected, the whole file is. */
  lemma {:induction false} FoldStaysFailed(ls: seq<FilterLine>, n: nat)
    requires n <= |ls| && Bounded(ls) && FoldLines(ls[..n]).None?
    ensures FoldLines(ls).None?
    decreases |ls| - n
  {
    if n < |ls| {
      FoldPrefix(ls, n);
      FoldStaysFailed(ls, n + 1);
    } else {
      assert ls[..n] == ls;
    }
  }

  /** A fatal line makes the fold fail, wherever it stands. */
  lemma FoldFatal(ls: seq<FilterLine>, n: nat)
    requires n < |ls| && Bounded(ls) && IsFatal(ls[n])
    ensures FoldLines(ls).None?
  {
    FoldPrefix(ls, n);
    FoldStaysFailed(ls, n + 1);
  }

  /**
   * One entry line of the filter file. A top-level entry needs a key, becomes
   * a new root and clears the level slots; a deeper one needs a filter in the
   * slot one level up, a key or a value, and a key when that parent has a
   * value; it is appended to the parent's children and takes its own slot.
   */
  method AddEntry(l: FilterLine, nodes: seq<FilterNode>, roots: seq<nat>, levels: array<int>, ghost tops: seq<FilterLine>)
    returns (ok: bool, nodes': seq<FilterNode>, roots': seq<nat>, levels': array<int>)
    requires l.Entry? && l.level <= MaxIndent
    requires ArenaOk(nodes) && SlotsOk(nodes, levels[..]) && RootsMatch(nodes, roots, tops)
    modifies levels
    ensures ok && l.level == 0 ==> RootsMatch(nodes', roots', tops + [l])
    ensures ok && l.level > 0 ==> RootsMatch(nodes', roots', tops)
    ensures ok ==> ArenaOk(nodes') && SlotsOk(nodes', levels'[..]) && |nodes'| == |nodes| + 1
    ensures ok ==> forall i :: 0 <= i < |nodes| ==>
      nodes'[i].key == nodes[i].key && nodes'[i].value == nodes[i].value && nodes'[i].category == nodes[i].category
    ensures ok && l.level == 0 ==>
      (roots' == roots + [|nodes|] && RootMatches(nodes'[|nodes|], l) && fresh(levels'))
    ensures ok && l.level > 0 ==> roots' == roots && levels' == levels
    ensures l.level == 0 ==> (ok <==> l.key != "")
    ensures l.level > 0 ==>
      (ok <==> old(levels[l.level - 1]) >= 0 && (l.key != "" || l.value != "")
               && !(nodes[old(levels[l.level - 1])].value != "" && l.key == ""))
    ensures ok <==> EntryStep(ArenaState(nodes, roots, old(levels[..])), l).Some?
    ensures ok ==> EntryStep(ArenaState(nodes, roots, old(levels[..])), l) == Some(ArenaState(nodes', roots', levels'[..]))
  {
    var node := FilterNode(l.key, l.value, l.category, []);
    if l.level == 0 {
      if l.key == "" {
        return false, nodes, roots, levels;
      }
      nodes' := nodes + [node];
      roots' := roots + [|nodes|];
      levels' := new int[MaxIndent + 1](_ => -1);
      levels'[0] := |nodes|;
      assert levels'[..] == seq(MaxIndent + 1, i => if i == 0 then |nodes| else -1);
      return true, nodes', roots', levels';
    }
    var parent := levels[l.level - 1];
    if parent < 0 {
      return false, nodes, roots, levels;
    }
    if l.key == "" && l.value == "" {
      return false, nodes, roots, levels;
    }
    if nodes[parent].value != "" && l.key == "" {
      return false, nodes, roots, levels;
    }
    nodes' := Attach(nodes, parent, node);
    levels[l.level] := |nodes|;
    return true, nodes', roots, levels;
  }

  /**
   * The filter trees at `roots`, or `None` when one of them has a filter
   * without children and without a category.
   */
  method BuildForest(nodes: seq<FilterNode>, roots: seq<nat>) returns (r: Option<seq<OSMFilter>>)
    requires ArenaOk(nodes) && forall i :: 0 <= i < |roots| ==> roots[i] < |nodes|
    ensures r.None? <==> exists i :: 0 <= i < |roots| && !LeavesHaveCategories(Build(nodes, roots[i]))
    ensures r.Some? ==> |r.value| == |roots| && forall i :: 0 <= i < |roots| ==> r.value[i] == Build(nodes, roots[i])
  {
    var filters: seq<OSMFilter> := [];
    var i := 0;
    while i < |roots|
      invariant 0 <= i <= |roots|
      invariant |filters| == i
      invariant forall k :: 0 <= k < i ==> filters[k] == Build(nodes, roots[k]) && LeavesHaveCategories(filters[k])
    {
      var f := Build(nodes, roots[i]);
      ValidIffLeavesHaveCategories(f);
      if !IsOSMFilterValid(f) {
        return None;
      }
      filters := filters + [f];
      i := i + 1;
    }
    return Some(filters);
  }

  class OSMFilterFileParser {
    /** Every key and value read by the last `Parse`. */
    var tags: set<string>
    /** Every non-blank category read by the last `Parse`. */
    var categories: set<string>

    constructor()
      ensures tags == {} && categories == {}
    {
      tags := {};
      categories := {};
    }

    /**
     * `parse` over the lines of the file. A level-0 line starts a new
     * top-level filter and clears the level slots; a deeper line becomes a
     * child of the filter in the slot one level up and takes the slot of its
     * own level (deeper slots keep what they held). `None` stands for the
     * `null` the source returns on any error.
     */
    method Parse(lines: seq<string>) returns (r: Option<seq<OSMFilter>>)
      modifies this
      // an over-indented line or a line without '=' always makes the parse fail
      ensures (exists i :: 0 <= i < |lines| && IsFatal(ClassifyFilterLine(lines[i]))) ==> r.None?
      // on success: one filter per top-level line, in order, each with a key, and every filter without children has a category
      ensures r.Some? ==> |r.value| == |TopEntries(Classified(lines))|
      ensures r.Some? ==> forall i :: 0 <= i < |r.value| ==>
        var l := TopEntries(Classified(lines))[i];
        r.value[i].key == l.key && r.value[i].value == l.value && r.value[i].category == l.category
      ensures r.Some? ==> forall i :: 0 <= i < |r.value| ==> r.value[i].HasKey() && LeavesHaveCategories(r.value[i])
      // on success the tag and category sets hold exactly what the lines named
      ensures r.Some? ==> tags == TagsOf(Classified(lines)) && categories == CategoriesOf(Classified(lines))
      // the parse succeeds exactly when no line is rejected and every filter without children has a category,
      // and then returns the forests the lines built, top-level filter by top-level filter
      ensures r.Some? <==> (FoldLines(Classified(lines)).Some?
        && var s := FoldLines(Classified(lines)).value;
           forall i :: 0 <= i < |s.roots| ==> LeavesHaveCategories(Build(s.nodes, s.roots[i])))
      ensures r.Some? ==> var s := FoldLines(Classified(lines)).value;
        |r.value| == |s.roots| && forall i :: 0 <= i < |s.roots| ==> r.value[i] == Build(s.nodes, s.roots[i])
    {
      tags := {};
      categories := {};
      var nodes: seq<FilterNode> := [];
      var roots: seq<nat> := [];
      var filterLevels := new int[MaxIndent + 1](_ => -1);
      ghost var ls := Classified(lines);
      assert filterLevels[..] == InitialState().levels;
      assert ls[..0] == [];
      var n := 0;
      while n < |lines|
        invariant 0 <= n <= |lines|
        invariant ArenaOk(nodes)
        invariant fresh(filterLevels) && SlotsOk(nodes, filterLevels[..])
        invariant NoFatal(ls[..n])
        invariant tags == TagsOf(ls[..n]) && categories == CategoriesOf(ls[..n])
        invariant RootsMatch(nodes, roots, TopEntries(ls[..n]))
        invariant FoldLines(ls[..n]) == Some(ArenaState(nodes, roots, filterLevels[..]))
      {
        var ok, nodes1, roots1, levels1 := ReadLine(lines, n, ls, nodes, roots, filterLevels);
        FoldPrefix(ls, n);
        if !ok {
          FoldStaysFailed(ls, n + 1);
          return None;
        }
        nodes, roots, filterLevels := nodes1, roots1, levels1;
        n := n + 1;
      }
      assert ls[..n] == ls;
      forall i | 0 <= i < |lines|
        ensures !IsFatal(ClassifyFilterLine(lines[i]))
      {
        ClassifiedAt(lines, i);
      }
      r := BuildForest(nodes, roots);
    }

    /** One line of `parse`: a fatal line or a failed entry ends the parse, an entry is added and its tags and category are collected. */
    method ReadLine(lines: seq<string>, n: nat, ghost ls: seq<FilterLine>, nodes: seq<FilterNode>, roots: seq<nat>, levels: array<int>)
      returns (ok: bool, nodes': seq<FilterNode>, roots': seq<nat>, levels': array<int>)
      requires ls == Classified(lines) && n < |lines|
      requires ArenaOk(nodes) && SlotsOk(nodes, levels[..]) && NoFatal(ls[..n])
      requires tags == TagsOf(ls[..n]) && categories == CategoriesOf(ls[..n])
      requires RootsMatch(nodes, roots, TopEntries(ls[..n]))
      modifies this, levels
      ensures ok ==> ArenaOk(nodes') && SlotsOk(nodes', levels'[..]) && NoFatal(ls[..n + 1])
      ensures ok ==> tags == TagsOf(ls[..n + 1]) && categories == CategoriesOf(ls[..n + 1])
      ensures ok ==> RootsMatch(nodes', roots', TopEntries(ls[..n + 1]))
      ensures ok ==> levels' == levels || fresh(levels')
      ensures IsFatal(ls[n]) ==> !ok
      ensures ok <==> LineStep(ArenaState(nodes, roots, old(levels[..])), ls[n]).Some?
      ensures ok ==> LineStep(ArenaState(nodes, roots, old(levels[..])), ls[n]) == Some(ArenaState(nodes', roots', levels'[..]))
    {
      nodes', roots', levels' := nodes, roots, levels;
      var line := ClassifyFilterLine(lines[n]);
      ClassifiedAt(lines, n);
      PrefixStep(ls, n);
      if IsFatal(line) {
        return false, nodes', roots', levels';
      }
      ok := true;
      if line.Entry? {
        tags := tags + LineTags(line);
        categories := categories + LineCategories(line);
        ok, nodes', roots', levels' := AddEntry(line, nodes, roots, levels, TopEntries(ls[..n]));
      }
    }
  }
}
