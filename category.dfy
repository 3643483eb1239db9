/**
 * One category of a classification scheme: its generated UUID, original
 * identifier, name, parent identifier, and the embedded (default) category
 * it maps to with a similarity score. Empty strings are stored as absent.
 */
module Categories {
  import opened Wrappers

  /** The state of a category, as a value. */
  datatype CategoryView = CategoryView(
    uuid: Option<string>, id: Option<string>, name: Option<string>, parent: Option<string>,
    embedCategory: Option<string>, embedScore: real)
  {
    /** `hasUUID`, `hasId`, `hasParent`, `hasName`: the field is not null. */
    predicate HasUUID() { uuid.Some? }
    predicate HasId() { id.Some? }
    predicate HasParent() { parent.Some? }
    predicate HasName() { name.Some? }
  }

  /** The text as stored: an empty string becomes null. */
  function NonEmpty(s: string): (r: Option<string>)
    ensures r.None? <==> s == []
    ensures r.Some? ==> r.value == s
  {
    if s == [] then None else Some(s)
  }

  /**
   * The category the normalising constructor builds: no stored string is
   * empty, and a missing embedded category carries a score of zero.
   */
  function NewCategory(uuid: string, id: string, name: string, parent: string, embedCategory: Option<string>, embedScore: real)
    : (c: CategoryView)
    ensures c.uuid != Some([]) && c.id != Some([]) && c.name != Some([]) && c.parent != Some([]) && c.embedCategory != Some([])
    ensures (c.uuid.None? <==> uuid == []) && (c.uuid.Some? ==> c.uuid.value == uuid)
    ensures (c.id.None? <==> id == []) && (c.id.Some? ==> c.id.value == id)
    ensures (c.name.None? <==> name == []) && (c.name.Some? ==> c.name.value == name)
    ensures (c.parent.None? <==> parent == []) && (c.parent.Some? ==> c.parent.value == parent)
    ensures c.embedCategory.None? <==> embedCategory.None? || embedCategory.value == []
    ensures c.embedCategory.None? ==> c.embedScore == 0.0
    ensures c.embedCategory.Some? ==> c.embedCategory == embedCategory && c.embedScore == embedScore
  {
    var embed := if embedCategory.Some? then NonEmpty(embedCategory.value) else None;
    CategoryView(NonEmpty(uuid), NonEmpty(id), NonEmpty(name), NonEmpty(parent), embed,
                 if embed.None? then 0.0 else embedScore)
  }

  /**
   * The `has...` tests of a new category: each holds exactly when the
   * constructor was given a non-empty text, so a top-tier category, built
   * with an empty parent, has no parent.
   */
  lemma NewCategoryHas(uuid: string, id: string, name: string, parent: string, embedCategory: Option<string>, embedScore: real)
    ensures var c := NewCategory(uuid, id, name, parent, embedCategory, embedScore);
      && (c.HasUUID() <==> uuid != [])
      && (c.HasId() <==> id != [])
      && (c.HasName() <==> name != [])
      && (c.HasParent() <==> parent != [])
    ensures !NewCategory(uuid, id, name, "", embedCategory, embedScore).HasParent()
  {
  }

  class Category {
    var uuid: Option<string>
    const id: Option<string>
    const name: Option<string>
    const parent: Option<string>
    var embedCategory: Option<string>
    var embedScore: real

    function View(): CategoryView
      reads this
    {
      CategoryView(uuid, id, name, parent, embedCategory, embedScore)
    }

    constructor(uuid: string, id: string, name: string, parent: string, embedCategory: Option<string>, embedScore: real)
      ensures View() == NewCategory(uuid, id, name, parent, embedCategory, embedScore)
      ensures (HasUUID() <==> uuid != []) && (HasId() <==> id != []) && (HasName() <==> name != [])
      ensures HasParent() <==> parent != []
    {
      this.uuid := NonEmpty(uuid);
      this.id := NonEmpty(id);
      this.name := NonEmpty(name);
      this.parent := NonEmpty(parent);
      var embed := if embedCategory.Some? then NonEmpty(embedCategory.value) else None;
      this.embedCategory := embed;
      this.embedScore := if embed.None? then 0.0 else embedScore;
    }

    predicate HasUUID() reads this { View().HasUUID() }
    predicate HasId() reads this { View().HasId() }
    predicate HasParent() reads this { View().HasParent() }
    predicate HasName() reads this { View().HasName() }

    method SetUUID(u: Option<string>)
      modifies this
      ensures View() == old(View()).(uuid := u)
    {
      uuid := u;
    }

    method SetEmbedCategory(cat: Option<string>)
      modifies this
      ensures View() == old(View()).(embedCategory := cat)
    {
      embedCategory := cat;
    }

    method SetEmbedScore(score: real)
      modifies this
      ensures View() == old(View()).(embedScore := score)
    {
      embedScore := score;
    }
  }
}
