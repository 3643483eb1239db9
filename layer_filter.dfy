/**
 * The layer filters a vector-tile decoder is given (`Filter`): which named
 * layers of a tile get decoded.
 */
module LayerFilter {

  /** `ALL`, `Single(layerName)` and `Any(layerNames)`. */
  datatype Filter = All | Single(layerName: string) | Any(layerNames: set<string>)

  /** `include`: whether the layer with this name is decoded. */
  predicate Include(f: Filter, layerName: string)
  {
    match f
    case All => true
    case Single(n) => n == layerName
    case Any(ns) => layerName in ns
  }

  /** The names a filter lets through, as a predicate over all names. */
  lemma IncludeMeaning(f: Filter, x: string)
    ensures f.All? ==> Include(f, x)
    ensures f.Single? ==> (Include(f, x) <==> x == f.layerName)
    ensures f.Any? ==> (Include(f, x) <==> x in f.layerNames)
  {
  }

  /** `Any` of one name lets through exactly what `Single` of it does. */
  lemma AnyOfOneIsSingle(n: string, x: string)
    ensures Include(Any({n}), x) <==> Include(Single(n), x)
  {
  }

  /** `Any` of a union lets a name through exactly when either part does. */
  lemma AnyOfUnion(a: set<string>, b: set<string>, x: string)
    ensures Include(Any(a + b), x) <==> Include(Any(a), x) || Include(Any(b), x)
  {
  }

  /** `Any` of the empty set lets nothing through. */
  lemma AnyOfNothing(x: string)
    ensures !Include(Any({}), x)
  {
  }
}
