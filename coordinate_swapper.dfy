/**
 * The longitude/latitude swap (`CoordinateSwapper`), a coordinate-sequence
 * filter that overwrites ordinates in place, and the traversal a geometry
 * runs it under: every coordinate sequence of the geometry (the one of a
 * line or point, the shell then the holes of a polygon, the parts of a
 * collection) in order, index by index, stopping as soon as the filter
 * reports that it is done.
 */
module CoordinateSwap {

  /** A coordinate: ordinate 0 (x), ordinate 1 (y) and the further ordinate z. */
  datatype Coordinate = Coordinate(x: real, y: real, z: real)

  /** The coordinate with its first two ordinates exchanged. */
  function SwapXY(c: Coordinate): (r: Coordinate)
    ensures r.x == c.y && r.y == c.x && r.z == c.z
  {
    Coordinate(c.y, c.x, c.z)
  }

  /** Swapping twice restores the coordinate. */
  lemma SwapTwice(c: Coordinate)
    ensures SwapXY(SwapXY(c)) == c
  {
  }

  /** Every coordinate of a sequence swapped. */
  function SwapAll(p: seq<Coordinate>): (r: seq<Coordinate>)
    ensures |r| == |p| && forall k :: 0 <= k < |r| ==> r[k] == SwapXY(p[k])
  {
    if p == [] then [] else [SwapXY(p[0])] + SwapAll(p[1..])
  }

  /** The filter. */
  class CoordinateSwapper {
    var done: bool

    constructor ()
      ensures !done
    {
      done := false;
    }

    /** `filter(seq, i)`: ordinate 0 takes the old y, ordinate 1 the old x; done once the last index is reached. */
    method Filter(cs: array<Coordinate>, i: int)
      requires 0 <= i < cs.Length
      modifies this, cs
      ensures cs[i] == SwapXY(old(cs[i]))
      ensures forall k :: 0 <= k < cs.Length && k != i ==> cs[k] == old(cs[k])
      ensures done == (old(done) || i == cs.Length - 1)
    {
      var x := cs[i].x;
      var y := cs[i].y;
      cs[i] := cs[i].(x := y);
      cs[i] := cs[i].(y := x);
      if i == cs.Length - 1 {
        done := true;
      }
    }

    /** `isDone`. */
    function IsDone(): (r: bool)
      reads this
      ensures r == done
    {
      done
    }

    /** `isGeometryChanged`: always true. */
    function IsGeometryChanged(): (r: bool)
      ensures r
    {
      true
    }
  }

  /** The current contents of a geometry's coordinate sequences. */
  function Views(g: seq<array<Coordinate>>): (r: seq<seq<Coordinate>>)
    reads set k | 0 <= k < |g| :: g[k]
    ensures |r| == |g| && forall k :: 0 <= k < |g| ==> r[k] == g[k][..]
  {
    if g == [] then [] else [g[0][..]] + Views(g[1..])
  }

  /** The index of the first non-empty sequence, or the number of sequences when all are empty. */
  function FirstNonEmpty(ps: seq<seq<Coordinate>>): (f: nat)
    ensures f <= |ps|
    ensures forall k :: 0 <= k < f ==> ps[k] == []
    ensures f < |ps| ==> ps[f] != []
  {
    if ps == [] then 0 else if ps[0] != [] then 0 else 1 + FirstNonEmpty(ps[1..])
  }

  /**
   * What `swapCoordinates` leaves behind: the first non-empty sequence
   * swapped, since the filter reports done at its last index, and every
   * later sequence untouched.
   */
  function AsWritten(ps: seq<seq<Coordinate>>): (r: seq<seq<Coordinate>>)
    ensures |r| == |ps|
    ensures forall k :: 0 <= k < |ps| && k <= FirstNonEmpty(ps) ==> r[k] == SwapAll(ps[k])
    ensures forall k :: FirstNonEmpty(ps) < k < |ps| ==> r[k] == ps[k]
  {
    var f := FirstNonEmpty(ps);
    if f == |ps| then ps else ps[f := SwapAll(ps[f])]
  }

  /** What swapping a geometry's coordinates evidently means: every sequence swapped. */
  function Intended(ps: seq<seq<Coordinate>>): (r: seq<seq<Coordinate>>)
    ensures |r| == |ps| && forall k :: 0 <= k < |ps| ==> r[k] == SwapAll(ps[k])
  {
    if ps == [] then [] else [SwapAll(ps[0])] + Intended(ps[1..])
  }

  /** The sequences of a geometry are distinct objects. */
  predicate Distinct(g: seq<array<Coordinate>>)
  {
    forall j, k :: 0 <= j < |g| && 0 <= k < |g| && j != k ==> g[j] != g[k]
  }

  /**
   * The traversal of one coordinate sequence: nothing for an empty one,
   * otherwise `filter` at each index in turn until the filter is done. A
   * swapper that is not yet done swaps the whole sequence and is done after it.
   */
  method ApplyToSequence(f: CoordinateSwapper, a: array<Coordinate>)
    requires !f.done
    modifies f, a
    ensures a[..] == SwapAll(old(a[..]))
    ensures f.done == (a.Length > 0)
  {
    if a.Length == 0 {
      return;
    }
    ghost var before := a[..];
    var i := 0;
    while i < a.Length
      invariant 0 <= i < a.Length && !f.done
      invariant forall k :: 0 <= k < i ==> a[k] == SwapXY(before[k])
      invariant forall k :: i <= k < a.Length ==> a[k] == before[k]
    {
      f.Filter(a, i);
      if f.IsDone() {
        assert a[..] == SwapAll(before);
        break;
      }
      i := i + 1;
    }
  }

  /** Once the traversal stops at the first non-empty sequence, the geometry holds `AsWritten` of what it held. */
  lemma StoppedAtFirst(g: seq<array<Coordinate>>, before: seq<seq<Coordinate>>, j: int)
    requires |before| == |g| && 0 <= j < |g| && j <= FirstNonEmpty(before) && before[j] != []
    requires g[j][..] == SwapAll(before[j])
    requires forall k :: 0 <= k < |g| && k != j ==> g[k][..] == before[k]
    ensures Views(g) == AsWritten(before)
  {
    assert FirstNonEmpty(before) == j;
  }

  /**
   * `swapCoordinates(geom)` as written: a fresh swapper applied by the
   * geometry's traversal, which stops after the filter reports done.
   */
  method SwapCoordinates(g: seq<array<Coordinate>>)
    requires Distinct(g)
    modifies set k | 0 <= k < |g| :: g[k]
    ensures Views(g) == AsWritten(old(Views(g)))
  {
    ghost var before := Views(g);
    var f := new CoordinateSwapper();
    var j := 0;
    while j < |g|
      invariant 0 <= j <= |g| && !f.done
      invariant j <= FirstNonEmpty(before)
      invariant forall k :: 0 <= k < |g| ==> g[k][..] == before[k]
    {
      var a := g[j];
      assert forall k :: 0 <= k < |g| && k != j ==> g[k] != a;
      ApplyToSequence(f, a);
      if f.IsDone() {
        StoppedAtFirst(g, before, j);
        return;
      }
      j := j + 1;
    }
    assert Views(g) == AsWritten(before);
  }

  /** Swapping every sequence twice restores the geometry. */
  lemma IntendedTwice(ps: seq<seq<Coordinate>>)
    ensures Intended(Intended(ps)) == ps
  {
    forall k | 0 <= k < |ps| ensures Intended(Intended(ps))[k] == ps[k] {
      assert forall m :: 0 <= m < |ps[k]| ==> SwapXY(SwapXY(ps[k][m])) == ps[k][m];
    }
  }

  /** For a geometry with a single coordinate sequence (a point, a line, a polygon without holes) the swap is complete. */
  lemma SinglePartComplete(ps: seq<seq<Coordinate>>)
    requires |ps| <= 1
    ensures AsWritten(ps) == Intended(ps)
  {
  }

  /**
   * Where every sequence after the first non-empty one is unchanged by
   * swapping (each of its coordinates has x == y), the swap as written is
   * complete; with the next lemma, it is complete exactly then.
   */
  lemma AsWrittenCompleteIf(ps: seq<seq<Coordinate>>)
    requires forall k :: FirstNonEmpty(ps) < k < |ps| ==> SwapAll(ps[k]) == ps[k]
    ensures AsWritten(ps) == Intended(ps)
  {
    forall k | 0 <= k < |ps| ensures AsWritten(ps)[k] == Intended(ps)[k] {
      if k > FirstNonEmpty(ps) {
        assert AsWritten(ps)[k] == ps[k];
      }
    }
  }

  /** Where the swap as written is complete, every sequence after the first non-empty one is symmetric. */
  lemma AsWrittenCompleteOnlyIf(ps: seq<seq<Coordinate>>)
    requires AsWritten(ps) == Intended(ps)
    ensures forall k :: FirstNonEmpty(ps) < k < |ps| ==> SwapAll(ps[k]) == ps[k]
  {
    forall k | FirstNonEmpty(ps) < k < |ps| ensures SwapAll(ps[k]) == ps[k] {
      assert AsWritten(ps)[k] == ps[k];
      assert Intended(ps)[k] == SwapAll(ps[k]);
    }
  }

  /** A two-part geometry whose second part is left unswapped: [(1, 2)], [(3, 4)] becomes [(2, 1)], [(3, 4)]. */
  lemma SecondPartLeftUnswapped()
    ensures var ps := [[Coordinate(1.0, 2.0, 0.0)], [Coordinate(3.0, 4.0, 0.0)]];
      AsWritten(ps) == [[Coordinate(2.0, 1.0, 0.0)], [Coordinate(3.0, 4.0, 0.0)]]
      && AsWritten(ps) != Intended(ps)
  {
    var ps := [[Coordinate(1.0, 2.0, 0.0)], [Coordinate(3.0, 4.0, 0.0)]];
    assert FirstNonEmpty(ps) == 0;
    assert AsWritten(ps)[0] == SwapAll(ps[0]) == [Coordinate(2.0, 1.0, 0.0)];
    assert AsWritten(ps)[1] == ps[1];
    assert Intended(ps)[1] == [Coordinate(4.0, 3.0, 0.0)];
  }

  /** The swapper with the stop removed: `isDone` is always false, so the traversal visits every coordinate. */
  class FullCoordinateSwapper {
    constructor ()
    {
    }

    /** `filter(seq, i)`: ordinate 0 takes the old y, ordinate 1 the old x. */
    method Filter(cs: array<Coordinate>, i: int)
      requires 0 <= i < cs.Length
      modifies cs
      ensures cs[i] == SwapXY(old(cs[i]))
      ensures forall k :: 0 <= k < cs.Length && k != i ==> cs[k] == old(cs[k])
    {
      var x := cs[i].x;
      var y := cs[i].y;
      cs[i] := cs[i].(x := y);
      cs[i] := cs[i].(y := x);
    }

    /** `isDone`: never. */
    function IsDone(): (r: bool)
      ensures !r
    {
      false
    }
  }

  /** The traversal of one sequence under the corrected swapper: every index is filtered. */
  method ApplyFullToSequence(f: FullCoordinateSwapper, a: array<Coordinate>)
    modifies a
    ensures a[..] == SwapAll(old(a[..]))
  {
    ghost var before := a[..];
    var i := 0;
    while i < a.Length
      invariant 0 <= i <= a.Length
      invariant forall k :: 0 <= k < i ==> a[k] == SwapXY(before[k])
      invariant forall k :: i <= k < a.Length ==> a[k] == before[k]
    {
      f.Filter(a, i);
      if f.IsDone() {
        break;
      }
      i := i + 1;
    }
  }

  /** `swapCoordinates(geom)` with the corrected swapper: every sequence of the geometry is swapped. */
  method SwapCoordinatesFixed(g: seq<array<Coordinate>>)
    requires Distinct(g)
    modifies set k | 0 <= k < |g| :: g[k]
    ensures Views(g) == Intended(old(Views(g)))
  {
    ghost var before := Views(g);
    var f := new FullCoordinateSwapper();
    var j := 0;
    while j < |g|
      invariant 0 <= j <= |g|
      invariant forall k :: 0 <= k < j ==> g[k][..] == SwapAll(before[k])
      invariant forall k :: j <= k < |g| ==> g[k][..] == before[k]
    {
      ApplyFullToSequence(f, g[j]);
      if f.IsDone() {
        break;
      }
      j := j + 1;
    }
    assert Views(g) == Intended(before);
  }
}
