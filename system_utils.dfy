/**
 * The tileset-name guard of the map server (`SystemUtils.checkTilesetName`):
 * a name that could climb out of the data folder is flagged.
 */
module SystemUtils {
  import opened Wrappers
  import opened JavaStrings
  import IoUtils

  /** `checkTilesetName`: true (reject) when the name contains "..", "/" or "\". */
  function CheckTilesetName(tileset: string): bool
  {
    Contains(tileset, "..") || Contains(tileset, "/") || Contains(tileset, "\\")
  }

  /** Position `i` of the name starts one of the three flagged pieces. */
  predicate UnsafeAt(tileset: string, i: int)
    requires 0 <= i < |tileset|
  {
    tileset[i] == '/' || tileset[i] == '\\' || (tileset[i] == '.' && i + 1 < |tileset| && tileset[i + 1] == '.')
  }

  /** A one-character piece occurs exactly where that character stands. */
  lemma ContainsChar(s: string, c: char)
    ensures Contains(s, [c]) <==> exists i :: 0 <= i < |s| && s[i] == c
  {
    ContainsAt(s, [c]);
    if exists i :: 0 <= i < |s| && s[i] == c {
      var i :| 0 <= i < |s| && s[i] == c;
      assert OccursAt(s, [c], i);
    }
    if exists i :: OccursAt(s, [c], i) {
      var i :| OccursAt(s, [c], i);
      assert s[i] == s[i..i + 1][0];
    }
  }

  /** A two-character pattern occurs at `i` exactly when both characters match there. */
  lemma OccursAtPair(s: string, p: string, i: int)
    requires |p| == 2
    ensures OccursAt(s, p, i) <==> 0 <= i < |s| - 1 && s[i] == p[0] && s[i + 1] == p[1]
  {
    if 0 <= i < |s| - 1 && s[i] == p[0] && s[i + 1] == p[1] {
      assert s[i..i + 2] == p;
    }
    if OccursAt(s, p, i) {
      assert s[i] == s[i..i + 2][0] && s[i + 1] == s[i..i + 2][1];
    }
  }

  /** ".." occurs exactly where a dot is followed by a dot. */
  lemma ContainsDots(s: string)
    ensures Contains(s, "..") <==> exists i :: 0 <= i < |s| - 1 && s[i] == '.' && s[i + 1] == '.'
  {
    var dots := "..";
    assert |dots| == 2 && dots[0] == '.' && dots[1] == '.';
    ContainsAt(s, dots);
    if exists i :: 0 <= i < |s| - 1 && s[i] == '.' && s[i + 1] == '.' {
      var i :| 0 <= i < |s| - 1 && s[i] == '.' && s[i + 1] == '.';
      OccursAtPair(s, dots, i);
    }
    if exists i :: OccursAt(s, dots, i) {
      var i :| OccursAt(s, dots, i);
      OccursAtPair(s, dots, i);
    }
  }

  /** A name is flagged exactly when some position starts "..", "/" or "\". */
  lemma CheckTilesetNameIff(tileset: string)
    ensures CheckTilesetName(tileset) <==> exists i :: 0 <= i < |tileset| && UnsafeAt(tileset, i)
  {
    ContainsDots(tileset);
    ContainsChar(tileset, '/');
    ContainsChar(tileset, '\\');
    assert "/" == ['/'] && "\\" == ['\\'];
    if CheckTilesetName(tileset) {
      var i :| 0 <= i < |tileset| && (tileset[i] == '/' || tileset[i] == '\\'
        || (i < |tileset| - 1 && tileset[i] == '.' && tileset[i + 1] == '.'));
      assert UnsafeAt(tileset, i);
    }
  }

  /**
   * A name that passes the check holds no separator, so it is its own file
   * name: the check keeps requests inside the data folder.
   */
  lemma AcceptedNameIsOwnFileName(tileset: string)
    requires !CheckTilesetName(tileset) && !IoUtils.HasNullByte(tileset)
    ensures IoUtils.GetName(Some(tileset)) == Ok(Some(tileset))
  {
    CheckTilesetNameIff(tileset);
    assert forall k :: 0 <= k < |tileset| ==> !IoUtils.IsSeparator(tileset[k]) by {
      forall k | 0 <= k < |tileset| ensures !IoUtils.IsSeparator(tileset[k]) {
        assert !UnsafeAt(tileset, k);
      }
    }
    assert IoUtils.IndexOfLastSeparator(Some(tileset)) == -1;
    assert tileset[0..] == tileset;
  }

  /** Single dots pass: "a.mbtiles" is accepted. */
  lemma SingleDotsPass()
    ensures !CheckTilesetName("a.mbtiles")
  {
    var s := "a.mbtiles";
    CheckTilesetNameIff(s);
    forall i | 0 <= i < |s| ensures !UnsafeAt(s, i) {
      assert s[i] == '.' ==> i == 1;
    }
  }

  /** A parent reference is rejected: "../a.mbtiles" is flagged. */
  lemma ParentReferenceFlagged()
    ensures CheckTilesetName("../a.mbtiles")
  {
    CheckTilesetNameIff("../a.mbtiles");
    assert UnsafeAt("../a.mbtiles", 0);
  }
}
