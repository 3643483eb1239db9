/**
 * The handful of java.lang.String operations the modelled code relies on,
 * stated over `seq<char>`: trim, prefix/suffix/containment tests, index
 * search, literal replacement and `split` with its trailing-empty removal.
 * Case mapping is restricted to ASCII.
 */
module JavaStrings {
  import opened Wrappers

  /** `String.trim` removes every character whose code is at most U+0020. */
  predicate IsTrimmable(c: char) { c <= ' ' }

  /** The first loop of `String.trim`: from `i`, the index of the first character that is not trimmable, or `|s|`. */
  function TrimFrom(s: string, i: nat): (k: nat)
    requires i <= |s|
    ensures i <= k <= |s|
    ensures k < |s| ==> !IsTrimmable(s[k])
    decreases |s| - i
  {
    if i < |s| && IsTrimmable(s[i]) then TrimFrom(s, i + 1) else i
  }

  /** The second loop of `String.trim`: from `j` down to `b`, the end of the text without its trailing trimmable characters. */
  function TrimTo(s: string, b: nat, j: nat): (k: nat)
    requires b <= j <= |s|
    ensures b <= k <= j
    ensures k > b ==> !IsTrimmable(s[k - 1])
    decreases j
  {
    if j > b && IsTrimmable(s[j - 1]) then TrimTo(s, b, j - 1) else j
  }

  /** Everything the first loop skips is trimmable. */
  lemma {:induction false} TrimFromDrops(s: string, i: nat)
    requires i <= |s|
    ensures forall k :: i <= k < TrimFrom(s, i) ==> IsTrimmable(s[k])
    decreases |s| - i
  {
    if i < |s| && IsTrimmable(s[i]) {
      TrimFromDrops(s, i + 1);
    }
  }

  /** Everything the second loop drops is trimmable. */
  lemma {:induction false} TrimToDrops(s: string, b: nat, j: nat)
    requires b <= j <= |s|
    ensures forall k :: TrimTo(s, b, j) <= k < j ==> IsTrimmable(s[k])
    decreases j
  {
    if j > b && IsTrimmable(s[j - 1]) {
      TrimToDrops(s, b, j - 1);
    }
  }

  /** The second loop stops at the last character, before `j`, that is not trimmable. */
  lemma {:induction false} TrimToStops(s: string, b: nat, j: nat, m: nat)
    requires b < m <= j <= |s| && !IsTrimmable(s[m - 1])
    requires forall k :: m <= k < j ==> IsTrimmable(s[k])
    ensures TrimTo(s, b, j) == m
    decreases j
  {
    if j > m {
      TrimToStops(s, b, j - 1, m);
    }
  }

  /** `String.trim`: the longest infix that neither starts nor ends with a trimmable character. */
  function Trim(s: string): (r: string)
    ensures |r| <= |s|
    ensures r == [] || (!IsTrimmable(r[0]) && !IsTrimmable(r[|r| - 1]))
    ensures (s == [] || (!IsTrimmable(s[0]) && !IsTrimmable(s[|s| - 1]))) ==> r == s
  {
    var b := TrimFrom(s, 0);
    var e := TrimTo(s, b, |s|);
    assert b == 0 && e == |s| ==> s[b..e] == s;
    s[b..e]
  }

  /** The trimmed text is the infix of `s` that starts after the leading trimmable characters. */
  lemma TrimInfix(s: string)
    ensures TrimFrom(s, 0) + |Trim(s)| <= |s|
    ensures forall k :: 0 <= k < |Trim(s)| ==> Trim(s)[k] == s[TrimFrom(s, 0) + k]
  {
  }

  /** Trimming leaves nothing exactly when every character is trimmable. */
  lemma TrimEmpty(s: string)
    ensures Trim(s) == [] <==> forall i :: 0 <= i < |s| ==> IsTrimmable(s[i])
  {
    var b := TrimFrom(s, 0);
    TrimFromDrops(s, 0);
    TrimToDrops(s, b, |s|);
  }

  predicate StartsWith(s: string, p: string) { |p| <= |s| && s[..|p|] == p }

  predicate EndsWith(s: string, p: string) { |p| <= |s| && s[|s| - |p|..] == p }

  /** `String.contains`: `t` occurs somewhere in `s`. */
  predicate Contains(s: string, t: string)
    decreases |s|
  {
    StartsWith(s, t) || (s != [] && Contains(s[1..], t))
  }

  /** `t` occurs in `s` starting at index `i`. */
  predicate OccursAt(s: string, t: string, i: int)
  {
    0 <= i <= |s| - |t| && s[i..i + |t|] == t
  }

  /** `Contains` holds exactly when `t` occurs at some index of `s`. */
  lemma {:induction false} ContainsAt(s: string, t: string)
    ensures Contains(s, t) <==> exists i :: OccursAt(s, t, i)
    decreases |s|
  {
    if StartsWith(s, t) {
      assert OccursAt(s, t, 0);
    } else if s == [] {
    } else {
      ContainsAt(s[1..], t);
      if Contains(s[1..], t) {
        var i :| OccursAt(s[1..], t, i);
        assert s[i + 1..i + 1 + |t|] == s[1..][i..i + |t|];
        assert OccursAt(s, t, i + 1);
      }
      if exists i :: OccursAt(s, t, i) {
        var i :| OccursAt(s, t, i);
        assert i != 0;
        assert s[1..][i - 1..i - 1 + |t|] == s[i..i + |t|];
        assert OccursAt(s[1..], t, i - 1);
      }
    }
  }

  /** `String.indexOf(char)`: the first index holding `c`, or -1. */
  function IndexOf(s: string, c: char): (r: int)
    ensures -1 <= r < |s|
    ensures r == -1 <==> c !in s
    ensures r >= 0 ==> s[r] == c && c !in s[..r]
  {
    if s == [] then -1
    else if s[0] == c then 0
    else
      var r := IndexOf(s[1..], c);
      assert s[1..] == s[..|s|][1..];
      if r == -1 then -1
      else
        assert s[..r + 1] == [s[0]] + s[1..][..r];
        r + 1
  }

  /** `String.lastIndexOf(char)`: the last index holding `c`, or -1. */
  function LastIndexOf(s: string, c: char): (r: int)
    ensures -1 <= r < |s|
    ensures r >= 0 ==> s[r] == c
    ensures forall k :: r < k < |s| ==> s[k] != c
  {
    if s == [] then -1
    else if s[|s| - 1] == c then |s| - 1
    else
      var r := LastIndexOf(s[..|s| - 1], c);
      assert forall k :: r < k < |s| - 1 ==> s[k] == s[..|s| - 1][k];
      r
  }

  /** `String.replace(char, char)`. */
  function ReplaceChar(s: string, a: char, b: char): (r: string)
    ensures |r| == |s|
    ensures forall i :: 0 <= i < |s| ==> r[i] == (if s[i] == a then b else s[i])
  {
    seq(|s|, i requires 0 <= i < |s| => if s[i] == a then b else s[i])
  }

  /** Every occurrence of `c` removed (`replace("c", "")`). */
  function RemoveChar(s: string, c: char): (r: string)
    ensures c !in r
    ensures forall x :: x in r <==> x in s && x != c
    ensures |r| <= |s|
  {
    if s == [] then []
    else (if s[0] == c then [] else [s[0]]) + RemoveChar(s[1..], c)
  }

  /**
   * `String.replace(CharSequence, CharSequence)`: every non-overlapping
   * occurrence of `target`, scanning left to right, becomes `repl`.
   */
  function ReplaceAll(s: string, target: string, repl: string): string
    requires |target| > 0
    decreases |s|
  {
    if s == [] then []
    else if StartsWith(s, target) then repl + ReplaceAll(s[|target|..], target, repl)
    else [s[0]] + ReplaceAll(s[1..], target, repl)
  }

  /** Replacing a target that never occurs leaves the text unchanged. */
  lemma {:induction false} ReplaceAllAbsent(s: string, target: string, repl: string)
    requires |target| > 0
    requires !Contains(s, target)
    ensures ReplaceAll(s, target, repl) == s
    decreases |s|
  {
    if s != [] {
      ReplaceAllAbsent(s[1..], target, repl);
    }
  }

  predicate IsAsciiUpper(c: char) { 'A' <= c <= 'Z' }
  predicate IsAsciiLower(c: char) { 'a' <= c <= 'z' }

  function LowerChar(c: char): char
  {
    if IsAsciiUpper(c) then (c as int - 'A' as int + 'a' as int) as char else c
  }

  function UpperChar(c: char): char
  {
    if IsAsciiLower(c) then (c as int - 'a' as int + 'A' as int) as char else c
  }

  /** `String.toLowerCase`, restricted to ASCII letters. */
  function ToLower(s: string): (r: string)
    ensures |r| == |s|
    ensures forall i :: 0 <= i < |s| ==> r[i] == LowerChar(s[i])
  {
    seq(|s|, i requires 0 <= i < |s| => LowerChar(s[i]))
  }

  /** `String.toUpperCase`, restricted to ASCII letters. */
  function ToUpper(s: string): (r: string)
    ensures |r| == |s|
    ensures forall i :: 0 <= i < |s| ==> r[i] == UpperChar(s[i])
  {
    seq(|s|, i requires 0 <= i < |s| => UpperChar(s[i]))
  }

  /** Lower-casing forgets any earlier case change. */
  lemma LowerAbsorbs(s: string)
    ensures ToLower(ToUpper(s)) == ToLower(s)
    ensures ToLower(ToLower(s)) == ToLower(s)
  {
  }

  /** Upper-casing forgets any earlier case change. */
  lemma UpperAbsorbs(s: string)
    ensures ToUpper(ToLower(s)) == ToUpper(s)
    ensures ToUpper(ToUpper(s)) == ToUpper(s)
  {
  }

  /** Case-insensitive equality, as `String.equalsIgnoreCase` on ASCII text. */
  predicate EqualsIgnoreCase(a: string, b: string) { ToUpper(a) == ToUpper(b) }

  /** The number of ' ' characters at the start of `s` (tabs are not counted). */
  function LeadingSpaces(s: string): (n: nat)
    ensures n <= |s|
    ensures forall i :: 0 <= i < n ==> s[i] == ' '
    ensures n == |s| || s[n] != ' '
  {
    if s != [] && s[0] == ' ' then 1 + LeadingSpaces(s[1..]) else 0
  }

  /** `s` cut at every occurrence of `c`, keeping every piece, empty ones included. */
  function SplitOn(s: string, c: char): (r: seq<string>)
    ensures |r| >= 1
    ensures forall k :: 0 <= k < |r| ==> c !in r[k]
    decreases |s|
  {
    var i := IndexOf(s, c);
    if i < 0 then [s]
    else
      var rest := SplitOn(s[i + 1..], c);
      var r := [s[..i]] + rest;
      assert r[0] == s[..i] && c !in s[..i];
      assert forall k :: 1 <= k < |r| ==> r[k] == rest[k - 1];
      r
  }

  /** Pieces glued back together with `sep` between neighbours. */
  function Join(pieces: seq<string>, sep: string): string
  {
    if |pieces| == 0 then []
    else if |pieces| == 1 then pieces[0]
    else pieces[0] + sep + Join(pieces[1..], sep)
  }

  /** Joining one more piece adds the separator and the piece at the end. */
  lemma {:induction false} JoinSnoc(pieces: seq<string>, x: string, sep: string)
    ensures Join(pieces + [x], sep) == if pieces == [] then x else Join(pieces, sep) + sep + x
    decreases |pieces|
  {
    if |pieces| >= 2 {
      JoinSnoc(pieces[1..], x, sep);
      assert (pieces + [x])[1..] == pieces[1..] + [x];
    } else if |pieces| == 1 {
      assert (pieces + [x])[1..] == [x];
    }
  }

  /** Splitting at `c` and joining with `c` gives back the original text. */
  lemma {:induction false} SplitOnJoin(s: string, c: char)
    ensures Join(SplitOn(s, c), [c]) == s
    decreases |s|
  {
    var i := IndexOf(s, c);
    if i >= 0 {
      SplitOnJoin(s[i + 1..], c);
      JoinCons(s[..i], SplitOn(s[i + 1..], c), [c]);
      assert s == s[..i] + [c] + s[i + 1..];
    }
  }

  /** Joining a piece in front of others adds it and the separator at the start. */
  lemma JoinCons(x: string, pieces: seq<string>, sep: string)
    requires pieces != []
    ensures Join([x] + pieces, sep) == x + sep + Join(pieces, sep)
  {
    assert ([x] + pieces)[1..] == pieces;
  }

  /** Drops the empty strings at the end of a `split` result. */
  function StripTrailingEmpty(ps: seq<string>): (r: seq<string>)
    ensures |r| <= |ps| && r == ps[..|r|]
    ensures r == [] || r[|r| - 1] != []
    ensures forall k :: |r| <= k < |ps| ==> ps[k] == []
  {
    if ps != [] && ps[|ps| - 1] == [] then StripTrailingEmpty(ps[..|ps| - 1]) else ps
  }

  /**
   * `String.split` with a single-character separator and no limit: the input
   * itself when the separator never occurs, otherwise the pieces with the
   * trailing empty ones removed.
   */
  function JavaSplit(s: string, c: char): (r: seq<string>)
    ensures c !in s ==> r == [s]
    ensures forall k :: 0 <= k < |r| ==> c !in r[k]
  {
    if c !in s then [s] else StripTrailingEmpty(SplitOn(s, c))
  }

  /** Every piece trimmed. */
  function TrimAll(ps: seq<string>): (r: seq<string>)
    ensures |r| == |ps| && forall k :: 0 <= k < |ps| ==> r[k] == Trim(ps[k])
  {
    seq(|ps|, k requires 0 <= k < |ps| => Trim(ps[k]))
  }

  /** `split(c, 2)`: the text before and after the first `c`, if there is one. */
  function SplitFirst(s: string, c: char): (r: Option<(string, string)>)
    ensures r.None? <==> c !in s
    ensures r.Some? ==> r.value.0 + [c] + r.value.1 == s && c !in r.value.0
  {
    var i := IndexOf(s, c);
    if i < 0 then None else Some((s[..i], s[i + 1..]))
  }
}
