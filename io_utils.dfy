/**
 * The map server's path-name helpers (`IOUtils`): the file name after the
 * last separator, the extension after the last dot of that name, and the
 * name without it. A `null` argument is `None`; the NUL-byte check throws,
 * which is the `Err` case.
 */
module IoUtils {
  import opened Wrappers
  import opened JavaStrings

  /** The `IllegalArgumentException` thrown for a path that holds a NUL character. */
  datatype PathError = NullBytePresent

  /** Both separators are recognised whatever the platform: '/' (47) and '\' (92). */
  predicate IsSeparator(c: char) { c == '/' || c == '\\' }

  /** `indexOfLastSeparator`: the later of the last '/' and the last '\', or -1 (also for `null`). */
  function IndexOfLastSeparator(filename: Option<string>): (r: int)
    ensures filename.None? ==> r == -1
    ensures filename.Some? ==> -1 <= r < |filename.value|
    ensures filename.Some? && r >= 0 ==> IsSeparator(filename.value[r])
    ensures filename.Some? ==> forall k :: r < k < |filename.value| ==> !IsSeparator(filename.value[k])
  {
    match filename
    case None => -1
    case Some(s) =>
      var unix := LastIndexOf(s, '/');
      var windows := LastIndexOf(s, '\\');
      if unix > windows then unix else windows
  }

  /** What `failIfNullBytePresent` rejects: some character of the path is NUL. */
  predicate HasNullByte(path: string)
  {
    exists i :: 0 <= i < |path| && path[i] == '\0'
  }

  /** `failIfNullBytePresent`: scans the path and throws at the first NUL character. */
  method FailIfNullBytePresent(path: string) returns (r: Result<(), PathError>)
    ensures r.Err? <==> HasNullByte(path)
  {
    var i := 0;
    while i < |path|
      invariant 0 <= i <= |path|
      invariant forall k :: 0 <= k < i ==> path[k] != '\0'
    {
      if path[i] == '\0' {
        return Err(NullBytePresent);
      }
      i := i + 1;
    }
    return Ok(());
  }

  /** `getName`: the text after the last separator. */
  function GetName(filename: Option<string>): (r: Result<Option<string>, PathError>)
    ensures filename.None? ==> r == Ok(None)
    ensures filename.Some? ==> (r.Err? <==> HasNullByte(filename.value))
    ensures r.Ok? && filename.Some? ==> r.value.Some?
  {
    match filename
    case None => Ok(None)
    case Some(s) =>
      if HasNullByte(s) then Err(NullBytePresent)
      else Ok(Some(s[IndexOfLastSeparator(filename) + 1..]))
  }

  /** `indexOfExtension`: the last '.', unless a separator comes after it; -1 otherwise (also for `null`). */
  function IndexOfExtension(filename: Option<string>): (r: int)
    ensures filename.None? ==> r == -1
    ensures filename.Some? ==> -1 <= r < |filename.value|
    ensures filename.Some? && r >= 0 ==> var s := filename.value;
      s[r] == '.' && forall k :: r < k < |s| ==> s[k] != '.' && !IsSeparator(s[k])
    ensures filename.Some? && r == -1 ==> var s := filename.value;
      forall k :: IndexOfLastSeparator(filename) < k < |s| ==> s[k] != '.'
  {
    match filename
    case None => -1
    case Some(s) =>
      var extensionPos := LastIndexOf(s, '.');
      var lastSeparator := IndexOfLastSeparator(filename);
      if lastSeparator > extensionPos then -1 else extensionPos
  }

  /** `getExtension`: the text after the extension's dot, "" without one; no NUL check. */
  function GetExtension(filename: Option<string>): (r: Option<string>)
    ensures filename.None? <==> r.None?
    ensures filename.Some? && IndexOfExtension(filename) == -1 ==> r == Some("")
    ensures r.Some? ==> forall k :: 0 <= k < |r.value| ==> r.value[k] != '.' && !IsSeparator(r.value[k])
    ensures r.Some? ==> EndsWith(filename.value, r.value)
  {
    match filename
    case None => None
    case Some(s) =>
      var index := IndexOfExtension(filename);
      if index == -1 then Some("") else Some(s[index + 1..])
  }

  /** `removeExtension`: the text before the extension's dot, or all of it without one. */
  function RemoveExtension(filename: Option<string>): (r: Result<Option<string>, PathError>)
    ensures filename.None? ==> r == Ok(None)
    ensures filename.Some? ==> (r.Err? <==> HasNullByte(filename.value))
    ensures r.Ok? && filename.Some? ==> r.value.Some? && |r.value.value| <= |filename.value|
    // a path without an extension comes back unchanged
    ensures filename.Some? && !HasNullByte(filename.value) && IndexOfExtension(filename) == -1 ==> r == Ok(filename)
    // otherwise the base, the dot and `getExtension` make up the path again
    ensures filename.Some? && !HasNullByte(filename.value) && IndexOfExtension(filename) != -1
      ==> r.Ok? && r.value.value + "." + GetExtension(filename).value == filename.value
  {
    match filename
    case None => Ok(None)
    case Some(s) =>
      if HasNullByte(s) then Err(NullBytePresent)
      else
        var index := IndexOfExtension(filename);
        Ok(Some(if index == -1 then s else s[..index]))
  }

  /** `getBaseName`: `removeExtension(getName(filename))`. */
  function GetBaseName(filename: Option<string>): Result<Option<string>, PathError>
  {
    match GetName(filename)
    case Err(e) => Err(e)
    case Ok(name) => RemoveExtension(name)
  }

  /**
   * The name is the longest suffix without a separator: it holds no
   * separator, and it is the whole path or follows a separator.
   */
  lemma GetNameIsLastSegment(s: string)
    requires !HasNullByte(s)
    ensures GetName(Some(s)).Ok?
    ensures var name := GetName(Some(s)).value.value;
      EndsWith(s, name)
      && (forall k :: 0 <= k < |name| ==> !IsSeparator(name[k]))
      && (|name| == |s| || IsSeparator(s[|s| - |name| - 1]))
  {
    var i := IndexOfLastSeparator(Some(s));
    var name := s[i + 1..];
    assert forall k :: 0 <= k < |name| ==> name[k] == s[i + 1 + k];
  }

  /** Where there is an extension, the name without it, a dot and the extension spell the path again. */
  lemma ExtensionRoundTrip(s: string)
    requires !HasNullByte(s) && IndexOfExtension(Some(s)) != -1
    ensures RemoveExtension(Some(s)).Ok?
    ensures RemoveExtension(Some(s)).value.value + "." + GetExtension(Some(s)).value == s
  {
    var i := IndexOfExtension(Some(s));
    assert s[..i] + "." + s[i + 1..] == s[..i] + s[i..i + 1] + s[i + 1..];
    assert s[..i] + s[i..i + 1] + s[i + 1..] == s;
  }

  /** The text after the last separator has no separator of its own. */
  lemma NoSeparatorInName(s: string)
    ensures IndexOfLastSeparator(Some(s[IndexOfLastSeparator(Some(s)) + 1..])) == -1
  {
    var sep := IndexOfLastSeparator(Some(s));
    var name := s[sep + 1..];
    assert forall k :: 0 <= k < |name| ==> name[k] == s[k + sep + 1];
  }

  /** The name a NUL-free path yields, itself NUL-free and without separators. */
  lemma NameOf(s: string)
    requires !HasNullByte(s)
    ensures var name := s[IndexOfLastSeparator(Some(s)) + 1..];
      GetName(Some(s)) == Ok(Some(name)) && !HasNullByte(name) && IndexOfLastSeparator(Some(name)) == -1
  {
    var sep := IndexOfLastSeparator(Some(s));
    var name := s[sep + 1..];
    assert forall k :: 0 <= k < |name| ==> name[k] == s[k + sep + 1];
  }

  /** Taking the name of a name changes nothing. */
  lemma GetNameIdempotent(s: string)
    requires !HasNullByte(s)
    ensures GetName(Some(s)).Ok?
    ensures GetName(GetName(Some(s)).value) == GetName(Some(s))
  {
    NameOf(s);
    var name := s[IndexOfLastSeparator(Some(s)) + 1..];
    assert name[0..] == name;
  }

  /** The last dot of a suffix that contains the last dot of the whole is that dot, shifted. */
  lemma LastDotShift(s: string, d: int, name: string, i: int, j: int)
    requires 0 <= d <= i < |s| && name == s[d..] && s[i] == '.'
    requires forall k :: i < k < |s| ==> s[k] != '.'
    requires -1 <= j < |name|
    requires j >= 0 ==> name[j] == '.' && forall k :: j < k < |name| ==> name[k] != '.'
    requires j == -1 ==> forall k :: 0 <= k < |name| ==> name[k] != '.'
    ensures j == i - d
  {
    assert name[i - d] == '.';
  }

  /** An extension's dot always lies after the last separator. */
  lemma ExtensionAfterSeparator(s: string)
    ensures IndexOfExtension(Some(s)) >= 0 ==> IndexOfExtension(Some(s)) > IndexOfLastSeparator(Some(s))
  {
  }

  /** Where the path has an extension, its dot sits at the same place in the name, shifted by the directory part. */
  lemma DotInName(s: string)
    requires IndexOfExtension(Some(s)) >= 0
    ensures var sep := IndexOfLastSeparator(Some(s));
      IndexOfExtension(Some(s[sep + 1..])) == IndexOfExtension(Some(s)) - sep - 1
  {
    var sep := IndexOfLastSeparator(Some(s));
    var name := s[sep + 1..];
    ExtensionAfterSeparator(s);
    NoSeparatorInName(s);
    LastDotShift(s, sep + 1, name, IndexOfExtension(Some(s)), IndexOfExtension(Some(name)));
  }

  /** Where the path has no extension, neither has its name. */
  lemma NoDotInName(s: string)
    requires IndexOfExtension(Some(s)) == -1
    ensures IndexOfExtension(Some(s[IndexOfLastSeparator(Some(s)) + 1..])) == -1
  {
    var sep := IndexOfLastSeparator(Some(s));
    var name := s[sep + 1..];
    assert forall k :: 0 <= k < |name| ==> name[k] == s[k + sep + 1];
  }

  /** The extension of a path is the extension of its name: the dot always lies after the last separator. */
  lemma ExtensionOfName(s: string)
    requires !HasNullByte(s)
    ensures GetName(Some(s)).Ok?
    ensures GetExtension(GetName(Some(s)).value) == GetExtension(Some(s))
  {
    NameOf(s);
    var sep := IndexOfLastSeparator(Some(s));
    var name := s[sep + 1..];
    var i := IndexOfExtension(Some(s));
    if i >= 0 {
      DotInName(s);
      assert name[i - sep..] == s[i + 1..];
    } else {
      NoDotInName(s);
    }
  }

  /** The base name holds no separator and no NUL, whatever the path. */
  lemma BaseNameIsPlain(s: string)
    requires !HasNullByte(s)
    ensures GetBaseName(Some(s)).Ok? && GetBaseName(Some(s)).value.Some?
    ensures var base := GetBaseName(Some(s)).value.value;
      forall k :: 0 <= k < |base| ==> !IsSeparator(base[k]) && base[k] != '\0'
  {
    NameOf(s);
    var sep := IndexOfLastSeparator(Some(s));
    var name := s[sep + 1..];
    var base := RemoveExtension(Some(name)).value.value;
    assert GetBaseName(Some(s)) == Ok(Some(base));
    assert forall k :: 0 <= k < |base| ==> base[k] == name[k] == s[k + sep + 1];
  }
}
