/**
 * The tileset listing entry of the map server (`TilesViewModel`): the file
 * name, its type (the name from its last dot on) and a human-readable size.
 */
module TilesView {
  import opened Wrappers
  import opened JavaStrings

  /** The unit `formatFileSize` renders a size in. */
  datatype SizeUnit = B | KB | MB | GB

  const KIB := 1024
  const MIB := 1024 * 1024
  const GIB := 1024 * 1024 * 1024

  /** The power of 1024 a unit stands for. */
  function Divisor(u: SizeUnit): (d: int)
    ensures d > 0
  {
    match u
    case B => 1
    case KB => KIB
    case MB => MIB
    case GB => GIB
  }

  /** The unit's name as appended to the number. */
  function UnitName(u: SizeUnit): string
  {
    match u
    case B => "B"
    case KB => "KB"
    case MB => "MB"
    case GB => "GB"
  }

  /** The branch `formatFileSize` takes: KB, MB and GB by range, bytes for everything else (negative sizes included). */
  function UnitOf(size: int): SizeUnit
  {
    if MIB > size && size >= KIB then KB
    else if GIB > size && size >= MIB then MB
    else if size >= GIB then GB
    else B
  }

  /** The size range each unit covers: the largest unit that the size reaches. */
  predicate InRange(u: SizeUnit, size: int)
  {
    match u
    case B => size < KIB
    case KB => KIB <= size < MIB
    case MB => MIB <= size < GIB
    case GB => GIB <= size
  }

  /** Exactly one unit covers every size, and it is the one `formatFileSize` chooses. */
  lemma UnitOfIsUnique(size: int, u: SizeUnit)
    ensures UnitOf(size) == u <==> InRange(u, size)
  {
  }

  /** For a non-negative size the unit is the largest that fits: the size is at least one unit and below 1024 of them (unless GB). */
  lemma UnitOfFits(size: int)
    requires size >= 0
    ensures var u := UnitOf(size);
      Divisor(u) <= size || size < KIB
    ensures var u := UnitOf(size);
      u != GB ==> size < KIB * Divisor(u)
  {
  }

  /** The character of a decimal digit. */
  function DigitChar(d: int): (c: char)
    requires 0 <= d < 10
    ensures '0' <= c <= '9'
  {
    ('0' as int + d) as char
  }

  /** The value of a decimal digit character. */
  function DigitValue(c: char): (d: int)
    requires '0' <= c <= '9'
    ensures 0 <= d < 10
  {
    c as int - '0' as int
  }

  predicate AllDigits(s: string)
  {
    forall k :: 0 <= k < |s| ==> '0' <= s[k] <= '9'
  }

  /** The decimal digits of a natural number, most significant first, without leading zeros. */
  function NatToString(n: nat): (s: string)
    ensures |s| > 0 && AllDigits(s)
    ensures |s| > 1 ==> s[0] != '0'
    decreases n
  {
    if n < 10 then [DigitChar(n)] else NatToString(n / 10) + [DigitChar(n % 10)]
  }

  /** Reads a string of decimal digits back as a number. */
  function ParseNat(s: string): (n: nat)
    requires AllDigits(s)
    decreases |s|
  {
    if s == [] then 0 else ParseNat(s[..|s| - 1]) * 10 + DigitValue(s[|s| - 1])
  }

  /** Reading back the digits of a number gives the number. */
  lemma {:induction false} NatToStringRoundTrip(n: nat)
    ensures ParseNat(NatToString(n)) == n
    decreases n
  {
    var s := NatToString(n);
    if n < 10 {
      assert s[..|s| - 1] == [];
    } else {
      NatToStringRoundTrip(n / 10);
      assert s[..|s| - 1] == NatToString(n / 10);
      assert DigitValue(s[|s| - 1]) == n % 10;
    }
  }

  /** `Long.toString`: the decimal digits, after a minus sign for a negative number. */
  function LongToString(n: int): (s: string)
  {
    if n < 0 then "-" + NatToString(-n) else NatToString(n)
  }

  /** `Long.parseLong` for decimal text: an optional minus sign and at least one digit. */
  function ParseLong(s: string): (r: Option<int>)
    ensures r.Some? ==> |s| > 0
  {
    if |s| > 1 && s[0] == '-' && AllDigits(s[1..]) then Some(0 - ParseNat(s[1..]) as int)
    else if |s| > 0 && AllDigits(s) then Some(ParseNat(s))
    else None
  }

  /** `Long.toString` loses nothing: parsing its text gives the number back. */
  lemma LongToStringRoundTrip(n: int)
    ensures ParseLong(LongToString(n)) == Some(n)
  {
    if n < 0 {
      NegativeRoundTrip(-n);
    } else {
      var s := NatToString(n);
      NatToStringRoundTrip(n);
      assert s[0] != '-';
      assert ParseLong(s) == Some(ParseNat(s) as int);
    }
  }

  /** The text of a negative number: a minus sign before the digits of its magnitude. */
  lemma NegativeRoundTrip(m: nat)
    requires m > 0
    ensures ParseLong("-" + NatToString(m)) == Some(-(m as int))
  {
    var d := NatToString(m);
    var s := "-" + d;
    NatToStringRoundTrip(m);
    assert s[1..] == d;
    assert |s| > 1 && s[0] == '-' && AllDigits(s[1..]);
  }

  /**
   * `formatFileSize(size)`: the size scaled to its unit and printed with
   * `format2` (Java's `String.format("%.2f", …)`), then the unit name; a
   * size below one kilobyte is printed whole, in bytes.
   */
  function FormatFileSize(size: int, format2: real -> string): (r: string)
  {
    var u := UnitOf(size);
    if u == B then LongToString(size) + UnitName(B)
    else format2(size as real / Divisor(u) as real) + UnitName(u)
  }

  /** The rendered size always ends with the name of the unit chosen for it, and a byte count is its exact integer. */
  lemma FormatFileSizeUnit(size: int, format2: real -> string)
    ensures EndsWith(FormatFileSize(size, format2), UnitName(UnitOf(size)))
    ensures UnitOf(size) == B ==> FormatFileSize(size, format2) == LongToString(size) + "B"
    ensures UnitOf(size) != B ==> 1.0 <= size as real / Divisor(UnitOf(size)) as real
    ensures UnitOf(size) == KB || UnitOf(size) == MB ==> size as real / Divisor(UnitOf(size)) as real < 1024.0
  {
    var r := FormatFileSize(size, format2);
    var n := UnitName(UnitOf(size));
    assert r[|r| - |n|..] == n;
  }

  /** The file as the listing sees it: its name, whether it is a directory, and its length in bytes. */
  datatype FileInfo = FileInfo(name: string, isDirectory: bool, length: int)

  /** `substring(lastIndexOf("."))` on a name without a dot: index -1 is out of bounds. */
  datatype ViewError = StringIndexOutOfBounds

  /** The type column: "" for a directory, else the name from its last '.' on. */
  function TypeOf(file: FileInfo): (r: Result<string, ViewError>)
    ensures r.Err? <==> !file.isDirectory && LastIndexOf(file.name, '.') == -1
  {
    if file.isDirectory then Ok("")
    else
      var dot := LastIndexOf(file.name, '.');
      if dot == -1 then Err(StringIndexOutOfBounds) else Ok(file.name[dot..])
  }

  /** A file's type is a suffix of its name that starts with its only dot. */
  lemma TypeIsLastDotSuffix(file: FileInfo)
    requires !file.isDirectory && TypeOf(file).Ok?
    ensures var t := TypeOf(file).value;
      EndsWith(file.name, t) && |t| > 0 && t[0] == '.'
      && forall k :: 0 < k < |t| ==> t[k] != '.'
  {
    var dot := LastIndexOf(file.name, '.');
    var t := TypeOf(file).value;
    assert forall k :: 0 < k < |t| ==> t[k] == file.name[dot + k];
  }

  /** A listing entry; the second constructor also sets the metadata map. */
  datatype TilesViewModel<D> = TilesViewModel(name: string, fileType: string, fileSize: string, metaDataMap: map<string, D>)

  /** `TilesViewModel(file)` and `TilesViewModel(file, metaDataMap)`; fails where the type lookup throws. */
  function MakeView<D>(file: FileInfo, metaDataMap: map<string, D>, format2: real -> string): (r: Result<TilesViewModel<D>, ViewError>)
    ensures r.Err? <==> TypeOf(file).Err?
    ensures r.Ok? ==> (r.value.name == file.name && r.value.metaDataMap == metaDataMap
      && r.value.fileType == TypeOf(file).value)
    ensures r.Ok? && file.isDirectory ==> r.value.fileType == "" && r.value.fileSize == ""
    ensures r.Ok? && !file.isDirectory ==> r.value.fileSize == FormatFileSize(file.length, format2)
  {
    match TypeOf(file)
    case Err(e) => Err(e)
    case Ok(t) =>
      Ok(TilesViewModel(file.name, t, if file.isDirectory then "" else FormatFileSize(file.length, format2), metaDataMap))
  }
}
