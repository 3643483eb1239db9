/**
 * The auxiliary operations of the transformation that the model covers:
 * emptiness of a text, the output file extension of an RDF serialization,
 * the built-in functions that normalise phone numbers, extract a language
 * tag and concatenate two values, the serial-number counter, and the
 * thematic filter over a record.
 */
module Assistants {
  import opened Wrappers
  import opened JavaStrings
  import opened ExpressionParser
  import opened ExpressionEval

  /** An exception a built-in function can raise: an out-of-range substring. */
  datatype BuiltInError = StringIndexOutOfBounds

  /** `isNullOrEmpty`: a null text or the empty text. */
  predicate IsNullOrEmpty(text: Option<string>)
  {
    text.None? || text.value == []
  }

  /** The serializations, upper-cased, whose output goes to a Turtle file. */
  predicate IsTurtle(upper: string)
  {
    upper == "TURTLE" || upper == "TTL" || upper == "N3"
  }

  /** `getOutputExtension`: the file extension for an RDF serialization name, in any case. */
  function GetOutputExtension(serialization: string): (r: string)
    ensures r == ".ttl" <==> IsTurtle(ToUpper(serialization))
    ensures r == ".trig" <==> ToUpper(serialization) == "TRIG"
    ensures r == ".nt" <==> ToUpper(serialization) == "N-TRIPLES"
    ensures r == ".rdf" <==> !IsTurtle(ToUpper(serialization)) && ToUpper(serialization) != "TRIG" && ToUpper(serialization) != "N-TRIPLES"
  {
    match ToUpper(serialization)
    case "TURTLE" => ".ttl"
    case "TTL" => ".ttl"
    case "N3" => ".ttl"
    case "TRIG" => ".trig"
    case "N-TRIPLES" => ".nt"
    case "RDF/XML-ABBREV" => ".rdf"
    case "RDF/XML" => ".rdf"
    case _ => ".rdf"
  }

  /** The extension does not depend on the case the serialization is written in. */
  lemma OutputExtensionIgnoresCase(serialization: string)
    ensures GetOutputExtension(ToLower(serialization)) == GetOutputExtension(serialization)
    ensures GetOutputExtension(ToUpper(serialization)) == GetOutputExtension(serialization)
  {
    UpperAbsorbs(serialization);
  }

  /** The characters a normalised phone number keeps: '+' and the decimal digits. */
  predicate IsPhoneChar(c: char)
  {
    c == '+' || '0' <= c <= '9'
  }

  /** Removal of every character other than '+' and the digits. */
  function KeepPhoneChars(s: string): (r: string)
    ensures |r| <= |s|
    ensures forall k :: 0 <= k < |r| ==> IsPhoneChar(r[k])
    ensures (forall k :: 0 <= k < |s| ==> IsPhoneChar(s[k])) ==> r == s
    // every '+' and digit is kept, as often as it occurs
    ensures forall c :: IsPhoneChar(c) ==> multiset(r)[c] == multiset(s)[c]
  {
    if s == [] then []
    else
      assert s == [s[0]] + s[1..];
      (if IsPhoneChar(s[0]) then [s[0]] else []) + KeepPhoneChars(s[1..])
  }

  /** Filtering works piece by piece, so the kept characters stay in their original order. */
  lemma {:induction false} KeepPhoneCharsConcat(a: string, b: string)
    ensures KeepPhoneChars(a + b) == KeepPhoneChars(a) + KeepPhoneChars(b)
    decreases |a|
  {
    if a == [] {
      assert a + b == b;
    } else {
      assert (a + b)[1..] == a[1..] + b;
      KeepPhoneCharsConcat(a[1..], b);
    }
  }

  /** The number of '0' characters at the start of `s`, at most `cap`. */
  function LeadingZeros(s: string, cap: nat): (n: nat)
    ensures n <= cap && n <= |s|
    ensures forall k :: 0 <= k < n ==> s[k] == '0'
    ensures n < cap && n < |s| ==> s[n] != '0'
  {
    if cap == 0 || s == [] || s[0] != '0' then 0 else 1 + LeadingZeros(s[1..], cap - 1)
  }

  /** The regular-expression replacement of `^0{1,4}` by "+": up to four leading zeros become one '+'. */
  function ZerosToPlus(s: string): (r: string)
    ensures LeadingZeros(s, 4) == 0 ==> r == s
    ensures LeadingZeros(s, 4) > 0 ==> r == "+" + s[LeadingZeros(s, 4)..]
  {
    var n := LeadingZeros(s, 4);
    if n == 0 then s else "+" + s[n..]
  }

  /**
   * `standardizePhoneNumber`: null for a null or blank number; otherwise only
   * '+' and digits are kept, a national number ("0" then a non-zero) gets
   * "+" and the country code in place of its "0", and up to four leading
   * zeros of an international number become "+". Substring raises when no
   * character is kept, or when only "0" is.
   */
  function StandardizePhoneNumber(phone: Option<string>, countryCode: string): (r: Result<Option<string>, BuiltInError>)
  {
    if phone.None? || Trim(phone.value) == [] then Ok(None)
    else
      var p := KeepPhoneChars(phone.value);
      if p == [] || (p[0] == '0' && |p| < 2) then Err(StringIndexOutOfBounds)
      else
        var q := if p[0] == '0' && p[1] != '0' then "+" + countryCode + p[1..] else p;
        Ok(Some(ZerosToPlus(q)))
  }

  predicate AllDigits(s: string)
  {
    forall k :: 0 <= k < |s| ==> '0' <= s[k] <= '9'
  }

  /** What normalisation makes of each kind of number. */
  lemma StandardizeCases(phone: string, countryCode: string)
    requires Trim(phone) != []
    ensures var p := KeepPhoneChars(phone);
      var r := StandardizePhoneNumber(Some(phone), countryCode);
      && (r.Err? <==> p == [] || p == "0")
      && (|p| >= 2 && p[0] == '0' && p[1] != '0' ==> r == Ok(Some("+" + countryCode + p[1..])))
      && (p != [] && p[0] != '0' ==> r == Ok(Some(p)))
      && (|p| >= 2 && p[0] == '0' && p[1] == '0' ==> r == Ok(Some("+" + p[LeadingZeros(p, 4)..])))
  {
    var p := KeepPhoneChars(phone);
    if p == [] || (p[0] == '0' && |p| < 2) {
      assert StandardizePhoneNumber(Some(phone), countryCode).Err?;
    } else {
      var q := if p[0] == '0' && p[1] != '0' then "+" + countryCode + p[1..] else p;
      assert StandardizePhoneNumber(Some(phone), countryCode) == Ok(Some(ZerosToPlus(q)));
      if p[0] == '0' && p[1] != '0' {
        assert q[0] == '+';
      }
    }
  }

  /** With a numeric country code, a normalised number consists of '+' and digits and is normalised already. */
  lemma StandardizeIdempotent(phone: string, countryCode: string)
    requires AllDigits(countryCode)
    requires StandardizePhoneNumber(Some(phone), countryCode).Ok?
    requires StandardizePhoneNumber(Some(phone), countryCode).value.Some?
    ensures var r := StandardizePhoneNumber(Some(phone), countryCode).value.value;
      && (forall k :: 0 <= k < |r| ==> IsPhoneChar(r[k]))
      && StandardizePhoneNumber(Some(r), countryCode) == Ok(Some(r))
  {
    var p := KeepPhoneChars(phone);
    var q := if p[0] == '0' && p[1] != '0' then "+" + countryCode + p[1..] else p;
    assert StandardizePhoneNumber(Some(phone), countryCode) == Ok(Some(ZerosToPlus(q)));
    NationalPrefixKeepsPhoneChars(p, countryCode);
    ZerosToPlusKeepsPhoneChars(q);
    NormalisedIsFixed(ZerosToPlus(q), countryCode);
  }

  /** Replacing the national "0" by "+" and a numeric country code keeps to '+' and digits, and leaves no lone "0" first. */
  lemma NationalPrefixKeepsPhoneChars(p: string, countryCode: string)
    requires AllDigits(countryCode) && |p| >= 1 && !(p[0] == '0' && |p| < 2)
    requires forall k :: 0 <= k < |p| ==> IsPhoneChar(p[k])
    ensures var q := if p[0] == '0' && p[1] != '0' then "+" + countryCode + p[1..] else p;
      && q != []
      && forall k :: 0 <= k < |q| ==> IsPhoneChar(q[k])
  {
    if p[0] == '0' && p[1] != '0' {
      var q := "+" + countryCode + p[1..];
      forall k | 0 <= k < |q| ensures IsPhoneChar(q[k]) {
        if k == 0 {
        } else if k <= |countryCode| {
          assert q[k] == countryCode[k - 1];
        } else {
          assert q[k] == p[1..][k - 1 - |countryCode|];
        }
      }
    }
  }

  /** Turning leading zeros into '+' keeps to '+' and digits and leaves no '0' first. */
  lemma ZerosToPlusKeepsPhoneChars(q: string)
    requires q != [] && forall k :: 0 <= k < |q| ==> IsPhoneChar(q[k])
    ensures var r := ZerosToPlus(q);
      && r != [] && r[0] != '0'
      && forall k :: 0 <= k < |r| ==> IsPhoneChar(r[k])
  {
    var n := LeadingZeros(q, 4);
    var r := ZerosToPlus(q);
    if n > 0 {
      forall k | 0 <= k < |r| ensures IsPhoneChar(r[k]) {
        if k > 0 {
          assert r[k] == q[n + k - 1];
        }
      }
    }
  }

  /** A text of '+' and digits not starting with '0' is left as it is. */
  lemma NormalisedIsFixed(r: string, countryCode: string)
    requires r != [] && r[0] != '0' && forall k :: 0 <= k < |r| ==> IsPhoneChar(r[k])
    ensures StandardizePhoneNumber(Some(r), countryCode) == Ok(Some(r))
  {
    assert !IsTrimmable(r[0]);
    assert Trim(r) != [];
    assert KeepPhoneChars(r) == r;
    assert LeadingZeros(r, 4) == 0;
  }

  /** A number in which no '+' or digit is left, such as "n/a", makes the substring raise instead of giving null. */
  lemma PhoneWithoutDigitsRaises()
    ensures StandardizePhoneNumber(Some("n/a"), "49") == Err(StringIndexOutOfBounds)
  {
    assert KeepPhoneChars("n/a") == [];
  }

  /**
   * Phone normalisation as evidently intended: a number with nothing left to
   * keep gives null like a blank one, and a lone "0" is an international
   * prefix.
   */
  function NormalisePhoneNumber(phone: Option<string>, countryCode: string): (r: Option<string>)
    ensures r.None? <==> phone.None? || Trim(phone.value) == [] || KeepPhoneChars(phone.value) == []
    ensures r.Some? ==> r.value != [] && r.value[0] != '0'
  {
    if phone.None? || Trim(phone.value) == [] then None
    else
      var p := KeepPhoneChars(phone.value);
      if p == [] then None
      else
        var q := if p[0] == '0' && |p| >= 2 && p[1] != '0' then "+" + countryCode + p[1..] else p;
        Some(ZerosToPlus(q))
  }

  /** The intended normalisation agrees with the written one wherever that does not raise. */
  lemma NormaliseAgrees(phone: Option<string>, countryCode: string)
    requires StandardizePhoneNumber(phone, countryCode).Ok?
    ensures NormalisePhoneNumber(phone, countryCode) == StandardizePhoneNumber(phone, countryCode).value
  {
  }

  /** With a numeric country code the intended normalisation is idempotent. */
  lemma NormaliseIdempotent(phone: Option<string>, countryCode: string)
    requires AllDigits(countryCode) && NormalisePhoneNumber(phone, countryCode).Some?
    ensures var r := NormalisePhoneNumber(phone, countryCode).value;
      NormalisePhoneNumber(Some(r), countryCode) == Some(r)
  {
    var p := KeepPhoneChars(phone.value);
    var q := if p[0] == '0' && |p| >= 2 && p[1] != '0' then "+" + countryCode + p[1..] else p;
    assert NormalisePhoneNumber(phone, countryCode) == Some(ZerosToPlus(q));
    if p[0] == '0' && |p| >= 2 && p[1] != '0' {
      NationalPrefixKeepsPhoneChars(p, countryCode);
    }
    ZerosToPlusKeepsPhoneChars(q);
    NormalisedIsFixedPoint(ZerosToPlus(q), countryCode);
  }

  /** A text of '+' and digits not starting with '0' is left as it is by the intended normalisation. */
  lemma NormalisedIsFixedPoint(r: string, countryCode: string)
    requires r != [] && r[0] != '0' && forall k :: 0 <= k < |r| ==> IsPhoneChar(r[k])
    ensures NormalisePhoneNumber(Some(r), countryCode) == Some(r)
  {
    assert !IsTrimmable(r[0]);
    assert Trim(r) != [];
    assert KeepPhoneChars(r) == r;
    assert LeadingZeros(r, 4) == 0;
  }

  /** `getLanguage`: the suffix of the attribute name from index `i`, or null when the name is not longer than `i`. */
  function GetLanguage(attr: string, i: int): (r: Result<Option<string>, BuiltInError>)
    ensures r.Err? <==> i < 0
    ensures r == Ok(None) <==> 0 <= i && |attr| <= i
    ensures r.Ok? && r.value.Some? ==> 0 <= i < |attr| && attr == attr[..i] + r.value.value
  {
    if |attr| > i then
      if i < 0 then Err(StringIndexOutOfBounds) else Ok(Some(attr[i..]))
    else if i < 0 then Err(StringIndexOutOfBounds)
    else Ok(None)
  }

  /** `concatenate`: the two values joined by two spaces, trimmed. */
  function Concatenate(a: string, b: string): string
  {
    Trim(a + "  " + b)
  }

  /** A blank text. */
  predicate Blank(s: string)
  {
    forall k :: 0 <= k < |s| ==> IsTrimmable(s[k])
  }

  /**
   * `isNullOrEmpty` tests for the empty text only: every empty text is blank,
   * but a text of spaces is blank without being empty.
   */
  lemma NullOrEmptyOnlyEmpty(s: string)
    ensures IsNullOrEmpty(Some(s)) <==> |s| == 0
    ensures IsNullOrEmpty(Some(s)) ==> Blank(s)
    ensures Blank(" ") && !IsNullOrEmpty(Some(" "))
  {
    assert IsTrimmable(" "[0]);
  }

  /** Two non-empty values already trimmed are joined as they are. */
  lemma ConcatenateTrimmed(a: string, b: string)
    requires a != [] && b != [] && Trim(a) == a && Trim(b) == b
    ensures Concatenate(a, b) == a + "  " + b
  {
    var s := a + "  " + b;
    assert s[0] == a[0] && s[|s| - 1] == b[|b| - 1];
  }

  /** Two blank values concatenate to the empty text. */
  lemma ConcatenateBlanks(a: string, b: string)
    requires Blank(a) && Blank(b)
    ensures Concatenate(a, b) == []
  {
    assert Blank(a + "  " + b);
  }

  /** A blank second value leaves a trimmed first value as it is. */
  lemma ConcatenateBlankSecond(a: string, b: string)
    requires Blank(b) && Trim(a) == a
    ensures Concatenate(a, b) == a
  {
    assert Blank("  " + b);
    assert a + "  " + b == a + ("  " + b);
    TrimBlankTail(a, "  " + b);
  }

  /** Trimming text that ends in a blank tail trims the tail away. */
  lemma TrimBlankTail(a: string, t: string)
    requires Blank(t) && Trim(a) == a
    ensures Trim(a + t) == a
  {
    var s := a + t;
    if a == [] {
      assert Blank(s);
    } else {
      assert s[0] == a[0] && s[|a| - 1] == a[|a| - 1];
      assert TrimFrom(s, 0) == 0;
      assert forall k :: |a| <= k < |s| ==> s[k] == t[k - |a|];
      TrimToStops(s, 0, |s|, |a|);
      assert s[0..|a|] == a;
    }
  }

  /** The largest value of a Java `long`. */
  const MaxLong: int := 0x7FFF_FFFF_FFFF_FFFF

  /** `AtomicLong.getAndIncrement` moves to the next value, wrapping from the largest `long` to the smallest. */
  function NextLong(n: int): (r: int)
    requires -MaxLong - 1 <= n <= MaxLong
    ensures -MaxLong - 1 <= r <= MaxLong
    ensures n < MaxLong ==> r == n + 1
  {
    if n == MaxLong then -MaxLong - 1 else n + 1
  }

  /** The counter's value after `k` increments from `start`. */
  function AfterIncrements(start: int, k: nat): (r: int)
    requires -MaxLong - 1 <= start <= MaxLong
    ensures -MaxLong - 1 <= r <= MaxLong
  {
    if k == 0 then start else NextLong(AfterIncrements(start, k - 1))
  }

  /** Serial numbers are consecutive: the k-th call from a fresh counter gives k + 1's predecessor, i.e. 1, 2, 3, … */
  lemma {:induction false} SerialsConsecutive(k: nat)
    requires k < MaxLong
    ensures AfterIncrements(1, k) == k + 1
  {
    if k > 0 {
      SerialsConsecutive(k - 1);
    }
  }

  /** The serial-number source of one transformation. */
  class SerialGenerator {
    var next: int

    ghost predicate Valid()
      reads this
    {
      -MaxLong - 1 <= next <= MaxLong
    }

    /** Serials start at 1. */
    constructor()
      ensures Valid() && next == 1
    {
      next := 1;
    }

    /** `getNextSerial`: the current value, the counter moving on by one. */
    method GetNextSerial() returns (r: int)
      requires Valid()
      modifies this
      ensures Valid() && r == old(next) && next == NextLong(old(next))
    {
      r := next;
      next := if next == MaxLong then -MaxLong - 1 else next + 1;
    }
  }

  /**
   * `filterThematic`: whether a record is excluded: never without a filter,
   * otherwise exactly when the filter does not hold; an exception of the
   * evaluation propagates.
   */
  function FilterThematic(filter: Option<Expr>, record: Record, num: NumberSyntax): (r: Result<bool, EvalError>)
    ensures filter.None? ==> r == Ok(false)
    ensures filter.Some? ==> (r == Ok(true) <==> Evaluate(filter.value, record, num) == Ok(false))
    ensures filter.Some? ==> (r == Ok(false) <==> Evaluate(filter.value, record, num) == Ok(true))
    ensures filter.Some? && r.Err? ==> Evaluate(filter.value, record, num) == Err(r.error)
  {
    if filter.None? then Ok(false)
    else
      match Evaluate(filter.value, record, num)
      case Ok(b) => Ok(!b)
      case Err(e) => Err(e)
  }
}
