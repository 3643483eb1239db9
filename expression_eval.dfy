/**
 * Evaluation and printing of parsed filter expressions over a record, a map
 * from attribute names to values. A Java `null` value and a missing key read
 * the same (`Map.get` returns `null` for both), so a record holds only the
 * attributes that have a value.
 */
module ExpressionEval {
  import opened Wrappers
  import opened JavaStrings
  import opened ExpressionTokens
  import opened ExpressionParser

  type Record = map<string, string>

  /** What evaluation can throw; `UnsupportedPattern` marks a LIKE literal this model does not cover. */
  datatype EvalError = NullPointer | NumberFormat | UnsupportedPattern

  /**
   * A Java `double` as far as comparison sees it: a finite value, NaN, or an
   * infinity. Rounding is not modelled, and -0.0 and 0.0 compare equal, as
   * they do in Java.
   */
  datatype JavaDouble = Finite(x: real) | NaN | PositiveInfinity | NegativeInfinity

  /** Java's `<` on doubles: false whenever NaN is involved; the infinities lie beyond every finite value. */
  predicate DoubleLess(a: JavaDouble, b: JavaDouble)
  {
    if a.NaN? || b.NaN? then false
    else if a.Finite? && b.Finite? then a.x < b.x
    else (a.NegativeInfinity? && !b.NegativeInfinity?) || (b.PositiveInfinity? && !a.PositiveInfinity?)
  }

  /** Java's `<=` on doubles: false whenever NaN is involved. */
  predicate DoubleLessOrEqual(a: JavaDouble, b: JavaDouble)
  {
    !a.NaN? && !b.NaN? && (a == b || DoubleLess(a, b))
  }

  /** Apart from NaN, doubles are totally ordered: exactly one of `a < b`, `a == b`, `b < a` holds. */
  lemma DoubleTrichotomy(a: JavaDouble, b: JavaDouble)
    requires !a.NaN? && !b.NaN?
    ensures DoubleLess(a, b) || a == b || DoubleLess(b, a)
    ensures !(DoubleLess(a, b) && DoubleLess(b, a)) && !(DoubleLess(a, b) && a == b)
  {
  }

  /**
   * Numeric text, left abstract: whether a literal counts as a number
   * (`NumberUtils.isCreatable`) and what `Double.parseDouble` makes of a text
   * (`None` where it throws `NumberFormatException`; "NaN" and "Infinity"
   * parse to the special values).
   */
  datatype NumberSyntax = NumberSyntax(isCreatable: string -> bool, parseDouble: string -> Option<JavaDouble>)

  /** `Map.get`, with `None` for `null`. */
  function Get(data: Record, key: string): Option<string>
  {
    if key in data then Some(data[key]) else None
  }

  /** Characters the regex `.` does not match: the line terminators. */
  predicate IsLineTerminator(c: char)
  {
    c == '\n' || c == '\r' || c == '\U{0085}' || c == '\U{2028}' || c == '\U{2029}'
  }

  /** Characters other than '.', '?' and '%' that a regular expression would treat specially. */
  predicate IsRegexMeta(c: char)
  {
    c == '\\' || c == '^' || c == '$' || c == '|' || c == '*' || c == '+'
    || c == '(' || c == ')' || c == '[' || c == ']' || c == '{' || c == '}'
  }

  /**
   * Whole-string matching of the regex the LIKE literal is turned into:
   * '%' became ".*" (any run without line terminators), '?' became "."
   * (one character that is not a line terminator), '.' was escaped, and
   * every other character matches itself.
   */
  function LikeMatch(s: string, p: string): bool
    decreases |s| + |p|
  {
    if p == [] then s == []
    else if p[0] == '%' then LikeMatch(s, p[1..]) || (s != [] && !IsLineTerminator(s[0]) && LikeMatch(s[1..], p))
    else s != [] && (if p[0] == '?' then !IsLineTerminator(s[0]) else s[0] == p[0]) && LikeMatch(s[1..], p[1..])
  }

  /** Position `i` of pattern `p` accepts character `c`, for a pattern without '%'. */
  predicate AcceptsAt(p: string, i: nat, c: char)
    requires i < |p|
  {
    if p[i] == '?' then !IsLineTerminator(c) else c == p[i]
  }

  /** Without '%', a pattern matches exactly the texts of its own length that it accepts position by position. */
  lemma {:induction false} LikeWithoutPercent(s: string, p: string)
    requires '%' !in p
    ensures LikeMatch(s, p) <==> |s| == |p| && forall i :: 0 <= i < |p| ==> AcceptsAt(p, i, s[i])
    decreases |p|
  {
    if p != [] && s != [] {
      LikeWithoutPercent(s[1..], p[1..]);
      assert forall i :: 1 <= i < |p| && i < |s| ==> (AcceptsAt(p, i, s[i]) <==> AcceptsAt(p[1..], i - 1, s[1..][i - 1]));
    }
  }

  /** A pattern free of '%' and '?' matches only itself. */
  lemma LikePlainText(s: string, p: string)
    requires '%' !in p && '?' !in p
    ensures LikeMatch(s, p) <==> s == p
  {
    LikeWithoutPercent(s, p);
    if |s| == |p| && forall i :: 0 <= i < |p| ==> AcceptsAt(p, i, s[i]) {
      assert forall i :: 0 <= i < |p| ==> s[i] == p[i];
    }
  }

  /** The pattern "%" matches exactly the texts without line terminators. */
  lemma {:induction false} LikeAnyRun(s: string)
    ensures LikeMatch(s, "%") <==> forall i :: 0 <= i < |s| ==> !IsLineTerminator(s[i])
    decreases |s|
  {
    assert "%"[1..] == [];
    if s != [] {
      LikeAnyRun(s[1..]);
      assert forall i :: 1 <= i < |s| ==> s[i] == s[1..][i - 1];
    }
  }

  /** `like(val, literal)`: both sides lower-cased, then whole-string matching. */
  function LikeText(value: string, literal: string): Result<bool, EvalError>
  {
    var p := ToLower(literal);
    if exists i :: 0 <= i < |p| && IsRegexMeta(p[i]) then Err(UnsupportedPattern)
    else Ok(LikeMatch(ToLower(value), p))
  }

  /** LIKE ignores the case of both the value and the literal. */
  lemma LikeIgnoresCase(value: string, literal: string)
    ensures LikeText(ToUpper(value), literal) == LikeText(value, literal)
    ensures LikeText(value, ToUpper(literal)) == LikeText(value, literal)
  {
    LowerAbsorbs(value);
    LowerAbsorbs(literal);
  }

  predicate IsOrdering(comp: TokenType)
  {
    comp == LessThan || comp == LessThanOrEqual || comp == GreaterThan || comp == GreaterThanOrEqual
  }

  /** Compares a record value `x` with the literal's number `v`, as Java's operators on `double` do. */
  function Compare(comp: TokenType, x: JavaDouble, v: JavaDouble): (r: bool)
    // every comparison with NaN is false
    ensures x.NaN? || v.NaN? ==> !r
    // on finite values the operators are those of the reals
    ensures x.Finite? && v.Finite? ==> (r <==>
      (comp == LessThan && x.x < v.x) || (comp == LessThanOrEqual && x.x <= v.x)
      || (comp == GreaterThan && x.x > v.x) || (comp == GreaterThanOrEqual && x.x >= v.x))
    // apart from NaN, ">=" is the negation of "<" and "<=" the negation of ">"
    ensures !x.NaN? && !v.NaN? && comp == GreaterThanOrEqual ==> (r <==> !DoubleLess(x, v))
    ensures !x.NaN? && !v.NaN? && comp == LessThanOrEqual ==> (r <==> !DoubleLess(v, x))
    // an operator that is not an ordering compares false
    ensures !IsOrdering(comp) ==> !r
  {
    match comp
    case LessThan => DoubleLess(x, v)
    case LessThanOrEqual => DoubleLessOrEqual(x, v)
    case GreaterThan => DoubleLess(v, x)
    case GreaterThanOrEqual => DoubleLessOrEqual(v, x)
    case _ => false
  }

  /** `SimpleExpr.evaluate`. */
  function EvalSimple(identifier: string, comp: Option<TokenType>, literal: string, data: Record, num: NumberSyntax)
    : (r: Result<bool, EvalError>)
    // an unset operator (the literal-first form) throws
    ensures comp.None? ==> r == Err(NullPointer)
    // "=": the literal equals the record's value; a missing attribute is simply unequal
    ensures comp == Some(Equals) ==> r == Ok(identifier in data && data[identifier] == literal)
    // "<>" is the exact negation of "="
    ensures comp == Some(NotEquals) ==> r == Ok(!(identifier in data && data[identifier] == literal))
    // LIKE on a missing attribute throws
    ensures comp == Some(Like) ==> (identifier !in data <==> r == Err(NullPointer))
    // orderings are false whenever the literal is not numeric
    ensures comp.Some? && IsOrdering(comp.value) && !num.isCreatable(literal) ==> r == Ok(false)
    // a numeric comparison with a missing attribute throws
    ensures comp.Some? && IsOrdering(comp.value) && num.isCreatable(literal) && num.parseDouble(literal).Some?
      ==> (identifier !in data <==> r == Err(NullPointer))
    // LIKE on a present attribute is the case-blind whole-string match of its value
    ensures comp == Some(Like) && identifier in data ==> r == LikeText(data[identifier], literal)
    // a numeric literal that does not parse throws, for every operator other than "=", "<>" and LIKE
    ensures comp.Some? && comp.value !in {Equals, NotEquals, Like} && num.isCreatable(literal)
      && num.parseDouble(literal).None?
      ==> r == Err(NumberFormat)
    // an ordering whose present value does not parse throws
    ensures comp.Some? && IsOrdering(comp.value) && num.isCreatable(literal) && identifier in data
      && num.parseDouble(data[identifier]).None?
      ==> r == Err(NumberFormat)
    // an ordering on two parsed numbers is their comparison
    ensures comp.Some? && IsOrdering(comp.value) && num.isCreatable(literal) && num.parseDouble(literal).Some?
      && identifier in data && num.parseDouble(data[identifier]).Some?
      ==> r == Ok(Compare(comp.value, num.parseDouble(data[identifier]).value, num.parseDouble(literal).value))
    // in particular a value that parses to NaN makes every ordering false
    ensures comp.Some? && IsOrdering(comp.value) && num.isCreatable(literal) && num.parseDouble(literal).Some?
      && identifier in data && num.parseDouble(data[identifier]) == Some(NaN)
      ==> r == Ok(false)
    // any other operator with a parsed numeric literal is false
    ensures comp.Some? && comp.value !in {Equals, NotEquals, Like} && !IsOrdering(comp.value)
      && num.isCreatable(literal) && num.parseDouble(literal).Some?
      ==> r == Ok(false)
  {
    match comp
    case None => Err(NullPointer)
    case Some(c) =>
      if c == Equals then Ok(Get(data, identifier) == Some(literal))
      else if c == NotEquals then Ok(!(Get(data, identifier) == Some(literal)))
      else if c == Like then
        (match Get(data, identifier)
         case None => Err(NullPointer)
         case Some(value) => LikeText(value, literal))
      else if num.isCreatable(literal) then
        (match num.parseDouble(literal)
         case None => Err(NumberFormat)
         case Some(v) =>
           if IsOrdering(c) then
             (match Get(data, identifier)
              case None => Err(NullPointer)
              case Some(text) =>
                (match num.parseDouble(text)
                 case None => Err(NumberFormat)
                 case Some(x) => Ok(Compare(c, x, v))))
           else Ok(false))
      else Ok(false)
  }

  /**
   * `evaluate`. OR is true at the first child that is true and AND false at
   * the first child that is false, left to right, so a later child that
   * would throw is never reached; a sub-expression is its child.
   */
  function Evaluate(e: Expr, data: Record, num: NumberSyntax): Result<bool, EvalError>
    decreases e, 1
  {
    match e
    case OrExpr(children) => AnyFrom(e, 0, data, num)
    case AndExpr(children) => AllFrom(e, 0, data, num)
    case SubExpr(child) => Evaluate(child, data, num)
    case SimpleExpr(identifier, comp, literal) => EvalSimple(identifier, comp, literal, data, num)
  }

  /** The children of an OR expression from index `i` on. */
  function AnyFrom(e: Expr, i: nat, data: Record, num: NumberSyntax): Result<bool, EvalError>
    requires e.OrExpr?
    decreases e, 0, |e.children| - i
  {
    if i >= |e.children| then Ok(false)
    else
      match Evaluate(e.children[i], data, num)
      case Err(x) => Err(x)
      case Ok(b) => if b then Ok(true) else AnyFrom(e, i + 1, data, num)
  }

  /** The children of an AND expression from index `i` on. */
  function AllFrom(e: Expr, i: nat, data: Record, num: NumberSyntax): Result<bool, EvalError>
    requires e.AndExpr?
    decreases e, 0, |e.children| - i
  {
    if i >= |e.children| then Ok(true)
    else
      match Evaluate(e.children[i], data, num)
      case Err(x) => Err(x)
      case Ok(b) => if !b then Ok(false) else AllFrom(e, i + 1, data, num)
  }

  /**
   * An OR expression is true exactly when some child is true and every child
   * before it evaluates to false without throwing.
   */
  lemma {:induction false} AnyFromTrue(e: Expr, i: nat, data: Record, num: NumberSyntax)
    requires e.OrExpr?
    ensures AnyFrom(e, i, data, num) == Ok(true) <==>
      exists j :: i <= j < |e.children| && Evaluate(e.children[j], data, num) == Ok(true)
        && forall k :: i <= k < j ==> Evaluate(e.children[k], data, num) == Ok(false)
    decreases |e.children| - i
  {
    if i < |e.children| {
      AnyFromTrue(e, i + 1, data, num);
      if AnyFrom(e, i + 1, data, num) == Ok(true) && Evaluate(e.children[i], data, num) == Ok(false) {
        var j :| i + 1 <= j < |e.children| && Evaluate(e.children[j], data, num) == Ok(true)
          && forall k :: i + 1 <= k < j ==> Evaluate(e.children[k], data, num) == Ok(false);
        assert forall k :: i <= k < j ==> Evaluate(e.children[k], data, num) == Ok(false);
      }
    }
  }

  /** An AND expression is true exactly when every child evaluates to true. */
  lemma {:induction false} AllFromTrue(e: Expr, i: nat, data: Record, num: NumberSyntax)
    requires e.AndExpr?
    ensures AllFrom(e, i, data, num) == Ok(true) <==>
      forall k :: i <= k < |e.children| ==> Evaluate(e.children[k], data, num) == Ok(true)
    decreases |e.children| - i
  {
    if i < |e.children| {
      AllFromTrue(e, i + 1, data, num);
    }
  }

  /** The name `Enum.toString` gives a comparison operator. */
  function TypeName(t: TokenType): string
  {
    match t
    case Whitespace => "WHITESPACE"
    case And => "AND"
    case Or => "OR"
    case Equals => "EQUALS"
    case NotEquals => "NOT_EQUALS"
    case Like => "LIKE"
    case LessThan => "LESS_THAN"
    case GreaterThan => "GREATER_THAN"
    case LessThanOrEqual => "LESS_THAN_OR_EQUAL"
    case GreaterThanOrEqual => "GREATER_THAN_OR_EQUAL"
    case LeftParen => "LEFT_PAREN"
    case RightParen => "RIGHT_PAREN"
    case Identifier => "IDENTIFIER"
    case Literal => "LITERAL"
    case Eof => "EOF"
  }

  /**
   * `toString`. A sub-expression is its child in parentheses; a simple one is
   * identifier, operator name and quoted literal, and throws when the
   * operator is unset. OrExpr.java and AndExpr.java are not part of this
   * model: that OR and AND join their children's texts with " OR " and
   * " AND " is assumed here, and no contract depends on it.
   */
  function Text(e: Expr): (r: Result<string, EvalError>)
    ensures e.SubExpr? && Text(e.child).Ok? ==> r == Ok("(" + Text(e.child).value + ")")
    ensures e.SimpleExpr? ==> (r.Err? <==> e.comp.None?)
    decreases e, 1
  {
    match e
    case OrExpr(children) => JoinFrom(e, 0, " OR ")
    case AndExpr(children) => JoinFrom(e, 0, " AND ")
    case SubExpr(child) =>
      (match Text(child)
       case Err(x) => Err(x)
       case Ok(t) => Ok("(" + t + ")"))
    case SimpleExpr(identifier, comp, literal) =>
      if comp.None? then Err(NullPointer)
      else Ok(identifier + TypeName(comp.value) + "'" + literal + "'")
  }

  /**
   * The texts of the children of an OR or AND expression from index `i` on,
   * joined by `sep`; the joining is assumed, since the `toString` of OR and
   * AND expressions is not part of this model.
   */
  function JoinFrom(e: Expr, i: nat, sep: string): Result<string, EvalError>
    requires e.OrExpr? || e.AndExpr?
    decreases e, 0, |e.children| - i
  {
    if i >= |e.children| then Ok("")
    else
      match Text(e.children[i])
      case Err(x) => Err(x)
      case Ok(t) =>
        if i + 1 == |e.children| then Ok(t)
        else
          match JoinFrom(e, i + 1, sep)
          case Err(x) => Err(x)
          case Ok(rest) => Ok(t + sep + rest)
  }
}
