/**
 * The lexical layer of the thematic filter language: the token kinds, the
 * regular expression that recognises them, the tokenizer loop and the token
 * stream cursor the parser advances.
 */
module ExpressionTokens {
  import opened Wrappers
  import opened JavaStrings

  /** The token kinds, in declaration order; the i-th kind belongs to the (i+1)-th regex group. */
  datatype TokenType =
    | Whitespace | And | Or | Equals | NotEquals | Like | LessThan | GreaterThan
    | LessThanOrEqual | GreaterThanOrEqual | LeftParen | RightParen | Identifier | Literal | Eof

  /** A recognised token: its kind, the offset where its match starts, and its group text. */
  datatype Token = Token(kind: TokenType, start: nat, data: string)

  /** A `ParseException`, reduced to the offset it reports. */
  datatype ParseError = ParseError(offset: int)

  /** One successful match of the token pattern: the winning kind, its group text, and where the match ends. */
  datatype Match = Match(kind: TokenType, data: string, end: nat)

  /** The alternatives of the token pattern, in the order the pattern lists them. */
  const Alternatives: seq<TokenType> :=
    [Whitespace, And, Or, Equals, NotEquals, Like, LessThan, GreaterThan,
     LessThanOrEqual, GreaterThanOrEqual, LeftParen, RightParen, Identifier, Literal]

  /** `\s` without Unicode classes: space, tab, newline, vertical tab, form feed, carriage return. */
  predicate IsSpace(c: char)
  {
    c == ' ' || c == '\t' || c == '\n' || c == '\U{000B}' || c == '\U{000C}' || c == '\r'
  }

  /** `\w` plus the extra identifier characters '[', '.', ']' and '\'. */
  predicate IsIdentifierChar(c: char)
  {
    ('a' <= c <= 'z') || ('A' <= c <= 'Z') || ('0' <= c <= '9') || c == '_'
    || c == '[' || c == '.' || c == ']' || c == '\\'
  }

  predicate IsNotQuote(c: char) { c != '\'' }

  /** The end of the longest run of characters satisfying `p` that starts at `i` (a greedy `+`/`*`). */
  function RunEnd(s: string, i: nat, p: char -> bool): (j: nat)
    requires i <= |s|
    ensures i <= j <= |s|
    ensures forall k :: i <= k < j ==> p(s[k])
    ensures j == |s| || !p(s[j])
    decreases |s| - i
  {
    if i < |s| && p(s[i]) then RunEnd(s, i + 1, p) else i
  }

  /** A fixed keyword or operator text matched at `offset`. */
  function MatchText(input: string, offset: nat, kind: TokenType, text: string): Option<Match>
    requires offset <= |input|
  {
    if StartsWith(input[offset..], text) then Some(Match(kind, text, offset + |text|)) else None
  }

  /** What the group of one alternative matches at `offset`, on its own. */
  function MatchGroup(kind: TokenType, input: string, offset: nat): (m: Option<Match>)
    requires offset < |input|
    ensures m.Some? ==> m.value.kind == kind && offset < m.value.end <= |input|
  {
    match kind
    case Whitespace =>
      if IsSpace(input[offset]) then
        var e := RunEnd(input, offset, IsSpace);
        Some(Match(Whitespace, input[offset..e], e))
      else None
    case And => MatchText(input, offset, And, "AND")
    case Or => MatchText(input, offset, Or, "OR")
    case Equals => MatchText(input, offset, Equals, "=")
    case NotEquals => MatchText(input, offset, NotEquals, "<>")
    case Like => MatchText(input, offset, Like, "LIKE")
    case LessThan => MatchText(input, offset, LessThan, "<")
    case GreaterThan => MatchText(input, offset, GreaterThan, ">")
    case LessThanOrEqual => MatchText(input, offset, LessThanOrEqual, "<=")
    case GreaterThanOrEqual => MatchText(input, offset, GreaterThanOrEqual, ">=")
    case LeftParen => MatchText(input, offset, LeftParen, "(")
    case RightParen => MatchText(input, offset, RightParen, ")")
    case Identifier =>
      if IsIdentifierChar(input[offset]) then
        var e := RunEnd(input, offset, IsIdentifierChar);
        Some(Match(Identifier, input[offset..e], e))
      else None
    case Literal =>
      if input[offset] == '\'' then
        var e := RunEnd(input, offset + 1, IsNotQuote);
        if offset + 1 < e < |input| then Some(Match(Literal, input[offset + 1..e], e + 1)) else None
      else None
    case Eof => None
  }

  /** The regex alternation tried in order from alternative `i`: the first alternative that matches wins. */
  function FirstMatch(input: string, offset: nat, i: nat): (m: Option<Match>)
    requires offset < |input|
    ensures m.Some? ==> offset < m.value.end <= |input|
    decreases |Alternatives| - i
  {
    if i >= |Alternatives| then None
    else
      var m := MatchGroup(Alternatives[i], input, offset);
      if m.Some? then m else FirstMatch(input, offset, i + 1)
  }

  /** The match `find()` reports when it starts exactly at `offset`. */
  function MatchAt(input: string, offset: nat): (m: Option<Match>)
    requires offset < |input|
    ensures m.Some? ==> offset < m.value.end <= |input|
  {
    FirstMatch(input, offset, 0)
  }

  /**
   * Group i+1 yields the i-th kind: a match of kind `k` comes from the
   * alternative listed at some index `i`, and every alternative before `i`
   * fails at that offset.
   */
  lemma {:induction false} FirstAlternativeWins(input: string, offset: nat, i: nat)
    requires offset < |input|
    requires FirstMatch(input, offset, i).Some?
    ensures exists j :: (i <= j < |Alternatives|
      && MatchGroup(Alternatives[j], input, offset) == FirstMatch(input, offset, i)
      && (forall k :: i <= k < j ==> MatchGroup(Alternatives[k], input, offset).None?))
    decreases |Alternatives| - i
  {
    if MatchGroup(Alternatives[i], input, offset).None? {
      FirstAlternativeWins(input, offset, i + 1);
      var j :| i + 1 <= j < |Alternatives|
        && MatchGroup(Alternatives[j], input, offset) == FirstMatch(input, offset, i + 1)
        && (forall k :: i + 1 <= k < j ==> MatchGroup(Alternatives[k], input, offset).None?);
      assert forall k :: i <= k < j ==> MatchGroup(Alternatives[k], input, offset).None?;
    } else {
      assert MatchGroup(Alternatives[i], input, offset) == FirstMatch(input, offset, i);
    }
  }

  /** The "<=" and ">=" alternatives never win: "<" and ">" are listed before them. */
  lemma ComparisonPrefixWins(input: string, offset: nat)
    requires offset < |input|
    ensures MatchAt(input, offset).Some? ==> MatchAt(input, offset).value.kind !in {LessThanOrEqual, GreaterThanOrEqual}
  {
    NoComparisonFrom(input, offset, 0);
  }

  /** From any alternative up to "<", the match is never of kind "<=" or ">=". */
  lemma {:induction false} NoComparisonFrom(input: string, offset: nat, i: nat)
    requires offset < |input| && i <= 6
    ensures FirstMatch(input, offset, i).Some? ==> FirstMatch(input, offset, i).value.kind !in {LessThanOrEqual, GreaterThanOrEqual}
    decreases 6 - i
  {
    if i < 6 {
      NoComparisonFrom(input, offset, i + 1);
    } else {
      var rest := input[offset..];
      if MatchGroup(LessThan, input, offset).Some? {
        assert FirstMatch(input, offset, 6) == MatchGroup(LessThan, input, offset);
      } else if MatchGroup(GreaterThan, input, offset).Some? {
        assert FirstMatch(input, offset, 7) == MatchGroup(GreaterThan, input, offset);
      } else {
        ComparisonPrefixes(rest);
        AfterComparisons(input, offset, 10);
        assert FirstMatch(input, offset, 9) == FirstMatch(input, offset, 10);
        assert FirstMatch(input, offset, 8) == FirstMatch(input, offset, 9);
        assert FirstMatch(input, offset, 7) == FirstMatch(input, offset, 8);
      }
    }
  }

  /** Text starting with "<=" or ">=" starts with "<" or ">". */
  lemma ComparisonPrefixes(rest: string)
    ensures StartsWith(rest, "<=") ==> StartsWith(rest, "<")
    ensures StartsWith(rest, ">=") ==> StartsWith(rest, ">")
  {
    if StartsWith(rest, "<=") || StartsWith(rest, ">=") {
      assert rest[..1] == rest[..2][..1];
    }
  }

  /** The alternatives after ">=" yield only parentheses, identifiers and literals. */
  lemma {:induction false} AfterComparisons(input: string, offset: nat, i: nat)
    requires offset < |input| && i >= 10
    ensures FirstMatch(input, offset, i).Some? ==> FirstMatch(input, offset, i).value.kind in {LeftParen, RightParen, Identifier, Literal}
    decreases |Alternatives| - i
  {
    if i < |Alternatives| {
      AfterComparisons(input, offset, i + 1);
    }
  }

  /** Where a token's match ends: the group text, plus the two quotes of a literal. */
  function TokenEnd(t: Token): nat
  {
    t.start + |t.data| + (if t.kind == Literal then 2 else 0)
  }

  /** The characters `input[i..j]` are all whitespace. */
  predicate AllSpace(input: string, i: nat, j: nat)
  {
    i <= j <= |input| && forall k :: i <= k < j ==> IsSpace(input[k])
  }

  /** The input text that token `t` was read from. */
  predicate Spells(input: string, t: Token)
  {
    TokenEnd(t) <= |input| &&
    if t.kind == Literal then
      input[t.start] == '\'' && input[TokenEnd(t) - 1] == '\'' && t.data == input[t.start + 1..TokenEnd(t) - 1]
      && t.data != [] && '\'' !in t.data
    else
      t.data != [] && t.data == input[t.start..TokenEnd(t)]
  }

  /**
   * The tokens of `input` from `offset` on: no whitespace tokens, exactly one
   * EOF token, placed last at the input's length; each other token spells the
   * text at its start; and only whitespace lies before the first token and
   * between the end of one token and the start of the next.
   */
  predicate WellFormed(input: string, offset: nat, ts: seq<Token>)
  {
    |ts| >= 1 && ts[|ts| - 1] == Token(Eof, |input|, "")
    && offset <= ts[0].start && AllSpace(input, offset, ts[0].start)
    && (forall k :: 0 <= k < |ts| - 1 ==> ts[k].kind != Whitespace && ts[k].kind != Eof)
    && (forall k :: 0 <= k < |ts| - 1 ==> Spells(input, ts[k]))
    && (forall k :: 0 <= k < |ts| - 1 ==> TokenEnd(ts[k]) <= ts[k + 1].start && AllSpace(input, TokenEnd(ts[k]), ts[k + 1].start))
  }

  /** A successful match spells the text it covers. */
  lemma MatchSpells(input: string, offset: nat)
    requires offset < |input|
    requires MatchAt(input, offset).Some?
    ensures var m := MatchAt(input, offset).value;
      m.kind != Eof && offset < m.end <= |input|
      && (m.kind == Whitespace ==> AllSpace(input, offset, m.end))
      && (m.kind != Whitespace ==> Spells(input, Token(m.kind, offset, m.data)) && TokenEnd(Token(m.kind, offset, m.data)) == m.end)
  {
    FirstAlternativeWins(input, offset, 0);
    var j :| 0 <= j < |Alternatives| && MatchGroup(Alternatives[j], input, offset) == FirstMatch(input, offset, 0)
      && (forall k :: 0 <= k < j ==> MatchGroup(Alternatives[k], input, offset).None?);
    GroupSpells(Alternatives[j], input, offset);
  }

  /** What one group matches spells the text it covers. */
  lemma GroupSpells(kind: TokenType, input: string, offset: nat)
    requires offset < |input| && kind != Eof
    requires MatchGroup(kind, input, offset).Some?
    ensures var m := MatchGroup(kind, input, offset).value;
      offset < m.end <= |input|
      && (m.kind == Whitespace ==> AllSpace(input, offset, m.end))
      && (m.kind != Whitespace ==> Spells(input, Token(m.kind, offset, m.data)) && TokenEnd(Token(m.kind, offset, m.data)) == m.end)
  {
    var m := MatchGroup(kind, input, offset).value;
    if kind == Literal {
      assert input[offset + 1..m.end - 1] == m.data;
    } else if kind != Whitespace && kind != Identifier {
      assert input[offset..][..|m.data|] == input[offset..m.end];
    }
  }

  /** Putting a token that spells the text at `offset` in front of well-formed tokens of the rest. */
  lemma WellFormedCons(input: string, offset: nat, t: Token, rest: seq<Token>)
    requires t.start == offset && t.kind != Whitespace && t.kind != Eof && Spells(input, t)
    requires WellFormed(input, TokenEnd(t), rest)
    ensures WellFormed(input, offset, [t] + rest)
  {
    var ts := [t] + rest;
    assert forall k :: 1 <= k < |ts| ==> ts[k] == rest[k - 1];
  }

  /** Skipping whitespace in front of well-formed tokens. */
  lemma WellFormedSkip(input: string, offset: nat, end: nat, rest: seq<Token>)
    requires AllSpace(input, offset, end)
    requires WellFormed(input, end, rest)
    ensures WellFormed(input, offset, rest)
  {
  }

  /**
   * The tokenizer's result, defined by recursion on the offset: the match at
   * the offset (an error when there is none), then `LexAfter`; the empty
   * rest is a single EOF token.
   */
  function Lex(input: string, offset: nat): (r: Result<seq<Token>, ParseError>)
    requires offset <= |input|
    ensures r.Err? ==> offset <= r.error.offset < |input| && MatchAt(input, r.error.offset).None?
    decreases |input| - offset, 1
  {
    if offset == |input| then Ok([Token(Eof, |input|, "")])
    else
      var m := MatchAt(input, offset);
      if m.None? then Err(ParseError(offset)) else LexAfter(input, offset, m.value)
  }

  /** The tokens from a match at `offset` on: its token (none for whitespace), then the tokens from its end. */
  function LexAfter(input: string, offset: nat, m: Match): (r: Result<seq<Token>, ParseError>)
    requires offset < m.end <= |input|
    ensures r.Err? ==> m.end <= r.error.offset < |input| && MatchAt(input, r.error.offset).None?
    decreases |input| - offset, 0
  {
    var rest := Lex(input, m.end);
    if rest.Err? then rest else Ok(Kept(m, offset) + rest.value)
  }

  /** The tokens skipped or kept for one match. */
  function Kept(m: Match, offset: nat): seq<Token>
  {
    if m.kind == Whitespace then [] else [Token(m.kind, offset, m.data)]
  }

  /**
   * Whatever the input, a successful tokenization is well formed: whitespace
   * is dropped, one EOF closes the list at the input's length, and the tokens
   * spell the input in order with only whitespace between them.
   */
  lemma {:induction false} LexWellFormed(input: string, offset: nat)
    requires offset <= |input|
    requires Lex(input, offset).Ok?
    ensures WellFormed(input, offset, Lex(input, offset).value)
    decreases |input| - offset
  {
    if offset < |input| {
      var m := MatchAt(input, offset).value;
      MatchSpells(input, offset);
      LexWellFormed(input, m.end);
      var rest := Lex(input, m.end).value;
      if m.kind == Whitespace {
        assert Lex(input, offset).value == rest;
        WellFormedSkip(input, offset, m.end, rest);
      } else {
        WellFormedCons(input, offset, Token(m.kind, offset, m.data), rest);
      }
    }
  }

  /** Prefixes already-collected tokens to a tokenizer result. */
  function Prepend(ts: seq<Token>, r: Result<seq<Token>, ParseError>): Result<seq<Token>, ParseError>
  {
    match r
    case Ok(v) => Ok(ts + v)
    case Err(e) => Err(e)
  }

  /** One step of the tokenizer: the match at `offset`, then the tokens from its end. */
  lemma LexStep(input: string, offset: nat, tokens: seq<Token>, m: Match)
    requires offset < m.end <= |input|
    ensures Prepend(tokens, LexAfter(input, offset, m)) == Prepend(tokens + Kept(m, offset), Lex(input, m.end))
  {
    var rest := Lex(input, m.end);
    if rest.Ok? {
      assert tokens + (Kept(m, offset) + rest.value) == tokens + Kept(m, offset) + rest.value;
    }
  }

  /**
   * `tokenize`: finds one match after another from offset 0, requiring each
   * to start where the previous one ended, drops whitespace, and closes the
   * list with an EOF token at the input's length.
   */
  method Tokenize(input: string) returns (r: Result<seq<Token>, ParseError>)
    ensures r == Lex(input, 0)
  {
    var tokens: seq<Token> := [];
    var offset: nat := 0;
    if Lex(input, 0).Ok? {
      assert tokens + Lex(input, 0).value == Lex(input, 0).value;
    }
    while offset != |input|
      invariant offset <= |input|
      invariant Lex(input, 0) == Prepend(tokens, Lex(input, offset))
      decreases |input| - offset
    {
      var m := MatchAt(input, offset);
      if m.None? {
        return Err(ParseError(offset));
      }
      LexStep(input, offset, tokens, m.value);
      MatchSpells(input, offset);
      ghost var kept := tokens + Kept(m.value, offset);
      if m.value.kind != Whitespace {
        tokens := tokens + [Token(m.value.kind, offset, m.value.data)];
      }
      assert tokens == kept;
      offset := m.value.end;
    }
    tokens := tokens + [Token(Eof, |input|, "")];
    return Ok(tokens);
  }

  lemma NotStartsWith(s: string, p: string)
    requires |s| > 0 && |p| > 0 && s[0] != p[0]
    ensures !StartsWith(s, p)
  {
    if |p| <= |s| {
      assert s[..|p|][0] != p[0];
    }
  }

  /** "<=" is read as a LESS_THAN token followed by an EQUALS token. */
  lemma LessOrEqualIsTwoTokens()
    ensures Lex("<=", 0) == Ok([Token(LessThan, 0, "<"), Token(Equals, 1, "="), Token(Eof, 2, "")])
  {
    var input := "<=";
    assert input[0..] == input;
    NotStartsWith(input, "AND");
    NotStartsWith(input, "OR");
    NotStartsWith(input, "=");
    NotStartsWith(input, "LIKE");
    assert input[..2] != "<>" by { assert input[1] != '>'; }
    assert StartsWith(input[0..], "<");
    assert FirstMatch(input, 0, 6) == Some(Match(LessThan, "<", 1));
    assert FirstMatch(input, 0, 3) == FirstMatch(input, 0, 6);
    assert MatchAt(input, 0) == Some(Match(LessThan, "<", 1));
    NotStartsWith(input[1..], "AND");
    NotStartsWith(input[1..], "OR");
    assert StartsWith(input[1..], "=");
    assert MatchAt(input, 1) == Some(Match(Equals, "=", 2));
    assert Lex(input, 2) == Ok([Token(Eof, 2, "")]);
    assert Lex(input, 1) == Ok([Token(Equals, 1, "=")] + [Token(Eof, 2, "")]);
    assert Lex(input, 0) == Ok([Token(LessThan, 0, "<")] + ([Token(Equals, 1, "=")] + [Token(Eof, 2, "")]));
    assert [Token(LessThan, 0, "<")] + ([Token(Equals, 1, "=")] + [Token(Eof, 2, "")])
      == [Token(LessThan, 0, "<"), Token(Equals, 1, "="), Token(Eof, 2, "")];
  }

  /** A stream of tokens ready for the parser: the last token is EOF and the cursor is on a token. */
  predicate Ready(ts: seq<Token>, pos: int)
  {
    0 <= pos < |ts| && ts[|ts| - 1].kind == Eof
  }

  /** The token stream: a fixed token list and a cursor that only moves forward. */
  class TokenStream {
    const tokens: seq<Token>
    var offset: nat

    constructor(tokens: seq<Token>)
      ensures this.tokens == tokens && offset == 0
    {
      this.tokens := tokens;
      offset := 0;
    }

    predicate Valid()
      reads this
    {
      Ready(tokens, offset)
    }

    /** `consume`: takes the token at the cursor, advances, and throws if its kind is not `kind`. */
    method Consume(kind: TokenType) returns (r: Result<Token, ParseError>)
      requires offset < |tokens|
      modifies this
      ensures offset == old(offset) + 1
      ensures tokens[old(offset)].kind == kind ==> r == Ok(tokens[old(offset)])
      ensures tokens[old(offset)].kind != kind ==> r == Err(ParseError(tokens[old(offset)].start))
    {
      var token := tokens[offset];
      offset := offset + 1;
      if token.kind != kind {
        return Err(ParseError(token.start));
      }
      return Ok(token);
    }

    /** `consumeIf`: takes the token at the cursor only if it has kind `kind`; otherwise `null` and no move. */
    method ConsumeIf(kind: TokenType) returns (r: Option<Token>)
      requires offset < |tokens|
      modifies this
      ensures tokens[old(offset)].kind == kind ==> r == Some(tokens[old(offset)]) && offset == old(offset) + 1
      ensures tokens[old(offset)].kind != kind ==> r == None && offset == old(offset)
    {
      var token := tokens[offset];
      if token.kind == kind {
        offset := offset + 1;
        return Some(token);
      }
      return None;
    }
  }
}
