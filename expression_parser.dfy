/**
 * The thematic filter language's parser and evaluator.
 *
 * Grammar (the OR and AND levels are assumed to follow the usual
 * "one child, then more children while the separator token follows" shape):
 *   Or     := And { OR And }
 *   And    := Sub { AND Sub }
 *   Sub    := "(" Or ")" | Simple
 *   Simple := IDENTIFIER operator LITERAL | LITERAL IDENTIFIER
 *
 * Each level is given twice: as a function on (tokens, position) that
 * says what the level produces, and as a method that reads the same tokens
 * from a `TokenStream` one `consume`/`consumeIf` at a time and is proved
 * to agree with the function.
 */
module ExpressionParser {
  import opened Wrappers
  import opened JavaStrings
  import opened ExpressionTokens

  /** A parsed expression. `comp` is the recognised comparison operator; it stays unset in the literal-first form. */
  datatype Expr =
    | OrExpr(children: seq<Expr>)
    | AndExpr(children: seq<Expr>)
    | SubExpr(child: Expr)
    | SimpleExpr(identifier: string, comp: Option<TokenType>, literal: string)

  /** A parse result: the expression and the position of the first token after it. */
  type Parsed = Result<(Expr, nat), ParseError>

  /**
   * The operator part of a simple expression starting at `pos`, exactly as
   * the constructor's chain of `consumeIf` calls reads it: an optional LIKE,
   * then "=", or "<>", or "<" (with an optional "=", unless LIKE was read),
   * or, when neither an operator nor LIKE was read, ">" with an optional "=".
   */
  function OperatorSpec(ts: seq<Token>, pos: nat): (r: (Option<TokenType>, nat))
    requires Ready(ts, pos)
    ensures pos <= r.1 <= pos + 2 && Ready(ts, r.1)
  {
    var (comp1, p1) := if ts[pos].kind == Like then (Some(Like), pos + 1) else (None, pos);
    if ts[p1].kind == Equals then (Some(Equals), p1 + 1)
    else if ts[p1].kind == NotEquals then (Some(NotEquals), p1 + 1)
    else if ts[p1].kind == LessThan then
      if comp1.Some? then (comp1, p1 + 1)
      else if ts[p1 + 1].kind == Equals then (Some(LessThanOrEqual), p1 + 2)
      else (Some(LessThan), p1 + 1)
    else if comp1.Some? then (comp1, p1)
    else if ts[p1].kind == GreaterThan then
      if ts[p1 + 1].kind == Equals then (Some(GreaterThanOrEqual), p1 + 2)
      else (Some(GreaterThan), p1 + 1)
    else (None, p1)
  }

  /** A simple expression at `pos`: identifier, operator, literal; or literal then identifier. */
  function SimpleSpec(ts: seq<Token>, pos: nat): (r: Parsed)
    requires Ready(ts, pos)
    ensures r.Ok? ==> pos < r.value.1 && Ready(ts, r.value.1) && r.value.0.SimpleExpr?
    // identifier first: the literal is the token just before the end, right after the operator
    ensures ts[pos].kind == Identifier ==>
      var p := OperatorSpec(ts, pos + 1).1;
      (r.Ok? <==> ts[p].kind == Literal)
      && (r.Ok? ==> r.value == (SimpleExpr(ts[pos].data, OperatorSpec(ts, pos + 1).0, ts[p].data), p + 1))
      && (r.Err? ==> r.error == ParseError(ts[p].start))
    // literal first: exactly a literal and an identifier, and no comparison operator
    ensures ts[pos].kind == Literal ==>
      (r.Ok? <==> ts[pos + 1].kind == Identifier)
      && (r.Ok? ==> r.value.0.comp.None? && r.value.1 == pos + 2)
    ensures ts[pos].kind != Identifier && ts[pos].kind != Literal ==> r == Err(ParseError(ts[pos].start))
  {
    if ts[pos].kind == Identifier then
      var (comp, p) := OperatorSpec(ts, pos + 1);
      if ts[p].kind == Literal then Ok((SimpleExpr(ts[pos].data, comp, ts[p].data), p + 1))
      else Err(ParseError(ts[p].start))
    else if ts[pos].kind == Literal then
      if ts[pos + 1].kind == Identifier then Ok((SimpleExpr(ts[pos + 1].data, None, ts[pos].data), pos + 2))
      else Err(ParseError(ts[pos + 1].start))
    else Err(ParseError(ts[pos].start))
  }

  function OrSpec(ts: seq<Token>, pos: nat): (r: Parsed)
    requires Ready(ts, pos)
    ensures r.Ok? ==> pos < r.value.1 && Ready(ts, r.value.1) && r.value.0.OrExpr?
    decreases |ts| - pos, 2
  {
    match AndSpec(ts, pos)
    case Err(e) => Err(e)
    case Ok((e, p)) => OrTail(ts, p, [e])
  }

  /** The rest of an OR chain, `acc` holding the children read so far and `pos` the token after the last one. */
  function OrTail(ts: seq<Token>, pos: nat, acc: seq<Expr>): (r: Parsed)
    requires Ready(ts, pos)
    ensures r.Ok? ==> pos <= r.value.1 && Ready(ts, r.value.1) && r.value.0.OrExpr?
    decreases |ts| - pos, 0
  {
    if ts[pos].kind != Or then Ok((OrExpr(acc), pos))
    else
      match AndSpec(ts, pos + 1)
      case Err(e) => Err(e)
      case Ok((e, p)) => OrTail(ts, p, acc + [e])
  }

  function AndSpec(ts: seq<Token>, pos: nat): (r: Parsed)
    requires Ready(ts, pos)
    ensures r.Ok? ==> pos < r.value.1 && Ready(ts, r.value.1) && r.value.0.AndExpr?
    decreases |ts| - pos, 1
  {
    match SubSpec(ts, pos)
    case Err(e) => Err(e)
    case Ok((e, p)) => AndTail(ts, p, [e])
  }

  function AndTail(ts: seq<Token>, pos: nat, acc: seq<Expr>): (r: Parsed)
    requires Ready(ts, pos)
    ensures r.Ok? ==> pos <= r.value.1 && Ready(ts, r.value.1) && r.value.0.AndExpr?
    decreases |ts| - pos, 0
  {
    if ts[pos].kind != And then Ok((AndExpr(acc), pos))
    else
      match SubSpec(ts, pos + 1)
      case Err(e) => Err(e)
      case Ok((e, p)) => AndTail(ts, p, acc + [e])
  }

  /** One more `AND` operand: the chain goes on after it, or stops with its error. */
  lemma AndTailStep(ts: seq<Token>, at: nat, acc: seq<Expr>)
    requires Ready(ts, at) && ts[at].kind == And && Ready(ts, at + 1)
    ensures SubSpec(ts, at + 1).Err? ==> AndTail(ts, at, acc) == Err(SubSpec(ts, at + 1).error)
    ensures SubSpec(ts, at + 1).Ok? ==>
      AndTail(ts, at, acc) == AndTail(ts, SubSpec(ts, at + 1).value.1, acc + [SubSpec(ts, at + 1).value.0])
  {
  }

  /** A parenthesised OR expression, or else a simple expression; either way wrapped in a `SubExpr`. */
  function SubSpec(ts: seq<Token>, pos: nat): (r: Parsed)
    requires Ready(ts, pos)
    ensures r.Ok? ==> pos < r.value.1 && Ready(ts, r.value.1) && r.value.0.SubExpr?
    decreases |ts| - pos, 0
  {
    if ts[pos].kind == LeftParen then
      match OrSpec(ts, pos + 1)
      case Err(e) => Err(e)
      case Ok((e, p)) =>
        if ts[p].kind == RightParen then Ok((SubExpr(e), p + 1)) else Err(ParseError(ts[p].start))
    else
      match SimpleSpec(ts, pos)
      case Err(e) => Err(e)
      case Ok((e, p)) => Ok((SubExpr(e), p))
  }

  /** `parse`: an OR expression that must be followed directly by the EOF token. */
  function ParseSpec(ts: seq<Token>, pos: nat): Result<Expr, ParseError>
    requires Ready(ts, pos)
  {
    match OrSpec(ts, pos)
    case Err(e) => Err(e)
    case Ok((e, p)) => if ts[p].kind == Eof then Ok(e) else Err(ParseError(ts[p].start))
  }

  /** The comparison each operator token sequence stands for; `None` for any other sequence. */
  function OperatorFor(ops: seq<TokenType>): Option<TokenType>
  {
    if ops == [Equals] then Some(Equals)
    else if ops == [NotEquals] then Some(NotEquals)
    else if ops == [Like] then Some(Like)
    else if ops == [LessThan] then Some(LessThan)
    else if ops == [LessThan, Equals] then Some(LessThanOrEqual)
    else if ops == [GreaterThan] then Some(GreaterThan)
    else if ops == [GreaterThan, Equals] then Some(GreaterThanOrEqual)
    else None
  }

  /**
   * An identifier, one of the seven operator token sequences and a literal
   * parse to a simple expression with that sequence's comparison.
   */
  lemma OperatorSequences(ts: seq<Token>, pos: nat, ops: seq<TokenType>)
    requires Ready(ts, pos) && ts[pos].kind == Identifier
    requires OperatorFor(ops).Some?
    requires pos + 1 + |ops| < |ts|
    requires forall k :: 0 <= k < |ops| ==> ts[pos + 1 + k].kind == ops[k]
    requires ts[pos + 1 + |ops|].kind == Literal
    ensures SimpleSpec(ts, pos)
      == Ok((SimpleExpr(ts[pos].data, OperatorFor(ops), ts[pos + 1 + |ops|].data), pos + 2 + |ops|))
  {
    assert ts[pos + 1].kind == ops[0];
    if |ops| == 2 {
      assert ts[pos + 2].kind == ops[1];
    }
  }

  /** Tokenizing and then parsing a whole input text. */
  function ResolveSpec(input: string): Result<Expr, ParseError>
  {
    match Lex(input, 0)
    case Err(e) => Err(e)
    case Ok(ts) => LexWellFormed(input, 0); ParseSpec(ts, 0)
  }

  /**
   * A successful parse reads the whole input: the OR expression ends at the
   * EOF token, which is the last token.
   */
  lemma ParseConsumesAll(input: string)
    requires ResolveSpec(input).Ok?
    ensures Lex(input, 0).Ok?
    ensures var ts := Lex(input, 0).value;
      OrSpec(ts, 0).Ok? && OrSpec(ts, 0).value.1 == |ts| - 1
  {
    LexWellFormed(input, 0);
  }

  /** A stream method's outcome matches the function that specifies it, cursor included. */
  predicate Agrees(spec: Parsed, r: Result<Expr, ParseError>, offset: nat)
  {
    match spec
    case Ok((e, p)) => r == Ok(e) && offset == p
    case Err(err) => r == Err(err)
  }

  /** The operator part of `new SimpleExpr(stream)`: its chain of `consumeIf` calls after the identifier. */
  method ParseOperator(s: TokenStream) returns (comp: Option<TokenType>)
    requires s.Valid()
    modifies s
    ensures (comp, s.offset) == OperatorSpec(s.tokens, old(s.offset))
  {
    comp := None;
    var op := s.ConsumeIf(Like);
    if op.Some? {
      comp := Some(Like);
    }
    op := s.ConsumeIf(Equals);
    if op.Some? {
      comp := Some(Equals);
    } else {
      op := s.ConsumeIf(NotEquals);
      if op.Some? {
        comp := Some(NotEquals);
      } else {
        op := s.ConsumeIf(LessThan);
      }
    }
    if comp.None? && op.Some? {
      op := s.ConsumeIf(Equals);
      if op.Some? {
        comp := Some(LessThanOrEqual);
      } else {
        comp := Some(LessThan);
      }
    }
    if comp.None? && op.None? {
      op := s.ConsumeIf(GreaterThan);
      if op.Some? {
        op := s.ConsumeIf(Equals);
        if op.Some? {
          comp := Some(GreaterThanOrEqual);
        } else {
          comp := Some(GreaterThan);
        }
      }
    }
  }

  /** `new SimpleExpr(stream)`. */
  method ParseSimple(s: TokenStream) returns (r: Result<Expr, ParseError>)
    requires s.Valid()
    modifies s
    ensures Agrees(SimpleSpec(s.tokens, old(s.offset)), r, s.offset)
  {
    var token := s.ConsumeIf(Identifier);
    if token.Some? {
      var identifier := token.value.data;
      var comp := ParseOperator(s);
      var literal := s.Consume(Literal);
      if literal.Err? {
        return Err(literal.error);
      }
      return Ok(SimpleExpr(identifier, comp, literal.value.data));
    } else {
      var literal := s.Consume(Literal);
      if literal.Err? {
        return Err(literal.error);
      }
      var id := s.Consume(Identifier);
      if id.Err? {
        return Err(id.error);
      }
      return Ok(SimpleExpr(id.value.data, None, literal.value.data));
    }
  }

  /** `new SubExpr(stream)`: "(" then an OR expression then a required ")", or else a simple expression. */
  method ParseSub(s: TokenStream) returns (r: Result<Expr, ParseError>)
    requires s.Valid()
    modifies s
    ensures Agrees(SubSpec(s.tokens, old(s.offset)), r, s.offset)
    decreases |s.tokens| - s.offset, 0
  {
    var lp := s.ConsumeIf(LeftParen);
    if lp.Some? {
      var inner := ParseOr(s);
      if inner.Err? {
        return Err(inner.error);
      }
      var rp := s.Consume(RightParen);
      if rp.Err? {
        return Err(rp.error);
      }
      return Ok(SubExpr(inner.value));
    }
    var simple := ParseSimple(s);
    if simple.Err? {
      return Err(simple.error);
    }
    return Ok(SubExpr(simple.value));
  }

  /** `new AndExpr(stream)`: one sub-expression, then another after each AND token. */
  method ParseAnd(s: TokenStream) returns (r: Result<Expr, ParseError>)
    requires s.Valid()
    modifies s
    ensures Agrees(AndSpec(s.tokens, old(s.offset)), r, s.offset)
    decreases |s.tokens| - s.offset, 1
  {
    ghost var start := s.offset;
    var first := ParseSub(s);
    if first.Err? {
      return Err(first.error);
    }
    var children := [first.value];
    ghost var at := s.offset;
    var sep := s.ConsumeIf(And);
    while sep.Some?
      invariant start < at && Ready(s.tokens, at)
      invariant AndSpec(s.tokens, start) == AndTail(s.tokens, at, children)
      invariant sep.Some? ==> s.tokens[at].kind == And && s.offset == at + 1
      invariant sep.None? ==> s.tokens[at].kind != And && s.offset == at
      decreases |s.tokens| - s.offset
    {
      AndTailStep(s.tokens, at, children);
      var next := ParseSub(s);
      if next.Err? {
        return Err(next.error);
      }
      children := children + [next.value];
      at := s.offset;
      sep := s.ConsumeIf(And);
    }
    return Ok(AndExpr(children));
  }

  /** `new OrExpr(stream)`: one AND expression, then another after each OR token. */
  method ParseOr(s: TokenStream) returns (r: Result<Expr, ParseError>)
    requires s.Valid()
    modifies s
    ensures Agrees(OrSpec(s.tokens, old(s.offset)), r, s.offset)
    decreases |s.tokens| - s.offset, 2
  {
    ghost var start := s.offset;
    var first := ParseAnd(s);
    if first.Err? {
      return Err(first.error);
    }
    var children := [first.value];
    ghost var at := s.offset;
    var sep := s.ConsumeIf(Or);
    while sep.Some?
      invariant start < at && Ready(s.tokens, at)
      invariant OrSpec(s.tokens, start) == OrTail(s.tokens, at, children)
      invariant sep.Some? ==> s.tokens[at].kind == Or && s.offset == at + 1
      invariant sep.None? ==> s.tokens[at].kind != Or && s.offset == at
      decreases |s.tokens| - s.offset
    {
      var next := ParseAnd(s);
      if next.Err? {
        return Err(next.error);
      }
      children := children + [next.value];
      at := s.offset;
      sep := s.ConsumeIf(Or);
    }
    return Ok(OrExpr(children));
  }

  /** `parse`: an OR expression, then `consume(EOF)`. */
  method Parse(s: TokenStream) returns (r: Result<Expr, ParseError>)
    requires s.Valid()
    modifies s
    ensures r == ParseSpec(s.tokens, old(s.offset))
  {
    var e := ParseOr(s);
    if e.Err? {
      return Err(e.error);
    }
    var eof := s.Consume(Eof);
    if eof.Err? {
      return Err(eof.error);
    }
    return Ok(e.value);
  }

  /** `tokenize` followed by `parse`, as a caller of the resolver runs them. */
  method Resolve(input: string) returns (r: Result<Expr, ParseError>)
    ensures r == ResolveSpec(input)
  {
    var tokens := Tokenize(input);
    if tokens.Err? {
      return Err(tokens.error);
    }
    LexWellFormed(input, 0);
    var stream := new TokenStream(tokens.value);
    r := Parse(stream);
  }
}
