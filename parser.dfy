/** The parser object: a cursor over the token list, moved by `Match`,
    `Advance` and `Consume`, and one method per grammar level. Each method is
    proved to read exactly what the corresponding function of `Grammar` reads. */
module Parsing {
  import opened Errors
  import opened Tokens
  import opened Ast
  import Grammar
  import opened Canonical

  /** A method's outcome with the cursor it leaves, in the form the grammar
      functions return. */
  function Outcome(r: Result<Expr>, current: nat): Result<Grammar.Parsed>
  {
    match r
    case Ok(e) => Ok(Grammar.Parsed(e, current))
    case Err(err) => Err(err)
  }

  class Parser {
    const tokens: seq<Token>
    var current: nat

    /** The cursor never passes the EOF token that ends the list. */
    ghost predicate Valid()
      reads this
    {
      WellFormed(tokens) && current < |tokens|
    }

    constructor(tokens: seq<Token>)
      requires WellFormed(tokens)
      ensures this.tokens == tokens && current == 0 && Valid()
    {
      this.tokens := tokens;
      current := 0;
    }

    function Peek(): (t: Token)
      requires Valid()
      reads this
      ensures t == tokens[current]
    {
      tokens[current]
    }

    /** The token before the cursor; before the first token this is the last
        one, as a negative index selects it. */
    function Previous(): (t: Token)
      requires Valid()
      reads this
      ensures current > 0 ==> t == tokens[current - 1]
      ensures current == 0 ==> t == tokens[|tokens| - 1]
    {
      if current == 0 then tokens[|tokens| - 1] else tokens[current - 1]
    }

    /** On the EOF token, which always ends the list. */
    predicate IsAtEnd()
      requires Valid()
      reads this
      ensures current == |tokens| - 1 ==> IsAtEnd()
      ensures IsAtEnd() ==> forall k :: !Grammar.Check(tokens, current, k)
    {
      Peek().kind == Eof
    }

    /** The token under the cursor has kind `k`; at the end nothing matches. */
    predicate Check(k: TokenKind)
      requires Valid()
      reads this
      ensures Check(k) <==> Grammar.Check(tokens, current, k)
    {
      if IsAtEnd() then false else Peek().kind == k
    }

    /** Steps over the current token unless it is EOF, and returns it. */
    method Advance() returns (t: Token)
      requires Valid()
      modifies this
      ensures Valid()
      ensures current == if old(IsAtEnd()) then old(current) else old(current) + 1
      ensures t == Previous()
    {
      if !IsAtEnd() {
        current := current + 1;
      }
      t := Previous();
    }

    /** Steps over the current token when it has one of the given kinds. */
    method Match(kinds: seq<TokenKind>) returns (found: bool)
      requires Valid()
      modifies this
      ensures Valid()
      ensures found <==> exists k | k in kinds :: Grammar.Check(tokens, old(current), k)
      ensures current == if found then old(current) + 1 else old(current)
    {
      for i := 0 to |kinds|
        invariant current == old(current)
        invariant forall j | 0 <= j < i :: !Grammar.Check(tokens, current, kinds[j])
      {
        if Check(kinds[i]) {
          var _ := Advance();
          return true;
        }
      }
      return false;
    }

    /** Steps over a token of kind `k`, or fails with `err`. */
    method Consume(k: TokenKind, err: Error) returns (r: Result<Token>)
      requires Valid()
      modifies this
      ensures Valid()
      ensures r.Ok? <==> Grammar.Check(tokens, old(current), k)
      ensures r.Ok? ==> current == old(current) + 1 && r.value == tokens[old(current)]
      ensures r.Err? ==> r.error == err
    {
      if Check(k) {
        var t := Advance();
        return Ok(t);
      }
      return Err(err);
    }

    /** Parses the whole token list and serialises the tree. */
    method Parse() returns (r: Result<Canonical>)
      requires Valid()
      modifies this
      ensures Valid()
      ensures r == (var p := Grammar.OrExpr(tokens, old(current));
                    if p.Ok? then ToDict(p.value.expr) else Err(p.error))
      ensures Grammar.OrExpr(tokens, old(current)).Ok? ==> current == Grammar.OrExpr(tokens, old(current)).value.next
    {
      var e := OrExpr();
      if e.Err? {
        return Err(e.error);
      }
      r := ToDict(e.value);
    }

    method OrExpr() returns (r: Result<Expr>)
      requires Valid()
      modifies this
      ensures Valid()
      ensures Outcome(r, current) == Grammar.OrExpr(tokens, old(current))
      decreases |tokens| - current, 4
    {
      var first := AndExpr();
      if first.Err? {
        return Err(first.error);
      }
      var expr := first.value;
      ghost var before := current;
      var more := Match([Or]);
      while more
        invariant Valid()
        invariant old(current) < before < |tokens|
        invariant Grammar.OrExpr(tokens, old(current)) == Grammar.OrRest(tokens, before, expr)
        invariant more <==> Grammar.Check(tokens, before, Or)
        invariant current == if more then before + 1 else before
        decreases |tokens| - current
      {
        var right := AndExpr();
        if right.Err? {
          return Err(right.error);
        }
        expr := Bin(OrOp, expr, right.value);
        before := current;
        more := Match([Or]);
      }
      r := Ok(expr);
    }

    method AndExpr() returns (r: Result<Expr>)
      requires Valid()
      modifies this
      ensures Valid()
      ensures Outcome(r, current) == Grammar.AndExpr(tokens, old(current))
      decreases |tokens| - current, 3
    {
      var first := ComparisonExpr();
      if first.Err? {
        return Err(first.error);
      }
      var expr := first.value;
      ghost var before := current;
      var more := Match([And]);
      while more
        invariant Valid()
        invariant old(current) < before < |tokens|
        invariant Grammar.AndExpr(tokens, old(current)) == Grammar.AndRest(tokens, before, expr)
        invariant more <==> Grammar.Check(tokens, before, And)
        invariant current == if more then before + 1 else before
        decreases |tokens| - current
      {
        var right := ComparisonExpr();
        if right.Err? {
          return Err(right.error);
        }
        expr := Bin(AndOp, expr, right.value);
        before := current;
        more := Match([And]);
      }
      r := Ok(expr);
    }

    method ComparisonExpr() returns (r: Result<Expr>)
      requires Valid()
      modifies this
      ensures Valid()
      ensures Outcome(r, current) == Grammar.CmpExpr(tokens, old(current))
      decreases |tokens| - current, 2
    {
      var first := BetweenExpr();
      if first.Err? {
        return Err(first.error);
      }
      var expr := first.value;
      ghost var before := current;
      var more := Match([Equal, Less, Greater]);
      while more
        invariant Valid()
        invariant old(current) < before < |tokens|
        invariant Grammar.CmpExpr(tokens, old(current)) == Grammar.CmpRest(tokens, before, expr)
        invariant more <==> Grammar.AtComparison(tokens, before)
        invariant current == if more then before + 1 else before
        decreases |tokens| - current
      {
        var operator := Previous().kind;
        var right := BetweenExpr();
        if right.Err? {
          return Err(right.error);
        }
        expr := Bin(Compare(Grammar.CmpOf(operator).value), expr, right.value);
        before := current;
        more := Match([Equal, Less, Greater]);
      }
      r := Ok(expr);
    }

    method BetweenExpr() returns (r: Result<Expr>)
      requires Valid()
      modifies this
      ensures Valid()
      ensures Outcome(r, current) == Grammar.BetweenExpr(tokens, old(current))
      decreases |tokens| - current, 1
    {
      var subject := Primary();
      if subject.Err? {
        return subject;
      }
      var bracket := Match([LeftBracket]);
      if bracket {
        var lower := Primary();
        if lower.Err? {
          return lower;
        }
        var colon := Consume(Colon, ExpectColon);
        if colon.Err? {
          return Err(colon.error);
        }
        var upper := Primary();
        if upper.Err? {
          return upper;
        }
        var close := Consume(RightBracket, ExpectRightBracket);
        if close.Err? {
          return Err(close.error);
        }
        return Ok(Btwn(subject.value, lower.value, upper.value));
      }
      return subject;
    }

    method Primary() returns (r: Result<Expr>)
      requires Valid()
      modifies this
      ensures Valid()
      ensures Outcome(r, current) == Grammar.Primary(tokens, old(current))
      decreases |tokens| - current, 0
    {
      var found := Match([Number]);
      if found {
        return Ok(Num(Previous().literal.value.n));
      }
      found := Match([String]);
      if found {
        return Ok(Str(Previous().literal.value.s));
      }
      found := Match([Identifier]);
      if found {
        return Ok(Ident(Previous().literal.value.s));
      }
      found := Match([LeftParen]);
      if found {
        var inner := OrExpr();
        if inner.Err? {
          return inner;
        }
        var close := Consume(RightParen, ExpectRightParen);
        if close.Err? {
          return Err(close.error);
        }
        return inner;
      }
      return Err(ExpectExpression);
    }
  }
}
