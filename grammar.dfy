/** The grammar the recursive-descent parser recognises, as functions from a
    token list and a position to the expression read there and the position
    after it. Precedence, loosest first: `||`, `&&`, the comparisons
    `==`/`<`/`>`, the range form `subject[lower:upper]`, primaries. The three
    binary levels fold to the left. */
module Grammar {
  import opened Errors
  import opened Tokens
  import opened Ast

  /** An expression and the position of the first token after it. */
  datatype Parsed = Parsed(expr: Expr, next: nat)

  /** The token at `pos` has kind `k`; the EOF token matches nothing. */
  predicate Check(ts: seq<Token>, pos: nat, k: TokenKind)
    requires pos < |ts|
  {
    ts[pos].kind != Eof && ts[pos].kind == k
  }

  /** What every successful parse at `pos` promises: it consumed at least one
      token and stopped before the end of the list. */
  predicate Advances(ts: seq<Token>, pos: nat, r: Result<Parsed>)
  {
    r.Ok? ==> pos < r.value.next < |ts|
  }

  /** Like `Advances`, for the loops that may consume nothing. */
  predicate Continues(ts: seq<Token>, pos: nat, r: Result<Parsed>)
  {
    r.Ok? ==> pos <= r.value.next < |ts|
  }

  /** or_expr: an and_expr followed by any number of `|| and_expr`. */
  function OrExpr(ts: seq<Token>, pos: nat): (r: Result<Parsed>)
    requires WellFormed(ts) && pos < |ts|
    ensures Advances(ts, pos, r)
    decreases |ts| - pos, 4
  {
    var first :- AndExpr(ts, pos);
    OrRest(ts, first.next, first.expr)
  }

  /** The `|| and_expr` repetitions, folded onto `left`. */
  function OrRest(ts: seq<Token>, pos: nat, left: Expr): (r: Result<Parsed>)
    requires WellFormed(ts) && pos < |ts|
    ensures Continues(ts, pos, r)
    decreases |ts| - pos, 0
  {
    if Check(ts, pos, Or) then
      var right :- AndExpr(ts, pos + 1);
      OrRest(ts, right.next, Bin(OrOp, left, right.expr))
    else
      Ok(Parsed(left, pos))
  }

  /** and_expr: a comparison followed by any number of `&& comparison`. */
  function AndExpr(ts: seq<Token>, pos: nat): (r: Result<Parsed>)
    requires WellFormed(ts) && pos < |ts|
    ensures Advances(ts, pos, r)
    decreases |ts| - pos, 3
  {
    var first :- CmpExpr(ts, pos);
    AndRest(ts, first.next, first.expr)
  }

  function AndRest(ts: seq<Token>, pos: nat, left: Expr): (r: Result<Parsed>)
    requires WellFormed(ts) && pos < |ts|
    ensures Continues(ts, pos, r)
    decreases |ts| - pos, 0
  {
    if Check(ts, pos, And) then
      var right :- CmpExpr(ts, pos + 1);
      AndRest(ts, right.next, Bin(AndOp, left, right.expr))
    else
      Ok(Parsed(left, pos))
  }

  /** The comparison a token kind stands for, if any. */
  function CmpOf(k: TokenKind): (op: Option<CmpOp>)
    ensures op.Some? <==> k in {Equal, Less, Greater}
  {
    match k
    case Equal => Some(Eq)
    case Less => Some(Lt)
    case Greater => Some(Gt)
    case _ => None
  }

  /** The token at `pos` is `==`, `<` or `>`. */
  predicate AtComparison(ts: seq<Token>, pos: nat)
    requires pos < |ts|
  {
    Check(ts, pos, Equal) || Check(ts, pos, Less) || Check(ts, pos, Greater)
  }

  /** comparison_expr: a range followed by any number of `op range`, where
      `op` is `==`, `<` or `>`; chains such as `a == 1 == 2` are accepted. */
  function CmpExpr(ts: seq<Token>, pos: nat): (r: Result<Parsed>)
    requires WellFormed(ts) && pos < |ts|
    ensures Advances(ts, pos, r)
    decreases |ts| - pos, 2
  {
    var first :- BetweenExpr(ts, pos);
    CmpRest(ts, first.next, first.expr)
  }

  function CmpRest(ts: seq<Token>, pos: nat, left: Expr): (r: Result<Parsed>)
    requires WellFormed(ts) && pos < |ts|
    ensures Continues(ts, pos, r)
    decreases |ts| - pos, 0
  {
    if AtComparison(ts, pos) then
      var right :- BetweenExpr(ts, pos + 1);
      CmpRest(ts, right.next, Bin(Compare(CmpOf(ts[pos].kind).value), left, right.expr))
    else
      Ok(Parsed(left, pos))
  }

  /** between_expr: a primary, optionally followed by `[lower:upper]` whose
      bounds are primaries. */
  function BetweenExpr(ts: seq<Token>, pos: nat): (r: Result<Parsed>)
    requires WellFormed(ts) && pos < |ts|
    ensures Advances(ts, pos, r)
    decreases |ts| - pos, 1
  {
    var subject :- Primary(ts, pos);
    if Check(ts, subject.next, LeftBracket) then
      var lower :- Primary(ts, subject.next + 1);
      if !Check(ts, lower.next, Colon) then Err(ExpectColon)
      else
        var upper :- Primary(ts, lower.next + 1);
        if !Check(ts, upper.next, RightBracket) then Err(ExpectRightBracket)
        else Ok(Parsed(Btwn(subject.expr, lower.expr, upper.expr), upper.next + 1))
    else
      Ok(subject)
  }

  /** primary: a number, string or identifier, or a parenthesised or_expr. */
  function Primary(ts: seq<Token>, pos: nat): (r: Result<Parsed>)
    requires WellFormed(ts) && pos < |ts|
    ensures Advances(ts, pos, r)
    decreases |ts| - pos, 0
  {
    var t := ts[pos];
    if Check(ts, pos, Number) then Ok(Parsed(Num(t.literal.value.n), pos + 1))
    else if Check(ts, pos, String) then Ok(Parsed(Str(t.literal.value.s), pos + 1))
    else if Check(ts, pos, Identifier) then Ok(Parsed(Ident(t.literal.value.s), pos + 1))
    else if Check(ts, pos, LeftParen) then
      var inner :- OrExpr(ts, pos + 1);
      if Check(ts, inner.next, RightParen) then Ok(Parsed(inner.expr, inner.next + 1))
      else Err(ExpectRightParen)
    else
      Err(ExpectExpression)
  }

  /** The parser's result for a token list: one or_expr from the start;
      whatever follows it is ignored. */
  function ParseTokens(ts: seq<Token>): (r: Result<Expr>)
    requires WellFormed(ts)
  {
    var p :- OrExpr(ts, 0);
    Ok(p.expr)
  }

  // Every leaf text of a parsed tree is the literal of one of the tokens:
  // strings come from string tokens and names from identifier tokens.

  /** The string literals among the tokens. */
  function StringTexts(ts: seq<Token>): set<string>
  {
    set i | 0 <= i < |ts| && ts[i].kind == String && ts[i].literal.Some? && ts[i].literal.value.TextLit?
      :: ts[i].literal.value.s
  }

  /** The identifier literals among the tokens. */
  function IdentifierNames(ts: seq<Token>): set<string>
  {
    set i | 0 <= i < |ts| && ts[i].kind == Identifier && ts[i].literal.Some? && ts[i].literal.value.TextLit?
      :: ts[i].literal.value.s
  }

  /** The leaves of `e` are literals of the tokens. */
  predicate LeavesFrom(ts: seq<Token>, e: Expr)
  {
    Texts(e) <= StringTexts(ts) && Names(e) <= IdentifierNames(ts)
  }

  predicate Leaves(ts: seq<Token>, r: Result<Parsed>)
  {
    r.Ok? ==> LeavesFrom(ts, r.value.expr)
  }

  lemma {:induction false} OrLeaves(ts: seq<Token>, pos: nat)
    requires WellFormed(ts) && pos < |ts|
    ensures Leaves(ts, OrExpr(ts, pos))
    decreases |ts| - pos, 4
  {
    AndLeaves(ts, pos);
    var first := AndExpr(ts, pos);
    if first.Ok? {
      OrRestLeaves(ts, first.value.next, first.value.expr);
    }
  }

  lemma {:induction false} OrRestLeaves(ts: seq<Token>, pos: nat, left: Expr)
    requires WellFormed(ts) && pos < |ts| && LeavesFrom(ts, left)
    ensures Leaves(ts, OrRest(ts, pos, left))
    decreases |ts| - pos, 0
  {
    if Check(ts, pos, Or) {
      AndLeaves(ts, pos + 1);
      var right := AndExpr(ts, pos + 1);
      if right.Ok? {
        OrRestLeaves(ts, right.value.next, Bin(OrOp, left, right.value.expr));
      }
    }
  }

  lemma {:induction false} AndLeaves(ts: seq<Token>, pos: nat)
    requires WellFormed(ts) && pos < |ts|
    ensures Leaves(ts, AndExpr(ts, pos))
    decreases |ts| - pos, 3
  {
    CmpLeaves(ts, pos);
    var first := CmpExpr(ts, pos);
    if first.Ok? {
      AndRestLeaves(ts, first.value.next, first.value.expr);
    }
  }

  lemma {:induction false} AndRestLeaves(ts: seq<Token>, pos: nat, left: Expr)
    requires WellFormed(ts) && pos < |ts| && LeavesFrom(ts, left)
    ensures Leaves(ts, AndRest(ts, pos, left))
    decreases |ts| - pos, 0
  {
    if Check(ts, pos, And) {
      CmpLeaves(ts, pos + 1);
      var right := CmpExpr(ts, pos + 1);
      if right.Ok? {
        AndRestLeaves(ts, right.value.next, Bin(AndOp, left, right.value.expr));
      }
    }
  }

  lemma {:induction false} CmpLeaves(ts: seq<Token>, pos: nat)
    requires WellFormed(ts) && pos < |ts|
    ensures Leaves(ts, CmpExpr(ts, pos))
    decreases |ts| - pos, 2
  {
    BetweenLeaves(ts, pos);
    var first := BetweenExpr(ts, pos);
    if first.Ok? {
      CmpRestLeaves(ts, first.value.next, first.value.expr);
    }
  }

  lemma {:induction false} CmpRestLeaves(ts: seq<Token>, pos: nat, left: Expr)
    requires WellFormed(ts) && pos < |ts| && LeavesFrom(ts, left)
    ensures Leaves(ts, CmpRest(ts, pos, left))
    decreases |ts| - pos, 0
  {
    if AtComparison(ts, pos) {
      BetweenLeaves(ts, pos + 1);
      var right := BetweenExpr(ts, pos + 1);
      if right.Ok? {
        var op := Compare(CmpOf(ts[pos].kind).value);
        CmpRestLeaves(ts, right.value.next, Bin(op, left, right.value.expr));
      }
    }
  }

  lemma {:induction false} BetweenLeaves(ts: seq<Token>, pos: nat)
    requires WellFormed(ts) && pos < |ts|
    ensures Leaves(ts, BetweenExpr(ts, pos))
    decreases |ts| - pos, 1
  {
    PrimaryLeaves(ts, pos);
    var subject := Primary(ts, pos);
    if subject.Ok? && Check(ts, subject.value.next, LeftBracket) {
      PrimaryLeaves(ts, subject.value.next + 1);
      var lower := Primary(ts, subject.value.next + 1);
      if lower.Ok? && Check(ts, lower.value.next, Colon) {
        PrimaryLeaves(ts, lower.value.next + 1);
      }
    }
  }

  lemma {:induction false} PrimaryLeaves(ts: seq<Token>, pos: nat)
    requires WellFormed(ts) && pos < |ts|
    ensures Leaves(ts, Primary(ts, pos))
    decreases |ts| - pos, 0
  {
    if Check(ts, pos, LeftParen) {
      OrLeaves(ts, pos + 1);
    }
  }

  /** Every leaf of a parsed tree is the literal of a token of its list. */
  lemma ParseLeaves(ts: seq<Token>)
    requires WellFormed(ts)
    ensures ParseTokens(ts).Ok? ==> LeavesFrom(ts, ParseTokens(ts).value)
  {
    OrLeaves(ts, 0);
  }

  /** The comparison loop continues on exactly the tokens that name a
      comparison operator. */
  lemma ComparisonTokens(ts: seq<Token>, pos: nat)
    requires pos < |ts|
    ensures AtComparison(ts, pos) <==> CmpOf(ts[pos].kind).Some?
  {
  }

  /** On the EOF token no kind matches, so every loop and every optional
      part stops there; elsewhere a kind matches exactly itself. */
  lemma EofMatchesNothing(ts: seq<Token>, pos: nat, k: TokenKind)
    requires pos < |ts|
    ensures ts[pos].kind == Eof ==> !Check(ts, pos, k)
    ensures ts[pos].kind != Eof ==> (Check(ts, pos, k) <==> ts[pos].kind == k)
  {
  }
}
