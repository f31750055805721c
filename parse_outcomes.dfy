/** What the parser makes of particular inputs: the precedence and left
    folding of the binary levels on concrete token lists, and the error each
    incomplete construct raises. */
module ParseOutcomes {
  import opened Errors
  import opened Numbers
  import opened Tokens
  import opened Ast
  import opened Grammar
  import opened GrammarFacts

  function IdentToken(x: string): Token { Token(Identifier, Some(TextLit(x))) }

  function IntToken(m: nat): Token { Token(Number, Some(NumberLit(Decimal(m, 0)))) }

  function Int(m: nat): Expr { Num(Decimal(m, 0)) }

  /** `x == m`. */
  function EqTest(x: string, m: nat): Expr { Bin(Compare(Eq), Ident(x), Int(m)) }

  lemma PrintBin(op: BinOp, l: Expr, r: Expr, level: nat)
    requires level <= OpStrength(op)
    ensures Print(Bin(op, l, r), level) == Print(l, OpStrength(op)) + [OpToken(op)] + Print(r, OpStrength(op) + 1)
  {
  }

  lemma PrintEqTest(x: string, m: nat, level: nat)
    requires level <= 2
    ensures Print(EqTest(x, m), level) == [IdentToken(x), Punct(Equal), IntToken(m)]
  {
    PrintBin(Compare(Eq), Ident(x), Int(m), level);
  }

  /** The tokens of `a == 1 && b == 2 || c == 3`. */
  lemma PrintPrecedence()
    ensures Print(Bin(OrOp, Bin(AndOp, EqTest("a", 1), EqTest("b", 2)), EqTest("c", 3)), 0)
         == [IdentToken("a"), Punct(Equal), IntToken(1), Punct(And),
             IdentToken("b"), Punct(Equal), IntToken(2), Punct(Or),
             IdentToken("c"), Punct(Equal), IntToken(3)]
  {
    PrintEqTest("a", 1, 1);
    PrintEqTest("b", 2, 2);
    PrintEqTest("c", 3, 1);
    PrintBin(AndOp, EqTest("a", 1), EqTest("b", 2), 0);
    PrintBin(OrOp, Bin(AndOp, EqTest("a", 1), EqTest("b", 2)), EqTest("c", 3), 0);
  }

  /** `a == 1 && b == 2 || c == 3` is or(and(eq, eq), eq): `&&` binds
      tighter than `||`, and comparisons tighter than both. */
  lemma ParsePrecedence()
    ensures ParseTokens([IdentToken("a"), Punct(Equal), IntToken(1), Punct(And),
                         IdentToken("b"), Punct(Equal), IntToken(2), Punct(Or),
                         IdentToken("c"), Punct(Equal), IntToken(3)] + [EofToken])
         == Ok(Bin(OrOp, Bin(AndOp, EqTest("a", 1), EqTest("b", 2)), EqTest("c", 3)))
  {
    var e := Bin(OrOp, Bin(AndOp, EqTest("a", 1), EqTest("b", 2)), EqTest("c", 3));
    var body := [IdentToken("a"), Punct(Equal), IntToken(1), Punct(And),
                 IdentToken("b"), Punct(Equal), IntToken(2), Punct(Or),
                 IdentToken("c"), Punct(Equal), IntToken(3)];
    PrintPrecedence();
    ParsePrinted(e, body);
  }

  /** Printed tokens with EOF after them parse back to the tree. */
  lemma ParsePrinted(e: Expr, body: seq<Token>)
    requires Print(e, 0) == body
    ensures WellFormed(body + [EofToken]) && ParseTokens(body + [EofToken]) == Ok(e)
  {
    PrintedRoundTrip(e);
  }

  /** `a == 1 == 2` is accepted and folds to the left: eq(eq(a, 1), 2). */
  lemma ParseChainedComparison()
    ensures ParseTokens([IdentToken("a"), Punct(Equal), IntToken(1), Punct(Equal), IntToken(2)] + [EofToken])
         == Ok(Bin(Compare(Eq), EqTest("a", 1), Int(2)))
  {
    var e := Bin(Compare(Eq), EqTest("a", 1), Int(2));
    PrintEqTest("a", 1, 2);
    assert Print(e, 0) == [IdentToken("a"), Punct(Equal), IntToken(1), Punct(Equal), IntToken(2)];
    ParsePrinted(e, Print(e, 0));
  }

  /** `a == 1 )` is read as `a == 1`: the stray `)` after a complete
      expression is never looked at. */
  lemma ParseIgnoresTrailing()
    ensures ParseTokens([IdentToken("a"), Punct(Equal), IntToken(1), Punct(RightParen), EofToken])
         == Ok(EqTest("a", 1))
  {
    var rest := [Punct(RightParen), EofToken];
    PrintEqTest("a", 1, 0);
    assert Print(EqTest("a", 1), 0) + rest
        == [IdentToken("a"), Punct(Equal), IntToken(1), Punct(RightParen), EofToken];
    PrintThenParse(EqTest("a", 1), rest);
  }

  /** An error of the innermost level is the error of the whole parse. */
  lemma BetweenErrorSurfaces(ts: seq<Token>, pos: nat)
    requires WellFormed(ts) && pos < |ts| && BetweenExpr(ts, pos).Err?
    ensures OrExpr(ts, pos) == Err(BetweenExpr(ts, pos).error)
  {
    assert CmpExpr(ts, pos) == Err(BetweenExpr(ts, pos).error);
    assert AndExpr(ts, pos) == Err(BetweenExpr(ts, pos).error);
  }

  /** A list that does not start with a number, string, identifier or `(`
      (an operator, a closing bracket, or the EOF of an empty input) holds
      no expression. */
  lemma NoExpression(ts: seq<Token>)
    requires WellFormed(ts) && ts[0].kind !in {Number, String, Identifier, LeftParen}
    ensures ParseTokens(ts) == Err(ExpectExpression)
  {
    assert Primary(ts, 0) == Err(ExpectExpression);
    BetweenErrorSurfaces(ts, 0);
  }

  /** The empty input scans to the EOF token alone, which is no expression. */
  lemma EmptyInputFails()
    ensures ParseTokens([EofToken]) == Err(ExpectExpression)
  {
    NoExpression([EofToken]);
  }

  /** `( e` followed by anything but `)` is missing its closing parenthesis. */
  lemma UnclosedGroup(e: Expr, rest: seq<Token>)
    requires WellFormed([Punct(LeftParen)] + Print(e, 0) + rest)
    requires |rest| > 0 && Follows(0, rest[0].kind) && rest[0].kind != RightParen
    ensures ParseTokens([Punct(LeftParen)] + Print(e, 0) + rest) == Err(ExpectRightParen)
  {
    var ts := [Punct(LeftParen)] + Print(e, 0) + rest;
    var n := 1 + |Print(e, 0)|;
    assert ts[1..n] == Print(e, 0);
    OccursSlice(ts, 1, Print(e, 0));
    assert ts[n] == rest[0];
    GroupUnclosed(e, ts, n);
  }

  /** A group whose printed body is followed by anything but `)`. */
  lemma GroupUnclosed(e: Expr, ts: seq<Token>, n: nat)
    requires WellFormed(ts) && ts[0] == Punct(LeftParen) && Occurs(ts, 1, Print(e, 0))
    requires n == 1 + |Print(e, 0)| < |ts| && Follows(0, ts[n].kind) && ts[n].kind != RightParen
    ensures ParseTokens(ts) == Err(ExpectRightParen)
  {
    ReadsPrinted(e, ts, 1);
    assert Primary(ts, 0) == Err(ExpectRightParen);
    BetweenErrorSurfaces(ts, 0);
  }

  /** `s[lo` followed by anything but `:` is missing the colon of a range. */
  lemma RangeWithoutColon(s: Expr, lo: Expr, rest: seq<Token>)
    requires WellFormed(Print(s, 4) + [Punct(LeftBracket)] + Print(lo, 4) + rest)
    requires |rest| > 0 && rest[0].kind != Colon
    ensures ParseTokens(Print(s, 4) + [Punct(LeftBracket)] + Print(lo, 4) + rest) == Err(ExpectColon)
  {
    var p := Print(s, 4) + [Punct(LeftBracket)] + Print(lo, 4);
    var ts := p + rest;
    assert ts[0..|p|] == p;
    assert ts[|p|] == rest[0];
    OccursSlice(ts, 0, p);
    ColonMissingAfter(s, lo, ts, |p|);
  }

  lemma ColonMissingAfter(s: Expr, lo: Expr, ts: seq<Token>, end: nat)
    requires WellFormed(ts) && Occurs(ts, 0, Print(s, 4) + [Punct(LeftBracket)] + Print(lo, 4))
    requires end == |Print(s, 4) + [Punct(LeftBracket)] + Print(lo, 4)| < |ts| && ts[end].kind != Colon
    ensures ParseTokens(ts) == Err(ExpectColon)
  {
    var m1 := BracketPrefix(ts, Print(s, 4), Print(lo, 4));
    PartSpan(s, ts, 0, m1);
    PartSpan(lo, ts, m1 + 1, end);
    ColonMissing(ts, 0, s, lo, m1, end);
    BetweenErrorSurfaces(ts, 0);
  }

  lemma ColonMissing(ts: seq<Token>, pos: nat, s: Expr, lo: Expr, m1: nat, m2: nat)
    requires WellFormed(ts) && m2 < |ts|
    requires Span(ts, pos, s, 4) == Some(m1) && m1 < |ts| && ts[m1] == Punct(LeftBracket)
    requires Span(ts, m1 + 1, lo, 4) == Some(m2) && ts[m2].kind != Colon
    ensures BetweenExpr(ts, pos) == Err(ExpectColon)
  {
    PrimaryShown(s, ts, pos, m1);
    PrimaryShown(lo, ts, m1 + 1, m2);
    BetweenNoColon(ts, pos, s, lo, m1, m2);
  }

  lemma BetweenNoColon(ts: seq<Token>, pos: nat, s: Expr, lo: Expr, m1: nat, m2: nat)
    requires WellFormed(ts) && pos < |ts| && m2 < |ts|
    requires Primary(ts, pos) == Ok(Parsed(s, m1)) && ts[m1] == Punct(LeftBracket)
    requires Primary(ts, m1 + 1) == Ok(Parsed(lo, m2)) && ts[m2].kind != Colon
    ensures BetweenExpr(ts, pos) == Err(ExpectColon)
  {
    assert Check(ts, m1, LeftBracket) && !Check(ts, m2, Colon);
  }

  /** `s[lo:hi` followed by anything but `]` is missing the closing bracket. */
  lemma RangeWithoutBracket(s: Expr, lo: Expr, hi: Expr, rest: seq<Token>)
    requires WellFormed(Print(s, 4) + [Punct(LeftBracket)] + Print(lo, 4) + [Punct(Colon)] + Print(hi, 4) + rest)
    requires |rest| > 0 && rest[0].kind != RightBracket
    ensures ParseTokens(Print(s, 4) + [Punct(LeftBracket)] + Print(lo, 4) + [Punct(Colon)] + Print(hi, 4) + rest)
         == Err(ExpectRightBracket)
  {
    var p := Print(s, 4) + [Punct(LeftBracket)] + Print(lo, 4) + [Punct(Colon)] + Print(hi, 4);
    var ts := p + rest;
    assert ts[0..|p|] == p;
    assert ts[|p|] == rest[0];
    OccursSlice(ts, 0, p);
    BracketMissingAfter(s, lo, hi, ts, |p|);
  }

  lemma BracketMissingAfter(s: Expr, lo: Expr, hi: Expr, ts: seq<Token>, end: nat)
    requires WellFormed(ts)
    requires Occurs(ts, 0, Print(s, 4) + [Punct(LeftBracket)] + Print(lo, 4) + [Punct(Colon)] + Print(hi, 4))
    requires end == |Print(s, 4) + [Punct(LeftBracket)] + Print(lo, 4) + [Punct(Colon)] + Print(hi, 4)|
    requires end < |ts| && ts[end].kind != RightBracket
    ensures ParseTokens(ts) == Err(ExpectRightBracket)
  {
    var m1, m2 := RangePrefix(ts, Print(s, 4), Print(lo, 4), Print(hi, 4));
    PartSpan(s, ts, 0, m1);
    PartSpan(lo, ts, m1 + 1, m2);
    PartSpan(hi, ts, m2 + 1, end);
    BracketMissing(ts, 0, s, lo, hi, m1, m2, end);
    BetweenErrorSurfaces(ts, 0);
  }

  /** A part of a range printed at `pos` and ending before `stop` is read
      as a span up to `stop`. */
  lemma PartSpan(e: Expr, ts: seq<Token>, pos: nat, stop: nat)
    requires Occurs(ts, pos, Print(e, 4)) && stop == pos + |Print(e, 4)|
    ensures Span(ts, pos, e, 4) == Some(stop)
  {
    SpanPrint(e, 4, ts, pos);
  }

  /** The position of the bracket in printed tokens `subject[lower`. */
  lemma BracketPrefix(ts: seq<Token>, ps: seq<Token>, plo: seq<Token>) returns (m1: nat)
    requires Occurs(ts, 0, ps + [Punct(LeftBracket)] + plo)
    ensures m1 == |ps| && m1 + 1 + |plo| == |ps + [Punct(LeftBracket)] + plo|
    ensures Occurs(ts, 0, ps) && m1 < |ts| && ts[m1] == Punct(LeftBracket)
    ensures Occurs(ts, m1 + 1, plo)
  {
    m1 := |ps|;
    OccursSplit(ts, 0, ps, Punct(LeftBracket), plo);
  }

  /** The positions of the bracket and the colon in printed range tokens
      that lack their closing bracket. */
  lemma RangePrefix(ts: seq<Token>, ps: seq<Token>, plo: seq<Token>, phi: seq<Token>) returns (m1: nat, m2: nat)
    requires Occurs(ts, 0, ps + [Punct(LeftBracket)] + plo + [Punct(Colon)] + phi)
    ensures m1 == |ps| && m2 == m1 + 1 + |plo| && m2 + 1 + |phi| == |ps + [Punct(LeftBracket)] + plo + [Punct(Colon)] + phi|
    ensures Occurs(ts, 0, ps) && m1 < |ts| && ts[m1] == Punct(LeftBracket)
    ensures Occurs(ts, m1 + 1, plo) && m2 < |ts| && ts[m2] == Punct(Colon)
    ensures Occurs(ts, m2 + 1, phi)
  {
    m1, m2 := |ps|, |ps| + 1 + |plo|;
    OccursSplit(ts, 0, ps + [Punct(LeftBracket)] + plo, Punct(Colon), phi);
    OccursSplit(ts, 0, ps, Punct(LeftBracket), plo);
  }

  lemma BracketMissing(ts: seq<Token>, pos: nat, s: Expr, lo: Expr, hi: Expr, m1: nat, m2: nat, m3: nat)
    requires WellFormed(ts) && m3 < |ts|
    requires Span(ts, pos, s, 4) == Some(m1) && m1 < |ts| && ts[m1] == Punct(LeftBracket)
    requires Span(ts, m1 + 1, lo, 4) == Some(m2) && m2 < |ts| && ts[m2] == Punct(Colon)
    requires Span(ts, m2 + 1, hi, 4) == Some(m3) && ts[m3].kind != RightBracket
    ensures BetweenExpr(ts, pos) == Err(ExpectRightBracket)
  {
    PrimaryShown(s, ts, pos, m1);
    PrimaryShown(lo, ts, m1 + 1, m2);
    PrimaryShown(hi, ts, m2 + 1, m3);
    BetweenNoBracket(ts, pos, s, lo, hi, m1, m2, m3);
  }

  lemma BetweenNoBracket(ts: seq<Token>, pos: nat, s: Expr, lo: Expr, hi: Expr, m1: nat, m2: nat, m3: nat)
    requires WellFormed(ts) && pos < |ts| && m3 < |ts|
    requires Primary(ts, pos) == Ok(Parsed(s, m1)) && ts[m1] == Punct(LeftBracket)
    requires Primary(ts, m1 + 1) == Ok(Parsed(lo, m2)) && ts[m2] == Punct(Colon)
    requires Primary(ts, m2 + 1) == Ok(Parsed(hi, m3)) && ts[m3].kind != RightBracket
    ensures BetweenExpr(ts, pos) == Err(ExpectRightBracket)
  {
    assert Check(ts, m1, LeftBracket) && Check(ts, m2, Colon) && !Check(ts, m3, RightBracket);
  }
}
