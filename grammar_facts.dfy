/** What the grammar means: a printer that writes any tree as tokens, with
    parentheses exactly where precedence and left folding require them, and
    the proof that the parser reads every printed tree back unchanged. */
module GrammarFacts {
  import opened Errors
  import opened Numbers
  import opened Tokens
  import opened Ast
  import opened Grammar

  /** Binding strength of a binary operator: `||` 0, `&&` 1, the
      comparisons 2. */
  function OpStrength(op: BinOp): (s: nat)
    ensures s <= 2
  {
    match op
    case OrOp => 0
    case AndOp => 1
    case Compare(_) => 2
  }

  /** Binding strength of the outermost operator; ranges 3, primaries 4. */
  function Strength(e: Expr): (s: nat)
    ensures s <= 4
    ensures s == 4 <==> (e.Num? || e.Str? || e.Ident?)
  {
    match e
    case Bin(op, _, _) => OpStrength(op)
    case Btwn(_, _, _) => 3
    case _ => 4
  }

  /** The token kind of a comparison. */
  function CmpKind(c: CmpOp): (k: TokenKind)
    ensures CmpOf(k) == Some(c)
  {
    match c
    case Eq => Equal
    case Lt => Less
    case Gt => Greater
  }

  /** The operator token of a binary operator. */
  function OpToken(op: BinOp): Token
  {
    match op
    case OrOp => Punct(Or)
    case AndOp => Punct(And)
    case Compare(c) => Punct(CmpKind(c))
  }

  /** The single token of a primary. */
  function LeafToken(e: Expr): Token
  {
    match e
    case Num(n) => Token(Number, Some(NumberLit(n)))
    case Str(s) => Token(String, Some(TextLit(s)))
    case Ident(x) => Token(Identifier, Some(TextLit(x)))
    case _ => Punct(Eof)
  }

  /** The tokens of a parenthesised expression. */
  function GroupTokens(inner: seq<Token>): seq<Token>
  {
    [Punct(LeftParen)] + inner + [Punct(RightParen)]
  }

  /** The tokens of `subject[lower:upper]` from those of its parts. */
  function RangeTokens(ps: seq<Token>, plo: seq<Token>, phi: seq<Token>): seq<Token>
  {
    ps + [Punct(LeftBracket)] + plo + [Punct(Colon)] + phi + [Punct(RightBracket)]
  }

  /** Tokens that can appear inside an expression: no EOF, fitting literals. */
  predicate Printable(ts: seq<Token>)
  {
    forall i | 0 <= i < |ts| :: ts[i].kind != Eof && LiteralFits(ts[i])
  }

  /** The tokens of `e` in a position that admits expressions of strength
      `level` or more; a weaker `e` is parenthesised. Operands are printed
      so that the parser's left fold rebuilds the same tree: the right
      operand of a binary operator must be strictly stronger than it. */
  function Print(e: Expr, level: nat): (ts: seq<Token>)
    requires level <= 4
    ensures |ts| > 0
    decreases e, if Strength(e) >= level then 1 else 2
  {
    if Strength(e) < level then GroupTokens(Print(e, 0)) else FormTokens(e)
  }

  /** The tokens of the form of `e` itself, without parentheses around it. */
  function FormTokens(e: Expr): (ts: seq<Token>)
    ensures |ts| > 0
    decreases e, 0
  {
    match e
    case Bin(op, l, r) => Print(l, OpStrength(op)) + [OpToken(op)] + Print(r, OpStrength(op) + 1)
    case Btwn(s, lo, hi) => RangeTokens(Print(s, 4), Print(lo, 4), Print(hi, 4))
    case _ => [LeafToken(e)]
  }

  lemma PrintableConcat(a: seq<Token>, b: seq<Token>)
    requires Printable(a) && Printable(b)
    ensures Printable(a + b)
  {
    forall i | 0 <= i < |a + b|
      ensures (a + b)[i].kind != Eof && LiteralFits((a + b)[i])
    {
      if i >= |a| {
        assert (a + b)[i] == b[i - |a|];
      }
    }
  }

  /** Printed tokens hold no EOF and fitting literals. */
  lemma {:induction false} PrintPrintable(e: Expr, level: nat)
    requires level <= 4
    ensures Printable(Print(e, level))
    decreases e, if Strength(e) >= level then 2 else 3
  {
    if Strength(e) < level {
      PrintPrintable(e, 0);
      PrintableConcat([Punct(LeftParen)], Print(e, 0));
      PrintableConcat([Punct(LeftParen)] + Print(e, 0), [Punct(RightParen)]);
    } else {
      FormPrintable(e);
    }
  }

  lemma {:induction false} FormPrintable(e: Expr)
    ensures Printable(FormTokens(e))
    decreases e, 1
  {
    match e
    case Bin(op, l, r) =>
      var k := OpStrength(op);
      PrintPrintable(l, k);
      PrintPrintable(r, k + 1);
      PrintableConcat(Print(l, k), [OpToken(op)]);
      PrintableConcat(Print(l, k) + [OpToken(op)], Print(r, k + 1));
    case Btwn(sub, lo, hi) =>
      var ps, plo, phi := Print(sub, 4), Print(lo, 4), Print(hi, 4);
      PrintPrintable(sub, 4);
      PrintPrintable(lo, 4);
      PrintPrintable(hi, 4);
      var lb, colon, rb := Punct(LeftBracket), Punct(Colon), Punct(RightBracket);
      PrintableConcat(ps, [lb]);
      PrintableConcat(ps + [lb], plo);
      PrintableConcat(ps + [lb] + plo, [colon]);
      PrintableConcat(ps + [lb] + plo + [colon], phi);
      PrintableConcat(ps + [lb] + plo + [colon] + phi, [rb]);
    case _ =>
  }

  /** A token of kind `k` ends an expression parsed at `level`: no loop at
      that level or a stronger one would continue with it. */
  predicate Follows(level: nat, k: TokenKind)
  {
    && (level <= 0 ==> k != Or)
    && (level <= 1 ==> k != And)
    && (level <= 2 ==> k != Equal && k != Less && k != Greater)
    && (level <= 3 ==> k != LeftBracket)
  }

  /** The tokens `p` appear in `ts` from `pos` on. */
  predicate Occurs(ts: seq<Token>, pos: nat, p: seq<Token>)
    decreases |p|
  {
    p == [] || (pos < |ts| && ts[pos] == p[0] && Occurs(ts, pos + 1, p[1..]))
  }

  lemma {:induction false} OccursConcat(ts: seq<Token>, pos: nat, a: seq<Token>, b: seq<Token>)
    requires Occurs(ts, pos, a + b)
    ensures Occurs(ts, pos, a) && Occurs(ts, pos + |a|, b)
    decreases |a|
  {
    if a == [] {
      assert a + b == b;
    } else {
      assert (a + b)[1..] == a[1..] + b;
      OccursConcat(ts, pos + 1, a[1..], b);
    }
  }

  /** A slice equal to `p` is an occurrence of `p`. */
  lemma {:induction false} OccursSlice(ts: seq<Token>, pos: nat, p: seq<Token>)
    requires pos + |p| <= |ts| && ts[pos..pos + |p|] == p
    ensures Occurs(ts, pos, p)
    decreases |p|
  {
    if p != [] {
      assert ts[pos] == ts[pos..pos + |p|][0];
      assert ts[pos + 1..pos + 1 + |p[1..]|] == ts[pos..pos + |p|][1..];
      OccursSlice(ts, pos + 1, p[1..]);
    }
  }

  /** `a`, one token `t`, then `b`, from `pos` on. */
  lemma OccursSplit(ts: seq<Token>, pos: nat, a: seq<Token>, t: Token, b: seq<Token>)
    requires Occurs(ts, pos, a + [t] + b)
    ensures Occurs(ts, pos, a) && pos + |a| < |ts| && ts[pos + |a|] == t
    ensures Occurs(ts, pos + |a| + 1, b)
  {
    OccursConcat(ts, pos, a + [t], b);
    OccursConcat(ts, pos, a, [t]);
  }

  /** Where the tokens of `e`, printed at `level`, end when `ts` holds them
      from `pos` on, or None when it does not: a reader guided by the tree,
      which checks every operator and bracket and skips nothing. */
  function Span(ts: seq<Token>, pos: nat, e: Expr, level: nat): (end: Option<nat>)
    ensures end.Some? ==> pos < end.value <= |ts|
    decreases e, if Strength(e) >= level then 1 else 2
  {
    if Strength(e) < level then
      if pos < |ts| && ts[pos] == Punct(LeftParen) then Then(ts, Span(ts, pos + 1, e, 0), Punct(RightParen))
      else None
    else
      FormSpan(ts, pos, e)
  }

  /** `Span` for the form of `e` itself, without parentheses around it. */
  function FormSpan(ts: seq<Token>, pos: nat, e: Expr): (end: Option<nat>)
    ensures end.Some? ==> pos < end.value <= |ts|
    decreases e, 0
  {
    match e
    case Bin(op, l, r) =>
      var m :- Then(ts, Span(ts, pos, l, OpStrength(op)), OpToken(op));
      Span(ts, m, r, OpStrength(op) + 1)
    case Btwn(s, lo, hi) =>
      var m1 :- Then(ts, Span(ts, pos, s, 4), Punct(LeftBracket));
      var m2 :- Then(ts, Span(ts, m1, lo, 4), Punct(Colon));
      Then(ts, Span(ts, m2, hi, 4), Punct(RightBracket))
    case _ => if pos < |ts| && ts[pos] == LeafToken(e) then Some(pos + 1) else None
  }

  /** The position after token `t`, when `t` follows a part ending at `m`. */
  function Then(ts: seq<Token>, m: Option<nat>, t: Token): (next: Option<nat>)
    ensures next.Some? ==> m.Some? && next.value == m.value + 1 <= |ts|
  {
    if m.Some? && m.value < |ts| && ts[m.value] == t then Some(m.value + 1) else None
  }

  /** Two levels on the same side of a tree's strength read it alike. */
  lemma SpanLevel(e: Expr, a: nat, b: nat, ts: seq<Token>, pos: nat)
    requires Strength(e) >= a <==> Strength(e) >= b
    ensures Span(ts, pos, e, a) == Span(ts, pos, e, b)
  {
  }
  /** Printed tokens found in a list are read back by `Span` to their end. */
  lemma {:induction false} SpanPrint(e: Expr, level: nat, ts: seq<Token>, pos: nat)
    requires level <= 4 && Occurs(ts, pos, Print(e, level))
    ensures Span(ts, pos, e, level) == Some(pos + |Print(e, level)|)
    decreases e, if Strength(e) >= level then 2 else 3
  {
    if Strength(e) < level {
      var inner := Print(e, 0);
      assert Print(e, level) == [] + [Punct(LeftParen)] + (inner + [Punct(RightParen)]);
      OccursSplit(ts, pos, [], Punct(LeftParen), inner + [Punct(RightParen)]);
      assert inner + [Punct(RightParen)] == inner + [Punct(RightParen)] + [];
      OccursSplit(ts, pos + 1, inner, Punct(RightParen), []);
      SpanPrint(e, 0, ts, pos + 1);
      GroupSpan(e, level, ts, pos, pos + 1 + |inner|);
    } else {
      FormSpanPrint(e, ts, pos);
    }
  }

  lemma {:induction false} FormSpanPrint(e: Expr, ts: seq<Token>, pos: nat)
    requires Occurs(ts, pos, FormTokens(e))
    ensures FormSpan(ts, pos, e) == Some(pos + |FormTokens(e)|)
    decreases e, 1
  {
    match e
    case Bin(op, l, r) => BinSpanPrint(op, l, r, ts, pos);
    case Btwn(s, lo, hi) => RangeSpanPrint(s, lo, hi, ts, pos);
    case _ =>
  }

  lemma {:induction false} BinSpanPrint(op: BinOp, l: Expr, r: Expr, ts: seq<Token>, pos: nat)
    requires Occurs(ts, pos, FormTokens(Bin(op, l, r)))
    ensures FormSpan(ts, pos, Bin(op, l, r)) == Some(pos + |FormTokens(Bin(op, l, r))|)
    decreases Bin(op, l, r), 0
  {
    var k := OpStrength(op);
    var pl, pr := Print(l, k), Print(r, k + 1);
    assert FormTokens(Bin(op, l, r)) == pl + [OpToken(op)] + pr;
    OccursSplit(ts, pos, pl, OpToken(op), pr);
    SpanPrint(l, k, ts, pos);
    SpanPrint(r, k + 1, ts, pos + |pl| + 1);
    BinSpan(op, l, r, ts, pos, pos + |pl|, pos + |pl| + 1 + |pr|);
  }

  lemma {:induction false} RangeSpanPrint(s: Expr, lo: Expr, hi: Expr, ts: seq<Token>, pos: nat)
    requires Occurs(ts, pos, FormTokens(Btwn(s, lo, hi)))
    ensures FormSpan(ts, pos, Btwn(s, lo, hi)) == Some(pos + |FormTokens(Btwn(s, lo, hi))|)
    decreases Btwn(s, lo, hi), 0
  {
    var ps, plo, phi := Print(s, 4), Print(lo, 4), Print(hi, 4);
    RangeOccurs(ps, plo, phi, ts, pos);
    var m1 := pos + |ps|;
    var m2 := m1 + 1 + |plo|;
    SpanPrint(s, 4, ts, pos);
    SpanPrint(lo, 4, ts, m1 + 1);
    SpanPrint(hi, 4, ts, m2 + 1);
    RangeSpan(s, lo, hi, ts, pos, m1, m2, m2 + 1 + |phi|);
  }

  /** Where the parts and the punctuation of printed range tokens lie. */
  lemma RangeOccurs(ps: seq<Token>, plo: seq<Token>, phi: seq<Token>, ts: seq<Token>, pos: nat)
    requires Occurs(ts, pos, RangeTokens(ps, plo, phi))
    ensures Occurs(ts, pos, ps) && pos + |ps| < |ts| && ts[pos + |ps|] == Punct(LeftBracket)
    ensures var m1 := pos + |ps|;
      Occurs(ts, m1 + 1, plo) && m1 + 1 + |plo| < |ts| && ts[m1 + 1 + |plo|] == Punct(Colon)
    ensures var m2 := pos + |ps| + 1 + |plo|;
      Occurs(ts, m2 + 1, phi) && m2 + 1 + |phi| < |ts| && ts[m2 + 1 + |phi|] == Punct(RightBracket)
  {
    var lb, colon, rb := Punct(LeftBracket), Punct(Colon), Punct(RightBracket);
    assert RangeTokens(ps, plo, phi) == (ps + [lb] + plo + [colon] + phi) + [rb] + [];
    OccursSplit(ts, pos, ps + [lb] + plo + [colon] + phi, rb, []);
    OccursSplit(ts, pos, ps + [lb] + plo, colon, phi);
    OccursSplit(ts, pos, ps, lb, plo);
  }

  // How `Span` reads each form, given where its parts end.

  lemma GroupSpan(e: Expr, level: nat, ts: seq<Token>, pos: nat, close: nat)
    requires Strength(e) < level && pos < |ts| && ts[pos] == Punct(LeftParen)
    requires Span(ts, pos + 1, e, 0) == Some(close) && close < |ts| && ts[close] == Punct(RightParen)
    ensures Span(ts, pos, e, level) == Some(close + 1)
  {
  }

  lemma BinSpan(op: BinOp, l: Expr, r: Expr, ts: seq<Token>, pos: nat, m: nat, end: nat)
    requires Span(ts, pos, l, OpStrength(op)) == Some(m) && m < |ts| && ts[m] == OpToken(op)
    requires Span(ts, m + 1, r, OpStrength(op) + 1) == Some(end)
    ensures FormSpan(ts, pos, Bin(op, l, r)) == Some(end)
  {
  }

  lemma RangeSpan(s: Expr, lo: Expr, hi: Expr, ts: seq<Token>, pos: nat, m1: nat, m2: nat, m3: nat)
    requires Span(ts, pos, s, 4) == Some(m1) && m1 < |ts| && ts[m1] == Punct(LeftBracket)
    requires Span(ts, m1 + 1, lo, 4) == Some(m2) && m2 < |ts| && ts[m2] == Punct(Colon)
    requires Span(ts, m2 + 1, hi, 4) == Some(m3) && m3 < |ts| && ts[m3] == Punct(RightBracket)
    ensures FormSpan(ts, pos, Btwn(s, lo, hi)) == Some(m3 + 1)
  {
  }

  // One step of each grammar function, stated on its own so that the
  // lemmas below never unfold more than one function at a time.

  lemma PrimaryLeaf(ts: seq<Token>, pos: nat, e: Expr)
    requires WellFormed(ts) && pos < |ts| && Strength(e) == 4 && ts[pos] == LeafToken(e)
    ensures Primary(ts, pos) == Ok(Parsed(e, pos + 1))
  {
  }

  lemma PrimaryGroup(ts: seq<Token>, pos: nat, e: Expr, close: nat)
    requires WellFormed(ts) && pos < close < |ts| && ts[pos] == Punct(LeftParen)
    requires OrExpr(ts, pos + 1) == Ok(Parsed(e, close)) && ts[close] == Punct(RightParen)
    ensures Primary(ts, pos) == Ok(Parsed(e, close + 1))
  {
  }

  lemma BetweenPlain(ts: seq<Token>, pos: nat, e: Expr, end: nat)
    requires WellFormed(ts) && pos < |ts| && end < |ts| && ts[end].kind != LeftBracket
    requires Primary(ts, pos) == Ok(Parsed(e, end))
    ensures BetweenExpr(ts, pos) == Ok(Parsed(e, end))
  {
  }

  lemma BetweenRange(ts: seq<Token>, pos: nat, s: Expr, lo: Expr, hi: Expr, m1: nat, m2: nat, m3: nat)
    requires WellFormed(ts) && pos < |ts| && m3 < |ts|
    requires Primary(ts, pos) == Ok(Parsed(s, m1)) && ts[m1] == Punct(LeftBracket)
    requires Primary(ts, m1 + 1) == Ok(Parsed(lo, m2)) && ts[m2] == Punct(Colon)
    requires Primary(ts, m2 + 1) == Ok(Parsed(hi, m3)) && ts[m3] == Punct(RightBracket)
    ensures BetweenExpr(ts, pos) == Ok(Parsed(Btwn(s, lo, hi), m3 + 1))
  {
    assert Check(ts, m1, LeftBracket) && Check(ts, m2, Colon) && Check(ts, m3, RightBracket);
  }

  lemma CmpEnter(ts: seq<Token>, pos: nat, e: Expr, end: nat)
    requires WellFormed(ts) && pos < |ts| && BetweenExpr(ts, pos) == Ok(Parsed(e, end))
    ensures CmpExpr(ts, pos) == CmpRest(ts, end, e)
  {
  }

  lemma CmpStep(ts: seq<Token>, m: nat, c: CmpOp, l: Expr, r: Expr, end: nat)
    requires WellFormed(ts) && m < |ts| && ts[m] == OpToken(Compare(c))
    requires BetweenExpr(ts, m + 1) == Ok(Parsed(r, end))
    ensures CmpRest(ts, m, l) == CmpRest(ts, end, Bin(Compare(c), l, r))
  {
  }

  lemma CmpStop(ts: seq<Token>, end: nat, e: Expr)
    requires WellFormed(ts) && end < |ts| && Follows(2, ts[end].kind)
    ensures CmpRest(ts, end, e) == Ok(Parsed(e, end))
  {
  }

  lemma AndEnter(ts: seq<Token>, pos: nat, e: Expr, end: nat)
    requires WellFormed(ts) && pos < |ts| && CmpExpr(ts, pos) == Ok(Parsed(e, end))
    ensures AndExpr(ts, pos) == AndRest(ts, end, e)
  {
  }

  lemma AndStep(ts: seq<Token>, m: nat, l: Expr, r: Expr, end: nat)
    requires WellFormed(ts) && m < |ts| && ts[m] == OpToken(AndOp)
    requires CmpExpr(ts, m + 1) == Ok(Parsed(r, end))
    ensures AndRest(ts, m, l) == AndRest(ts, end, Bin(AndOp, l, r))
  {
  }

  lemma AndStop(ts: seq<Token>, end: nat, e: Expr)
    requires WellFormed(ts) && end < |ts| && Follows(1, ts[end].kind)
    ensures AndRest(ts, end, e) == Ok(Parsed(e, end))
  {
  }

  lemma OrEnter(ts: seq<Token>, pos: nat, e: Expr, end: nat)
    requires WellFormed(ts) && pos < |ts| && AndExpr(ts, pos) == Ok(Parsed(e, end))
    ensures OrExpr(ts, pos) == OrRest(ts, end, e)
  {
  }

  lemma OrStep(ts: seq<Token>, m: nat, l: Expr, r: Expr, end: nat)
    requires WellFormed(ts) && m < |ts| && ts[m] == OpToken(OrOp)
    requires AndExpr(ts, m + 1) == Ok(Parsed(r, end))
    ensures OrRest(ts, m, l) == OrRest(ts, end, Bin(OrOp, l, r))
  {
  }

  lemma OrStop(ts: seq<Token>, end: nat, e: Expr)
    requires WellFormed(ts) && end < |ts| && Follows(0, ts[end].kind)
    ensures OrRest(ts, end, e) == Ok(Parsed(e, end))
  {
  }

  /** Decreasing measure shared by the mutually recursive lemmas below: for
      the same tree, a level the tree is strong enough for comes before the
      stronger levels, and a level that needs parentheses comes before the
      looser ones. */
  function Rank(level: nat, e: Expr): nat
    requires level <= 4
  {
    if Strength(e) >= level then 5 - level else 10 - level
  }

  // Each lemma below reads a tree that `Span` finds between `pos` and `end`
  // back at one grammar level; the precondition on the token at `end` says
  // the level's loop stops there.

  lemma {:induction false} PrimaryShown(e: Expr, ts: seq<Token>, pos: nat, end: nat)
    requires WellFormed(ts) && Span(ts, pos, e, 4) == Some(end) && end < |ts|
    ensures Primary(ts, pos) == Ok(Parsed(e, end))
    decreases e, 3 * Rank(4, e) + 1
  {
    if Strength(e) < 4 {
      GroupShown(e, ts, pos, end);
    } else {
      PrimaryLeaf(ts, pos, e);
    }
  }

  lemma {:induction false} GroupShown(e: Expr, ts: seq<Token>, pos: nat, end: nat)
    requires Strength(e) < 4 && WellFormed(ts) && Span(ts, pos, e, 4) == Some(end) && end < |ts|
    ensures Primary(ts, pos) == Ok(Parsed(e, end))
    decreases e, 3 * Rank(4, e)
  {
    var close := end - 1;
    assert Span(ts, pos + 1, e, 0) == Some(close);
    OrShown(e, ts, pos + 1, close);
    OrStop(ts, close, e);
    PrimaryGroup(ts, pos, e, close);
  }

  lemma {:induction false} BetweenShown(e: Expr, ts: seq<Token>, pos: nat, end: nat)
    requires WellFormed(ts) && Span(ts, pos, e, 3) == Some(end) && end < |ts|
    requires Follows(3, ts[end].kind)
    ensures BetweenExpr(ts, pos) == Ok(Parsed(e, end))
    decreases e, 3 * Rank(3, e) + 1
  {
    if e.Btwn? {
      RangeShown(e.subject, e.lower, e.upper, ts, pos, end);
    } else {
      SpanLevel(e, 3, 4, ts, pos);
      PrimaryShown(e, ts, pos, end);
      BetweenPlain(ts, pos, e, end);
    }
  }

  lemma {:induction false} RangeShown(s: Expr, lo: Expr, hi: Expr, ts: seq<Token>, pos: nat, end: nat)
    requires WellFormed(ts) && FormSpan(ts, pos, Btwn(s, lo, hi)) == Some(end) && end < |ts|
    ensures BetweenExpr(ts, pos) == Ok(Parsed(Btwn(s, lo, hi), end))
    decreases Btwn(s, lo, hi), 1
  {
    var m1, m2 := RangeParts(s, lo, hi, ts, pos, end);
    RangeRead(s, lo, hi, ts, pos, m1, m2, end - 1);
  }

  lemma {:induction false} RangeRead(s: Expr, lo: Expr, hi: Expr, ts: seq<Token>, pos: nat, m1: nat, m2: nat, m3: nat)
    requires WellFormed(ts) && m3 < |ts|
    requires Span(ts, pos, s, 4) == Some(m1) && m1 < |ts| && ts[m1] == Punct(LeftBracket)
    requires Span(ts, m1 + 1, lo, 4) == Some(m2) && m2 < |ts| && ts[m2] == Punct(Colon)
    requires Span(ts, m2 + 1, hi, 4) == Some(m3) && ts[m3] == Punct(RightBracket)
    ensures BetweenExpr(ts, pos) == Ok(Parsed(Btwn(s, lo, hi), m3 + 1))
    decreases Btwn(s, lo, hi), 0
  {
    PrimaryShown(s, ts, pos, m1);
    PrimaryShown(lo, ts, m1 + 1, m2);
    PrimaryShown(hi, ts, m2 + 1, m3);
    BetweenRange(ts, pos, s, lo, hi, m1, m2, m3);
  }

  /** Where the brackets and the colon of a range found by `FormSpan` are. */
  lemma RangeParts(s: Expr, lo: Expr, hi: Expr, ts: seq<Token>, pos: nat, end: nat) returns (m1: nat, m2: nat)
    requires FormSpan(ts, pos, Btwn(s, lo, hi)) == Some(end)
    ensures Span(ts, pos, s, 4) == Some(m1) && m1 < |ts| && ts[m1] == Punct(LeftBracket)
    ensures Span(ts, m1 + 1, lo, 4) == Some(m2) && m2 < |ts| && ts[m2] == Punct(Colon)
    ensures 0 < end && Span(ts, m2 + 1, hi, 4) == Some(end - 1) && ts[end - 1] == Punct(RightBracket)
  {
    m1 := Span(ts, pos, s, 4).value;
    m2 := Span(ts, m1 + 1, lo, 4).value;
  }

  lemma {:induction false} CmpShown(e: Expr, ts: seq<Token>, pos: nat, end: nat)
    requires WellFormed(ts) && Span(ts, pos, e, 2) == Some(end) && end < |ts|
    requires Follows(3, ts[end].kind)
    ensures CmpExpr(ts, pos) == CmpRest(ts, end, e)
    decreases e, 3 * Rank(2, e)
  {
    match e
    case Bin(Compare(c), l, r) =>
      CmpChainShown(c, l, r, ts, pos, Span(ts, pos, l, 2).value, end);
    case _ =>
      SpanLevel(e, 2, 3, ts, pos);
      BetweenShown(e, ts, pos, end);
      CmpEnter(ts, pos, e, end);
  }

  lemma {:induction false} CmpChainShown(c: CmpOp, l: Expr, r: Expr, ts: seq<Token>, pos: nat, m: nat, end: nat)
    requires WellFormed(ts) && end < |ts| && Follows(3, ts[end].kind)
    requires Span(ts, pos, l, 2) == Some(m) && m < |ts| && ts[m] == OpToken(Compare(c))
    requires Span(ts, m + 1, r, 3) == Some(end)
    ensures CmpExpr(ts, pos) == CmpRest(ts, end, Bin(Compare(c), l, r))
    decreases Bin(Compare(c), l, r), 0
  {
    CmpShown(l, ts, pos, m);
    BetweenShown(r, ts, m + 1, end);
    CmpStep(ts, m, c, l, r, end);
  }

  lemma {:induction false} CmpFull(e: Expr, ts: seq<Token>, pos: nat, end: nat)
    requires WellFormed(ts) && Span(ts, pos, e, 2) == Some(end) && end < |ts|
    requires Follows(2, ts[end].kind)
    ensures CmpExpr(ts, pos) == Ok(Parsed(e, end))
    decreases e, 3 * Rank(2, e) + 1
  {
    CmpShown(e, ts, pos, end);
    CmpStop(ts, end, e);
  }

  lemma {:induction false} AndShown(e: Expr, ts: seq<Token>, pos: nat, end: nat)
    requires WellFormed(ts) && Span(ts, pos, e, 1) == Some(end) && end < |ts|
    requires Follows(2, ts[end].kind)
    ensures AndExpr(ts, pos) == AndRest(ts, end, e)
    decreases e, 3 * Rank(1, e)
  {
    match e
    case Bin(AndOp, l, r) =>
      AndChainShown(l, r, ts, pos, Span(ts, pos, l, 1).value, end);
    case _ =>
      SpanLevel(e, 1, 2, ts, pos);
      CmpFull(e, ts, pos, end);
      AndEnter(ts, pos, e, end);
  }

  lemma {:induction false} AndChainShown(l: Expr, r: Expr, ts: seq<Token>, pos: nat, m: nat, end: nat)
    requires WellFormed(ts) && end < |ts| && Follows(2, ts[end].kind)
    requires Span(ts, pos, l, 1) == Some(m) && m < |ts| && ts[m] == OpToken(AndOp)
    requires Span(ts, m + 1, r, 2) == Some(end)
    ensures AndExpr(ts, pos) == AndRest(ts, end, Bin(AndOp, l, r))
    decreases Bin(AndOp, l, r), 0
  {
    AndShown(l, ts, pos, m);
    CmpFull(r, ts, m + 1, end);
    AndStep(ts, m, l, r, end);
  }

  lemma {:induction false} AndFull(e: Expr, ts: seq<Token>, pos: nat, end: nat)
    requires WellFormed(ts) && Span(ts, pos, e, 1) == Some(end) && end < |ts|
    requires Follows(1, ts[end].kind)
    ensures AndExpr(ts, pos) == Ok(Parsed(e, end))
    decreases e, 3 * Rank(1, e) + 1
  {
    AndShown(e, ts, pos, end);
    AndStop(ts, end, e);
  }

  lemma {:induction false} OrShown(e: Expr, ts: seq<Token>, pos: nat, end: nat)
    requires WellFormed(ts) && Span(ts, pos, e, 0) == Some(end) && end < |ts|
    requires Follows(1, ts[end].kind)
    ensures OrExpr(ts, pos) == OrRest(ts, end, e)
    decreases e, 3 * Rank(0, e)
  {
    match e
    case Bin(OrOp, l, r) =>
      OrChainShown(l, r, ts, pos, Span(ts, pos, l, 0).value, end);
    case _ =>
      SpanLevel(e, 0, 1, ts, pos);
      AndFull(e, ts, pos, end);
      OrEnter(ts, pos, e, end);
  }

  lemma {:induction false} OrChainShown(l: Expr, r: Expr, ts: seq<Token>, pos: nat, m: nat, end: nat)
    requires WellFormed(ts) && end < |ts| && Follows(1, ts[end].kind)
    requires Span(ts, pos, l, 0) == Some(m) && m < |ts| && ts[m] == OpToken(OrOp)
    requires Span(ts, m + 1, r, 1) == Some(end)
    ensures OrExpr(ts, pos) == OrRest(ts, end, Bin(OrOp, l, r))
    decreases Bin(OrOp, l, r), 0
  {
    OrShown(l, ts, pos, m);
    AndFull(r, ts, m + 1, end);
    OrStep(ts, m, l, r, end);
  }

  /** A printed tree found at `pos` and followed by a token that no loop
      continues with is read back by `or_expr`, which stops right after it. */
  lemma ReadsPrinted(e: Expr, ts: seq<Token>, pos: nat)
    requires WellFormed(ts) && Occurs(ts, pos, Print(e, 0))
    requires pos + |Print(e, 0)| < |ts| && Follows(0, ts[pos + |Print(e, 0)|].kind)
    ensures OrExpr(ts, pos) == Ok(Parsed(e, pos + |Print(e, 0)|))
  {
    var n := pos + |Print(e, 0)|;
    SpanPrint(e, 0, ts, pos);
    OrShown(e, ts, pos, n);
    OrStop(ts, n, e);
  }

  /** The parser reads a printed tree back, whatever follows it, provided
      the next token cannot continue it: trailing tokens are ignored. */
  lemma PrintThenParse(e: Expr, rest: seq<Token>)
    requires WellFormed(Print(e, 0) + rest)
    requires |rest| > 0 && Follows(0, rest[0].kind)
    ensures ParseTokens(Print(e, 0) + rest) == Ok(e)
  {
    var ts := Print(e, 0) + rest;
    var n := |Print(e, 0)|;
    assert ts[0..n] == Print(e, 0);
    OccursSlice(ts, 0, Print(e, 0));
    assert ts[n] == rest[0];
    ReadsPrinted(e, ts, 0);
  }

  /** The round trip for a complete token list. */
  lemma PrintedRoundTrip(e: Expr)
    ensures WellFormed(Print(e, 0) + [EofToken])
    ensures ParseTokens(Print(e, 0) + [EofToken]) == Ok(e)
  {
    var ts := Print(e, 0) + [EofToken];
    PrintPrintable(e, 0);
    forall i | 0 <= i < |ts|
      ensures LiteralFits(ts[i])
    {
      if i < |Print(e, 0)| {
        assert ts[i] == Print(e, 0)[i];
      }
    }
    PrintThenParse(e, [EofToken]);
  }
}
