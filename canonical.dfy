/** The serialiser: the tree becomes the nested operator/operands mapping the
    screener service accepts. */
module Canonical {
  import opened Errors
  import opened Numbers
  import opened Ast

  /** The canonical output: a number, a text, or an object with an
      "operator" name and a list of "operands". */
  datatype Canonical =
    | NumberLeaf(n: Decimal)
    | TextLeaf(s: string)
    | Node(operator: string, operands: seq<Canonical>)

  /** The mnemonic of a comparison. */
  function OperatorToString(op: CmpOp): (m: string)
    ensures |m| == 2
  {
    match op
    case Eq => "eq"
    case Lt => "lt"
    case Gt => "gt"
  }

  /** The comparison a mnemonic names, if any. */
  function CmpOpNamed(m: string): (r: Option<CmpOp>)
    ensures r.Some? ==> OperatorToString(r.value) == m
    ensures r.None? ==> m !in {"eq", "lt", "gt"}
  {
    if m == "eq" then Some(Eq)
    else if m == "lt" then Some(Lt)
    else if m == "gt" then Some(Gt)
    else None
  }

  /** Distinct comparisons get distinct mnemonics. */
  lemma OperatorToStringInverse(op: CmpOp)
    ensures CmpOpNamed(OperatorToString(op)) == Some(op)
  {
  }

  /** The operator name of a binary node. */
  function BinOpName(op: BinOp): (m: string)
    ensures m in {"or", "and", "eq", "lt", "gt"}
  {
    match op
    case OrOp => "or"
    case AndOp => "and"
    case Compare(c) => OperatorToString(c)
  }

  /** The binary operator an operator name denotes, if any. */
  function BinOpNamed(m: string): (r: Option<BinOp>)
    ensures r.Some? <==> m in {"or", "and", "eq", "lt", "gt"}
    ensures r.Some? ==> BinOpName(r.value) == m
  {
    if m == "or" then Some(OrOp)
    else if m == "and" then Some(AndOp)
    else
      var c :- CmpOpNamed(m);
      Some(Compare(c))
  }

  lemma BinOpNameInverse(op: BinOp)
    ensures BinOpNamed(BinOpName(op)) == Some(op)
  {
  }

  /** The shape every serialised tree has: binary operators with two
      operands, "btwn" with three, in the order subject, lower, upper. */
  predicate WellShaped(c: Canonical)
    decreases c
  {
    match c
    case NumberLeaf(_) => true
    case TextLeaf(_) => true
    case Node(op, xs) =>
      && ((op in {"or", "and", "eq", "lt", "gt"} && |xs| == 2) || (op == "btwn" && |xs| == 3))
      && forall i | 0 <= i < |xs| :: WellShaped(xs[i])
  }

  /** The quote-stripping slice `s[1:-1]`, for a text that starts with a quote. */
  function Unquote(s: string): (u: string)
    requires |s| > 0
    ensures |s| >= 2 ==> [s[0]] + u + [s[|s| - 1]] == s
    ensures |u| == if |s| >= 2 then |s| - 2 else 0
  {
    if |s| >= 2 then s[1..|s| - 1] else []
  }

  /** A text leaf: its first character is inspected, so the empty text fails. */
  function TextToDict(s: string): (r: Result<Canonical>)
    ensures r.Err? <==> s == []
    ensures r.Err? ==> r.error == EmptyStringIndex
    ensures r.Ok? && s[0] != '"' ==> r.value == TextLeaf(s)
    ensures r.Ok? && s[0] == '"' ==> r.value == TextLeaf(Unquote(s))
  {
    if |s| == 0 then Err(EmptyStringIndex)
    else if s[0] != '"' then Ok(TextLeaf(s))
    else Ok(TextLeaf(Unquote(s)))
  }

  /** The serialiser. It fails exactly when some string or identifier leaf is
      empty, and otherwise yields a well-shaped tree. */
  function ToDict(e: Expr): (r: Result<Canonical>)
    ensures r.Ok? <==> "" !in Texts(e) + Names(e)
    ensures r.Err? ==> r.error == EmptyStringIndex
    ensures r.Ok? ==> WellShaped(r.value)
  {
    match e
    case Num(n) => Ok(NumberLeaf(n))
    case Str(s) => TextToDict(s)
    case Ident(x) => TextToDict(x)
    case Bin(op, l, r) =>
      var a :- ToDict(l);
      var b :- ToDict(r);
      Ok(Node(BinOpName(op), [a, b]))
    case Btwn(s, lo, hi) =>
      var a :- ToDict(s);
      var b :- ToDict(lo);
      var c :- ToDict(hi);
      Ok(Node("btwn", [a, b, c]))
  }

  /** Reference serialiser: every leaf passes through unchanged. */
  function Plain(e: Expr): (c: Canonical)
    ensures WellShaped(c)
  {
    match e
    case Num(n) => NumberLeaf(n)
    case Str(s) => TextLeaf(s)
    case Ident(x) => TextLeaf(x)
    case Bin(op, l, r) => Node(BinOpName(op), [Plain(l), Plain(r)])
    case Btwn(s, lo, hi) => Node("btwn", [Plain(s), Plain(lo), Plain(hi)])
  }

  /** Leaf texts the serialiser passes through: non-empty and not opening
      with a quote. */
  predicate PlainText(s: string) { s != [] && s[0] != '"' }

  /** On trees whose texts are all plain, the serialiser is the reference
      one: numbers and texts pass through unchanged. */
  lemma {:induction false} ToDictPlain(e: Expr)
    requires forall s | s in Texts(e) + Names(e) :: PlainText(s)
    ensures ToDict(e) == Ok(Plain(e))
  {
    match e
    case Num(_) =>
    case Str(s) =>
      assert s in Texts(e);
    case Ident(x) =>
      assert x in Names(e);
    case Bin(_, l, r) =>
      ToDictPlain(l);
      ToDictPlain(r);
    case Btwn(s, lo, hi) =>
      ToDictPlain(s);
      ToDictPlain(lo);
      ToDictPlain(hi);
  }

  /** The tree a canonical value describes, or None when it is not well
      shaped. Strings and identifiers both come back as strings: the
      canonical form does not tell them apart. */
  function FromDict(c: Canonical): (r: Option<Expr>)
    ensures r.Some? <==> WellShaped(c)
    ensures r.Some? ==> Plain(r.value) == c
    decreases c
  {
    match c
    case NumberLeaf(n) => Some(Num(n))
    case TextLeaf(s) => Some(Str(s))
    case Node(op, xs) =>
      if op == "btwn" && |xs| == 3 then
        var s :- FromDict(xs[0]);
        var lo :- FromDict(xs[1]);
        var hi :- FromDict(xs[2]);
        assert xs == [xs[0], xs[1], xs[2]];
        Some(Btwn(s, lo, hi))
      else if BinOpNamed(op).Some? && |xs| == 2 then
        var l :- FromDict(xs[0]);
        var r :- FromDict(xs[1]);
        Some(Bin(BinOpNamed(op).value, l, r))
      else None
  }

  /** The tree with every identifier turned into a string. */
  function Erase(e: Expr): (r: Expr)
    ensures Names(r) == {}
    ensures Texts(r) == Texts(e) + Names(e)
  {
    match e
    case Num(n) => Num(n)
    case Str(s) => Str(s)
    case Ident(x) => Str(x)
    case Bin(op, l, r) => Bin(op, Erase(l), Erase(r))
    case Btwn(s, lo, hi) => Btwn(Erase(s), Erase(lo), Erase(hi))
  }

  /** Reading back a serialised tree recovers it, up to the
      string/identifier distinction. */
  lemma {:induction false} FromDictPlain(e: Expr)
    ensures FromDict(Plain(e)) == Some(Erase(e))
  {
    match e
    case Num(_) =>
    case Str(_) =>
    case Ident(_) =>
    case Bin(op, l, r) =>
      FromDictPlain(l);
      FromDictPlain(r);
      BinOpNameInverse(op);
    case Btwn(s, lo, hi) =>
      FromDictPlain(s);
      FromDictPlain(lo);
      FromDictPlain(hi);
  }
}
