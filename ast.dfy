/** The tree the parser builds. */
module Ast {
  import opened Numbers

  /** The three comparison operators. */
  datatype CmpOp = Eq | Lt | Gt

  /** Binary operators: the two connectives and the comparisons. */
  datatype BinOp = OrOp | AndOp | Compare(cmp: CmpOp)

  /** A filter expression. Strings and identifiers are kept apart here,
      although both end up as plain text in the canonical form. */
  datatype Expr =
    | Num(n: Decimal)
    | Str(s: string)
    | Ident(name: string)
    | Bin(op: BinOp, left: Expr, right: Expr)
    | Btwn(subject: Expr, lower: Expr, upper: Expr)

  /** The texts of the string leaves of `e`. */
  function Texts(e: Expr): set<string>
  {
    match e
    case Num(_) => {}
    case Str(s) => {s}
    case Ident(_) => {}
    case Bin(_, l, r) => Texts(l) + Texts(r)
    case Btwn(s, lo, hi) => Texts(s) + Texts(lo) + Texts(hi)
  }

  /** The names of the identifier leaves of `e`. */
  function Names(e: Expr): set<string>
  {
    match e
    case Num(_) => {}
    case Str(_) => {}
    case Ident(x) => {x}
    case Bin(_, l, r) => Names(l) + Names(r)
    case Btwn(s, lo, hi) => Names(s) + Names(lo) + Names(hi)
  }
}
