/** The scanner's output: typed tokens with an optional literal. */
module Tokens {
  import opened Errors
  import opened Numbers

  /** The closed set of token kinds. There is no keyword for ranges: they are
      written with brackets and a colon. */
  datatype TokenKind =
    | Number | String | Identifier
    | And | Or | Equal | Less | Greater
    | LeftParen | RightParen | LeftBracket | RightBracket | Colon
    | Eof

  /** The literal a token carries: the scaled value of a number, or the text
      of a string (without its quotes) or of an identifier. */
  datatype Literal = NumberLit(n: Decimal) | TextLit(s: string)

  datatype Token = Token(kind: TokenKind, literal: Option<Literal>)

  /** The text of an operator or punctuation kind; the other kinds take
      their text from the literal. */
  function Symbol(k: TokenKind): (s: Option<string>)
    ensures s.Some? <==> !(k.Number? || k.String? || k.Identifier? || k.Eof?)
    ensures s.Some? ==> 1 <= |s.value| <= 2
  {
    match k
    case And => Some("&&")
    case Or => Some("||")
    case Equal => Some("==")
    case Less => Some("<")
    case Greater => Some(">")
    case LeftParen => Some("(")
    case RightParen => Some(")")
    case LeftBracket => Some("[")
    case RightBracket => Some("]")
    case Colon => Some(":")
    case _ => None
  }

  /** A punctuation or operator token; its text is determined by its kind. */
  function Punct(k: TokenKind): Token { Token(k, None) }

  /** The sentinel that ends every token list; its literal is the empty text. */
  const EofToken := Token(Eof, Some(TextLit("")))

  /** Number tokens carry a number and string or identifier tokens a text. */
  predicate LiteralFits(t: Token)
  {
    match t.kind
    case Number => t.literal.Some? && t.literal.value.NumberLit?
    case String => t.literal.Some? && t.literal.value.TextLit?
    case Identifier => t.literal.Some? && t.literal.value.TextLit?
    case _ => true
  }

  /** What the parser relies on: the list ends with EOF and every literal has
      the type its kind calls for. */
  predicate WellFormed(ts: seq<Token>)
  {
    |ts| > 0 && ts[|ts| - 1].kind == Eof && forall i | 0 <= i < |ts| :: LiteralFits(ts[i])
  }

  /** No text literal contains a double quote. */
  predicate QuoteFree(ts: seq<Token>)
  {
    forall i | 0 <= i < |ts| :: ts[i].literal.Some? && ts[i].literal.value.TextLit? ==> '"' !in ts[i].literal.value.s
  }
}
