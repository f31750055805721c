/** The entry point: text in, canonical filter out. */
module ScreenerExpr {
  import opened Errors
  import opened Tokens
  import opened Ast
  import opened Lexer
  import opened Grammar
  import opened Canonical
  import Parsing

  /** What compiling `text` yields: the scanner's error, the parser's error,
      the serialiser's error, or the canonical form of the parsed tree. */
  function Compile(text: string): (r: Result<Canonical>)
    ensures r.Ok? ==> WellShaped(r.value) && FromDict(r.value).Some?
  {
    var ts :- Scan(text);
    var e :- ParseTokens(ts);
    ToDict(e)
  }

  /** Scan the text, parse the tokens from the first one, serialise the tree. */
  method ParseScreenerExpr(text: string) returns (r: Result<Canonical>)
    ensures r == Compile(text)
  {
    var scanner := new Scanner(text);
    var tokens := scanner.ScanTokens();
    if tokens.Err? {
      return Err(tokens.error);
    }
    var parser := new Parsing.Parser(tokens.value);
    r := parser.Parse();
  }

  /** Once scanning and parsing succeed, the only way left to fail is an
      empty string or identifier; otherwise the output is the reference
      serialisation, so the quote-stripping branch of the serialiser never
      fires on what the scanner produces. */
  lemma CompileReference(text: string, ts: seq<Token>, e: Expr)
    requires Scan(text) == Ok(ts) && ParseTokens(ts) == Ok(e)
    ensures Compile(text) == if "" in Texts(e) + Names(e) then Err(EmptyStringIndex) else Ok(Plain(e))
  {
    if "" !in Texts(e) + Names(e) {
      ParseLeaves(ts);
      forall s | s in Texts(e) + Names(e) ensures PlainText(s) {
        LeafIsQuoteFree(ts, s);
      }
      ToDictPlain(e);
    }
  }

  /** Every string or identifier literal of scanned tokens is free of quotes. */
  lemma LeafIsQuoteFree(ts: seq<Token>, s: string)
    requires QuoteFree(ts) && s in StringTexts(ts) + IdentifierNames(ts)
    ensures '"' !in s
  {
    var i :| 0 <= i < |ts| && ts[i].literal.Some? && ts[i].literal.value.TextLit? && ts[i].literal.value.s == s;
  }

  /** Reading the output back gives the parsed tree, with identifiers
      turned into strings. */
  lemma CompileReadBack(text: string, ts: seq<Token>, e: Expr)
    requires Scan(text) == Ok(ts) && ParseTokens(ts) == Ok(e) && Compile(text).Ok?
    ensures FromDict(Compile(text).value) == Some(Erase(e))
  {
    CompileReference(text, ts, e);
    FromDictPlain(e);
  }
}
