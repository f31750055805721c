/** The scanner: turns the text of a filter expression into tokens.

    The functions below say, position by position, which lexeme the scanner
    reads; the `Scanner` class performs the same scan with a cursor and loops,
    and each of its methods is proved to agree with these functions. */
module Lexer {
  import opened Errors
  import opened Numbers
  import opened Tokens

  // ---------------------------------------------------------------------
  // Character classes (ASCII)
  // ---------------------------------------------------------------------

  /** White space: blank, the controls TAB to CR, and the separators 0x1C-0x1F. */
  predicate IsSpace(c: char)
  {
    c == ' ' || 9 <= c as int <= 13 || 28 <= c as int <= 31
  }

  predicate IsAlpha(c: char) { 'a' <= c <= 'z' || 'A' <= c <= 'Z' }

  /** Characters that continue an identifier: letters, digits and underscore. */
  predicate IsWordChar(c: char) { IsAlpha(c) || IsDigit(c) || c == '_' }

  predicate IsNotQuote(c: char) { c != '"' }

  function AsciiUpper(c: char): (u: char)
    ensures 'a' <= c <= 'z' ==> 'A' <= u <= 'Z'
    ensures !('a' <= c <= 'z') ==> u == c
  {
    if 'a' <= c <= 'z' then (c as int - 32) as char else c
  }

  /** A magnitude suffix directly after a number: K, M, B or T in either case. */
  predicate IsScaleSuffix(c: char)
    ensures IsScaleSuffix(c) <==> c in "kKmMbBtT"
  {
    AsciiUpper(c) in "KMBT"
  }

  /** The power of ten a suffix multiplies by. */
  function SuffixExponent(c: char): (e: nat)
    requires IsScaleSuffix(c)
    ensures e in {3, 6, 9, 12}
    ensures e == 3 <==> c in "kK"
    ensures e == 6 <==> c in "mM"
    ensures e == 9 <==> c in "bB"
    ensures e == 12 <==> c in "tT"
  {
    match AsciiUpper(c)
    case 'K' => 3
    case 'M' => 6
    case 'B' => 9
    case _ => 12
  }

  // ---------------------------------------------------------------------
  // Lexemes
  // ---------------------------------------------------------------------

  /** End of the longest run of characters satisfying `p` that starts at `pos`. */
  function RunEnd(text: string, pos: nat, p: char -> bool): (e: nat)
    requires pos <= |text|
    ensures pos <= e <= |text|
    ensures forall k | pos <= k < e :: p(text[k])
    ensures e < |text| ==> !p(text[e])
    decreases |text| - pos
  {
    if pos < |text| && p(text[pos]) then RunEnd(text, pos + 1, p) else pos
  }

  /** `s` occurs in `text` at `pos`. */
  predicate StartsWith(text: string, pos: nat, s: string)
  {
    pos + |s| <= |text| && text[pos..pos + |s|] == s
  }

  /** A token together with the position just after its lexeme. */
  datatype Lexeme = Lexeme(token: Token, next: nat)

  /** The run of digits and dots at `pos` is a numeral. */
  lemma RunIsNumeral(text: string, pos: nat)
    requires pos <= |text|
    ensures IsNumeral(text[pos..RunEnd(text, pos, IsNumeralChar)])
  {
    var e := RunEnd(text, pos, IsNumeralChar);
    forall k | 0 <= k < e - pos ensures IsNumeralChar(text[pos..e][k]) {
      assert text[pos..e][k] == text[pos + k];
    }
  }

  /** A number: a run of digits and dots, read as a decimal, optionally
      followed by one magnitude suffix that scales it. */
  function NumberAt(text: string, pos: nat): (r: Result<Lexeme>)
    requires pos < |text| && IsNumeralChar(text[pos])
    ensures r.Ok? ==> pos < r.value.next <= |text|
    ensures r.Ok? ==> r.value.token.kind == Number && r.value.token.literal.Some?
                      && r.value.token.literal.value.NumberLit?
    ensures r.Ok? ==>
      r.value.next == if RunEnd(text, pos, IsNumeralChar) < |text| && IsScaleSuffix(text[RunEnd(text, pos, IsNumeralChar)])
                      then RunEnd(text, pos, IsNumeralChar) + 1 else RunEnd(text, pos, IsNumeralChar)
    ensures r.Err? ==> r.error == InvalidNumber(text[pos..RunEnd(text, pos, IsNumeralChar)])
  {
    var e := RunEnd(text, pos, IsNumeralChar);
    var numeral := text[pos..e];
    RunIsNumeral(text, pos);
    match ParseNumeral(numeral)
    case None => Err(InvalidNumber(numeral))
    case Some(d) =>
      if e < |text| && IsScaleSuffix(text[e]) then
        Ok(Lexeme(Token(Number, Some(NumberLit(Scale(d, SuffixExponent(text[e]))))), e + 1))
      else
        Ok(Lexeme(Token(Number, Some(NumberLit(d))), e))
  }

  /** A string: everything between the opening quote at `pos` and the next quote. */
  function StringAt(text: string, pos: nat): (r: Result<Lexeme>)
    requires pos < |text| && text[pos] == '"'
    ensures r.Ok? <==> '"' in text[pos + 1..]
    ensures r.Err? ==> r.error == UnterminatedString
    ensures r.Ok? ==>
      var close := r.value.next - 1;
      pos < close < |text| && text[close] == '"' && '"' !in text[pos + 1..close]
      && r.value.token == Token(String, Some(TextLit(text[pos + 1..close])))
  {
    var close := RunEnd(text, pos + 1, IsNotQuote);
    var tail := text[pos + 1..];
    assert forall k | 0 <= k < |tail| :: tail[k] == text[pos + 1 + k];
    if close == |text| then
      Err(UnterminatedString)
    else
      var body := text[pos + 1..close];
      assert forall k | 0 <= k < |body| :: body[k] == text[pos + 1 + k];
      assert tail[close - (pos + 1)] == '"';
      Ok(Lexeme(Token(String, Some(TextLit(body))), close + 1))
  }

  /** An identifier: a letter followed by letters, digits and underscores. */
  function IdentifierAt(text: string, pos: nat): (r: Lexeme)
    requires pos < |text| && IsAlpha(text[pos])
    ensures pos < r.next <= |text|
    ensures r.token == Token(Identifier, Some(TextLit(text[pos..r.next])))
    ensures forall k | pos <= k < r.next :: IsWordChar(text[k])
    ensures r.next < |text| ==> !IsWordChar(text[r.next])
  {
    var e := RunEnd(text, pos, IsWordChar);
    Lexeme(Token(Identifier, Some(TextLit(text[pos..e]))), e)
  }

  /** The lexeme that starts at `pos`, which does not hold white space. The
      alternatives are tried in the scanner's order. */
  function LexemeAt(text: string, pos: nat): (r: Result<Lexeme>)
    requires pos < |text|
    ensures r.Ok? ==> pos < r.value.next <= |text|
    ensures r.Ok? ==> r.value.token.kind != Eof && LiteralFits(r.value.token)
    ensures r.Ok? && r.value.token.literal.Some? && r.value.token.literal.value.TextLit? ==>
              '"' !in r.value.token.literal.value.s
    ensures r.Ok? && r.value.token.literal.None? ==>
              Symbol(r.value.token.kind).Some?
              && text[pos..r.value.next] == Symbol(r.value.token.kind).value
    ensures r.Err? && !IsNumeralChar(text[pos]) && text[pos] != '"' ==>
              r.error == UnexpectedCharacter(text[pos])
  {
    var c := text[pos];
    if IsNumeralChar(c) then NumberAt(text, pos)
    else if c == '"' then StringAt(text, pos)
    else if IsAlpha(c) then
      var l := IdentifierAt(text, pos);
      assert forall k | 0 <= k < l.next - pos :: text[pos..l.next][k] == text[pos + k];
      Ok(l)
    else if StartsWith(text, pos, "&&") then Ok(Lexeme(Punct(And), pos + 2))
    else if StartsWith(text, pos, "||") then Ok(Lexeme(Punct(Or), pos + 2))
    else if c == '[' then Ok(Lexeme(Punct(LeftBracket), pos + 1))
    else if c == ']' then Ok(Lexeme(Punct(RightBracket), pos + 1))
    else if c == ':' then Ok(Lexeme(Punct(Colon), pos + 1))
    else if StartsWith(text, pos, "==") then Ok(Lexeme(Punct(Equal), pos + 2))
    else if c == '<' then Ok(Lexeme(Punct(Less), pos + 1))
    else if c == '>' then Ok(Lexeme(Punct(Greater), pos + 1))
    else if c == '(' then Ok(Lexeme(Punct(LeftParen), pos + 1))
    else if c == ')' then Ok(Lexeme(Punct(RightParen), pos + 1))
    else Err(UnexpectedCharacter(c))
  }

  /** Tokens after position `pos`: white space is skipped, every other
      position starts a lexeme, and the list ends with the EOF token. */
  function ScanFrom(text: string, pos: nat): (r: Result<seq<Token>>)
    requires pos <= |text|
    ensures r.Ok? ==> WellFormed(r.value) && QuoteFree(r.value)
    ensures r.Ok? ==> r.value[|r.value| - 1] == EofToken
    ensures r.Ok? ==> forall i | 0 <= i < |r.value| - 1 :: r.value[i].kind != Eof
    decreases |text| - pos
  {
    if pos == |text| then Ok([EofToken])
    else if IsSpace(text[pos]) then ScanFrom(text, pos + 1)
    else
      var l :- LexemeAt(text, pos);
      var rest :- ScanFrom(text, l.next);
      ConsTokens(l.token, rest);
      Ok([l.token] + rest)
  }

  /** The properties of a scanned list survive putting a lexeme's token in front. */
  lemma ConsTokens(t: Token, rest: seq<Token>)
    requires t.kind != Eof && LiteralFits(t)
    requires t.literal.Some? && t.literal.value.TextLit? ==> '"' !in t.literal.value.s
    requires WellFormed(rest) && QuoteFree(rest)
    requires forall i | 0 <= i < |rest| - 1 :: rest[i].kind != Eof
    ensures WellFormed([t] + rest) && QuoteFree([t] + rest)
    ensures forall i | 0 <= i < |[t] + rest| - 1 :: ([t] + rest)[i].kind != Eof
  {
    var ts := [t] + rest;
    assert forall i | 1 <= i < |ts| :: ts[i] == rest[i - 1];
  }

  /** The scanner's result for a whole text. */
  function Scan(text: string): (r: Result<seq<Token>>)
    ensures r.Ok? ==> WellFormed(r.value) && QuoteFree(r.value)
  {
    ScanFrom(text, 0)
  }

  /** `tokens` already scanned, followed by the outcome of scanning the rest. */
  function Prepend(tokens: seq<Token>, rest: Result<seq<Token>>): Result<seq<Token>>
  {
    match rest
    case Ok(ts) => Ok(tokens + ts)
    case Err(e) => Err(e)
  }

  lemma PrependConcat(a: seq<Token>, b: seq<Token>, rest: Result<seq<Token>>)
    ensures Prepend(a + b, rest) == Prepend(a, Prepend(b, rest))
  {
    if rest.Ok? {
      assert (a + b) + rest.value == a + (b + rest.value);
    }
  }

  /** A lexeme that is read is followed by the scan of the rest. */
  lemma ScanStep(text: string, pos: nat)
    requires pos < |text| && !IsSpace(text[pos]) && LexemeAt(text, pos).Ok?
    ensures ScanFrom(text, pos) == Prepend([LexemeAt(text, pos).value.token], ScanFrom(text, LexemeAt(text, pos).value.next))
  {
  }

  /** Reading one lexeme moves its token from the scan of the rest to the
      tokens already read. */
  lemma ScanAdvance(text: string, pos: nat, tokens: seq<Token>, t: Token, next: nat)
    requires pos < |text| && !IsSpace(text[pos]) && LexemeAt(text, pos) == Ok(Lexeme(t, next))
    ensures Prepend(tokens, ScanFrom(text, pos)) == Prepend(tokens + [t], ScanFrom(text, next))
  {
    ScanStep(text, pos);
    PrependConcat(tokens, [t], ScanFrom(text, next));
  }

  /** A lexeme read by a method: the token and the cursor it leaves behind. */
  function Read(r: Result<Token>, next: nat): Result<Lexeme>
  {
    match r
    case Ok(t) => Ok(Lexeme(t, next))
    case Err(e) => Err(e)
  }

  // ---------------------------------------------------------------------
  // The scanner object
  // ---------------------------------------------------------------------

  class Scanner {
    const text: string
    var pos: nat

    ghost predicate Valid()
      reads this
    {
      pos <= |text|
    }

    constructor(text: string)
      ensures this.text == text && pos == 0 && Valid()
    {
      this.text := text;
      pos := 0;
    }

    /** Scans from the cursor to the end of the text. */
    method ScanTokens() returns (r: Result<seq<Token>>)
      requires Valid()
      modifies this
      ensures Valid()
      ensures r == ScanFrom(text, old(pos))
      ensures r.Ok? ==> pos == |text|
    {
      var tokens: seq<Token> := [];
      ghost var rest := ScanFrom(text, pos);
      if rest.Ok? {
        assert [] + rest.value == rest.value;
      }
      while pos < |text|
        invariant Valid()
        invariant ScanFrom(text, old(pos)) == Prepend(tokens, ScanFrom(text, pos))
        decreases |text| - pos
      {
        var c := text[pos];
        if IsSpace(c) {
          assert ScanFrom(text, pos) == ScanFrom(text, pos + 1);
          pos := pos + 1;
          continue;
        }
        ghost var start := pos;
        var t := ScanLexeme();
        if t.Err? {
          return Err(t.error);
        }
        ScanAdvance(text, start, tokens, t.value, pos);
        tokens := tokens + [t.value];
      }
      assert ScanFrom(text, pos) == Ok([EofToken]);
      r := Ok(tokens + [EofToken]);
    }

    /** Reads the lexeme at the cursor, choosing its kind by the first
        character in the scanner's order. */
    method ScanLexeme() returns (r: Result<Token>)
      requires Valid() && pos < |text|
      modifies this
      ensures Valid()
      ensures Read(r, pos) == LexemeAt(text, old(pos))
    {
      var c := text[pos];
      if IsNumeralChar(c) {
        r := ScanNumber();
      } else if c == '"' {
        r := ScanString();
      } else if IsAlpha(c) {
        var id := ScanIdentifier();
        r := Ok(id);
      } else {
        r := ScanSymbol();
      }
    }

    /** Reads a number lexeme; the cursor ends after it. */
    method ScanNumber() returns (r: Result<Token>)
      requires Valid() && pos < |text| && IsNumeralChar(text[pos])
      modifies this
      ensures Valid()
      ensures Read(r, pos) == NumberAt(text, old(pos))
    {
      var start := pos;
      while pos < |text| && IsNumeralChar(text[pos])
        invariant start <= pos <= |text|
        invariant RunEnd(text, pos, IsNumeralChar) == RunEnd(text, start, IsNumeralChar)
        decreases |text| - pos
      {
        pos := pos + 1;
      }
      ghost var end := pos;
      assert end == RunEnd(text, start, IsNumeralChar);
      var suffix := pos < |text| && IsScaleSuffix(text[pos]);
      var exponent := 0;
      if suffix {
        exponent := SuffixExponent(text[pos]);
        pos := pos + 1;
      }
      var lexeme := text[start..pos];
      var numeral := if suffix then lexeme[..|lexeme| - 1] else lexeme;
      assert numeral == text[start..end];
      RunIsNumeral(text, start);
      var value := ParseNumeral(numeral);
      assert suffix <==> end < |text| && IsScaleSuffix(text[end]);
      assert pos == if suffix then end + 1 else end;
      if value.None? {
        assert NumberAt(text, start) == Err(InvalidNumber(numeral));
        return Err(InvalidNumber(numeral));
      }
      var n := value.value;
      if suffix {
        n := Scale(n, exponent);
      }
      r := Ok(Token(Number, Some(NumberLit(n))));
      assert NumberAt(text, start) == Ok(Lexeme(r.value, pos));
    }

    /** Reads a string lexeme; the cursor ends after the closing quote. */
    method ScanString() returns (r: Result<Token>)
      requires Valid() && pos < |text| && text[pos] == '"'
      modifies this
      ensures Valid()
      ensures Read(r, pos) == StringAt(text, old(pos))
    {
      pos := pos + 1;
      var start := pos;
      while pos < |text| && text[pos] != '"'
        invariant start <= pos <= |text|
        invariant RunEnd(text, pos, IsNotQuote) == RunEnd(text, start, IsNotQuote)
        decreases |text| - pos
      {
        pos := pos + 1;
      }
      if pos == |text| {
        return Err(UnterminatedString);
      }
      var value := text[start..pos];
      pos := pos + 1;
      r := Ok(Token(String, Some(TextLit(value))));
    }

    /** Reads an identifier lexeme; the cursor ends after it. */
    method ScanIdentifier() returns (t: Token)
      requires Valid() && pos < |text| && IsAlpha(text[pos])
      modifies this
      ensures Valid()
      ensures Lexeme(t, pos) == IdentifierAt(text, old(pos))
    {
      var start := pos;
      while pos < |text| && IsWordChar(text[pos])
        invariant start <= pos <= |text|
        invariant RunEnd(text, pos, IsWordChar) == RunEnd(text, start, IsWordChar)
        decreases |text| - pos
      {
        pos := pos + 1;
      }
      t := Token(Identifier, Some(TextLit(text[start..pos])));
    }

    /** Reads an operator or punctuation lexeme, or reports the character
        that starts none. */
    method ScanSymbol() returns (r: Result<Token>)
      requires Valid() && pos < |text|
      requires !IsNumeralChar(text[pos]) && text[pos] != '"' && !IsAlpha(text[pos])
      modifies this
      ensures Valid()
      ensures Read(r, pos) == LexemeAt(text, old(pos))
    {
      var c := text[pos];
      var two := text[pos..if pos + 2 <= |text| then pos + 2 else |text|];
      var kind: TokenKind;
      var width := 1;
      if two == "&&" {
        kind, width := And, 2;
      } else if two == "||" {
        kind, width := Or, 2;
      } else if c == '[' {
        kind := LeftBracket;
      } else if c == ']' {
        kind := RightBracket;
      } else if c == ':' {
        kind := Colon;
      } else if two == "==" {
        kind, width := Equal, 2;
      } else if c == '<' {
        kind := Less;
      } else if c == '>' {
        kind := Greater;
      } else if c == '(' {
        kind := LeftParen;
      } else if c == ')' {
        kind := RightParen;
      } else {
        return Err(UnexpectedCharacter(c));
      }
      pos := pos + width;
      r := Ok(Punct(kind));
    }
  }
}
