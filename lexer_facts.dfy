/** Properties of the scanner as a whole: white space produces nothing, the
    token list is never longer than the text, number tokens carry the scaled
    value of their digits, and characters that start no lexeme stop the scan. */
module LexerFacts {
  import opened Errors
  import opened Numbers
  import opened Tokens
  import opened Lexer

  /** Every character of `text[start..stop]` is white space. */
  predicate Blank(text: string, start: nat, stop: nat)
    requires start <= stop <= |text|
  {
    forall k | start <= k < stop :: IsSpace(text[k])
  }

  /** White space before a position contributes no token. */
  lemma {:induction false} SpacesSkipped(text: string, start: nat, stop: nat)
    requires start <= stop <= |text| && Blank(text, start, stop)
    ensures ScanFrom(text, start) == ScanFrom(text, stop)
    decreases stop
  {
    if start < stop {
      SpacesSkipped(text, start, stop - 1);
      assert ScanFrom(text, stop - 1) == ScanFrom(text, stop);
    }
  }

  /** A text of white space only scans to the EOF token alone. */
  lemma BlankText(text: string)
    requires Blank(text, 0, |text|)
    ensures Scan(text) == Ok([EofToken])
  {
    SpacesSkipped(text, 0, |text|);
  }

  /** Every token but the EOF consumes at least one character. */
  lemma {:induction false} TokenCountBound(text: string, pos: nat)
    requires pos <= |text|
    ensures ScanFrom(text, pos).Ok? ==> |ScanFrom(text, pos).value| <= |text| - pos + 1
    decreases |text| - pos
  {
    if pos < |text| {
      if IsSpace(text[pos]) {
        TokenCountBound(text, pos + 1);
      } else if LexemeAt(text, pos).Ok? {
        TokenCountBound(text, LexemeAt(text, pos).value.next);
      }
    }
  }

  /** Scanning from `start` reads exactly the tokens `ts` and arrives at
      `stop`: white space is skipped and every other position starts a lexeme
      that is read without error and ends no later than `stop`. */
  ghost predicate ScansTo(text: string, start: nat, stop: nat, ts: seq<Token>)
    requires start <= stop <= |text|
    decreases stop - start
  {
    if start == stop then ts == []
    else if IsSpace(text[start]) then ScansTo(text, start + 1, stop, ts)
    else
      && LexemeAt(text, start).Ok?
      && LexemeAt(text, start).value.next <= stop
      && |ts| > 0 && ts[0] == LexemeAt(text, start).value.token
      && ScansTo(text, LexemeAt(text, start).value.next, stop, ts[1..])
  }

  /** What was read on the way to `stop` comes first in the scan from `start`. */
  lemma {:induction false} ScanThrough(text: string, start: nat, stop: nat, ts: seq<Token>)
    requires start <= stop <= |text| && ScansTo(text, start, stop, ts)
    ensures ScanFrom(text, start) == Prepend(ts, ScanFrom(text, stop))
    decreases stop - start
  {
    var rest := ScanFrom(text, stop);
    if start == stop {
      if rest.Ok? {
        assert ts + rest.value == rest.value;
      }
    } else if IsSpace(text[start]) {
      ScanThrough(text, start + 1, stop, ts);
    } else {
      var l := LexemeAt(text, start).value;
      ScanThrough(text, l.next, stop, ts[1..]);
      ScanStep(text, start);
      assert [l.token] + ts[1..] == ts;
      PrependConcat([l.token], ts[1..], rest);
    }
  }

  /** Leading white space is read without any token. */
  lemma {:induction false} BlankScansTo(text: string, start: nat, stop: nat)
    requires start <= stop <= |text| && Blank(text, start, stop)
    ensures ScansTo(text, start, stop, [])
    decreases stop - start
  {
    if start < stop {
      BlankScansTo(text, start + 1, stop);
    }
  }

  /** The first lexeme that fails, wherever it is, decides the scan: the
      tokens read before it are dropped and the scan is its error. */
  lemma LexemeFails(text: string, pos: nat, ts: seq<Token>)
    requires pos < |text| && ScansTo(text, 0, pos, ts) && !IsSpace(text[pos]) && LexemeAt(text, pos).Err?
    ensures Scan(text) == Err(LexemeAt(text, pos).error)
  {
    ScanThrough(text, 0, pos, ts);
  }

  /** A character that starts no lexeme: a lone `&`, `|` or `=`, or any
      character other than white space, digits, `.`, `"`, letters and the
      punctuation `[ ] : < > ( )`. */
  predicate Unexpected(text: string, pos: nat)
    requires pos < |text|
  {
    var c := text[pos];
    && !IsSpace(c) && !IsNumeralChar(c) && c != '"' && !IsAlpha(c)
    && c !in "[]:<>()"
    && !StartsWith(text, pos, "&&") && !StartsWith(text, pos, "||") && !StartsWith(text, pos, "==")
  }

  /** The scan stops at the first such character it reaches, naming it. */
  lemma UnexpectedCharacterFails(text: string, pos: nat, ts: seq<Token>)
    requires pos < |text| && ScansTo(text, 0, pos, ts) && Unexpected(text, pos)
    ensures Scan(text) == Err(UnexpectedCharacter(text[pos]))
  {
    LexemeFails(text, pos, ts);
  }

  /** `=1`: a single `=` is not an operator. */
  lemma SingleEqualsFails()
    ensures Scan("=1") == Err(UnexpectedCharacter('='))
  {
    assert !StartsWith("=1", 0, "==") by {
      assert "=1"[0..2] != "==" by { assert "=1"[0..2][1] == '1'; }
    }
    BlankScansTo("=1", 0, 0);
    UnexpectedCharacterFails("=1", 0, []);
  }

  /** A lone `&` or `|` as the last character, reached by the scan after
      any tokens, fails the scan naming it. */
  lemma LoneConnectiveFails(text: string, ts: seq<Token>)
    requires |text| > 0 && ScansTo(text, 0, |text| - 1, ts) && text[|text| - 1] in "&|"
    ensures Scan(text) == Err(UnexpectedCharacter(text[|text| - 1]))
  {
    UnexpectedCharacterFails(text, |text| - 1, ts);
  }

  /** ` &` and ` |`: a blank, then a lone connective. */
  lemma BlankConnectiveFails(c: char)
    requires c == '&' || c == '|'
    ensures Scan([' ', c]) == Err(UnexpectedCharacter(c))
  {
    BlankScansTo([' ', c], 0, 1);
    LoneConnectiveFails([' ', c], []);
  }

  /** An opening quote, reached by the scan, with no closing quote after it. */
  lemma UnterminatedStringFails(text: string, pos: nat, ts: seq<Token>)
    requires pos < |text| && ScansTo(text, 0, pos, ts) && text[pos] == '"' && '"' !in text[pos + 1..]
    ensures Scan(text) == Err(UnterminatedString)
  {
    LexemeFails(text, pos, ts);
  }

  /** A lexeme read at `start` puts its token in front of what follows. */
  lemma ReadLexeme(text: string, start: nat, stop: nat, t: Token, next: nat, ts: seq<Token>)
    requires start < stop <= |text| && !IsSpace(text[start])
    requires LexemeAt(text, start) == Ok(Lexeme(t, next)) && next <= stop && ScansTo(text, next, stop, ts)
    ensures ScansTo(text, start, stop, [t] + ts)
  {
    assert ([t] + ts)[1..] == ts;
  }

  /** A letter followed by a character that cannot continue a name is a
      one-letter identifier. */
  lemma OneLetterName(text: string, pos: nat)
    requires pos + 1 < |text| && IsAlpha(text[pos]) && !IsWordChar(text[pos + 1])
    ensures LexemeAt(text, pos) == Ok(Lexeme(Token(Identifier, Some(TextLit([text[pos]]))), pos + 1))
  {
    assert RunEnd(text, pos + 1, IsWordChar) == pos + 1;
    assert text[pos..pos + 1] == [text[pos]];
  }

  /** `x $ 1`: the scan reads `x`, skips the blank and stops at `$`. */
  lemma DollarFails()
    ensures Scan("x $ 1") == Err(UnexpectedCharacter('$'))
  {
    var text := "x $ 1";
    var x := Token(Identifier, Some(TextLit("x")));
    OneLetterName(text, 0);
    BlankScansTo(text, 1, 2);
    ReadLexeme(text, 0, 2, x, 1, []);
    UnexpectedCharacterFails(text, 2, [x]);
  }

  /** `x=="abc`: the scan reads `x` and `==`, then finds no closing quote. */
  lemma OpenQuoteFails()
    ensures Scan("x==\"abc") == Err(UnterminatedString)
  {
    var text := "x==\"abc";
    var x := Token(Identifier, Some(TextLit("x")));
    OneLetterName(text, 0);
    assert text[1..3] == "==";
    SymbolRead(text, 1, Equal);
    BlankScansTo(text, 3, 3);
    ReadLexeme(text, 1, 3, Punct(Equal), 3, []);
    ReadLexeme(text, 0, 3, x, 1, [Punct(Equal)]);
    assert text[4..] == "abc";
    UnterminatedStringFails(text, 3, [x, Punct(Equal)]);
  }

  /** Every operator and punctuation text is read as the token of its kind,
      whatever follows it: the reference table `Tokens.Symbol` and the
      scanner agree. */
  lemma SymbolRead(text: string, pos: nat, k: TokenKind)
    requires Symbol(k).Some? && StartsWith(text, pos, Symbol(k).value)
    ensures LexemeAt(text, pos) == Ok(Lexeme(Punct(k), pos + |Symbol(k).value|))
  {
    var s := Symbol(k).value;
    var c := text[pos];
    assert c == s[0];
    if |s| == 1 {
      assert !StartsWith(text, pos, "&&") && !StartsWith(text, pos, "||") && !StartsWith(text, pos, "==") by {
        if pos + 2 <= |text| {
          assert text[pos..pos + 2][0] == c;
        }
      }
    }
    var r := Ok(Lexeme(Punct(k), pos + |s|));
    match k
    case And => assert LexemeAt(text, pos) == r;
    case Or => assert LexemeAt(text, pos) == r;
    case Equal => assert LexemeAt(text, pos) == r;
    case Less => assert LexemeAt(text, pos) == r;
    case Greater => assert LexemeAt(text, pos) == r;
    case LeftParen => assert LexemeAt(text, pos) == r;
    case RightParen => assert LexemeAt(text, pos) == r;
    case LeftBracket => assert LexemeAt(text, pos) == r;
    case RightBracket => assert LexemeAt(text, pos) == r;
    case Colon => assert LexemeAt(text, pos) == r;
  }

  /** A number is read exactly when its run of digits and dots is a valid
      numeral. */
  lemma NumberRead(text: string, pos: nat)
    requires pos < |text| && IsNumeralChar(text[pos])
    ensures NumberAt(text, pos).Ok? <==> ValidNumeral(text[pos..RunEnd(text, pos, IsNumeralChar)])
  {
    RunIsNumeral(text, pos);
  }

  /** The first character decides what is read at `pos`: a digit or `.` a
      number, a quote a string, a letter an identifier; any other character
      is read exactly when an operator or punctuation text starts there, and
      then gives a token without a literal. */
  lemma LexemeRead(text: string, pos: nat)
    requires pos < |text|
    ensures IsNumeralChar(text[pos]) ==> LexemeAt(text, pos) == NumberAt(text, pos)
    ensures text[pos] == '"' ==> LexemeAt(text, pos) == StringAt(text, pos)
    ensures IsAlpha(text[pos]) ==> LexemeAt(text, pos) == Ok(IdentifierAt(text, pos))
    ensures !IsNumeralChar(text[pos]) && text[pos] != '"' && !IsAlpha(text[pos]) ==>
              (LexemeAt(text, pos).Ok? <==>
                 StartsWith(text, pos, "&&") || StartsWith(text, pos, "||")
                 || StartsWith(text, pos, "==") || text[pos] in "[]:<>()")
    ensures !IsNumeralChar(text[pos]) && text[pos] != '"' && !IsAlpha(text[pos]) && LexemeAt(text, pos).Ok? ==>
              LexemeAt(text, pos).value.token.literal.None?
  {
  }

  /** With a K, M, B or T directly after a valid numeral, the literal is the
      numeral's decimal scaled by 10^3, 10^6, 10^9 or 10^12, so its value is
      the numeral's value times that power (`Numbers.ParseNumeralValue`,
      `Numbers.ScaleValue`). */
  lemma ScaledNumberValue(text: string, pos: nat, e: nat)
    requires pos < |text| && IsNumeralChar(text[pos])
    requires e == RunEnd(text, pos, IsNumeralChar) && e < |text| && IsScaleSuffix(text[e])
    requires ValidNumeral(text[pos..e])
    ensures IsNumeral(text[pos..e]) && NumberAt(text, pos).Ok?
    ensures NumberAt(text, pos).value.token.literal.value.n
            == Scale(ParseNumeral(text[pos..e]).value, SuffixExponent(text[e]))
  {
    RunIsNumeral(text, pos);
  }

  /** Without a suffix the value is the valid numeral's exact value. */
  lemma PlainNumberValue(text: string, pos: nat, e: nat)
    requires pos < |text| && IsNumeralChar(text[pos])
    requires e == RunEnd(text, pos, IsNumeralChar) && !(e < |text| && IsScaleSuffix(text[e]))
    requires ValidNumeral(text[pos..e])
    ensures IsNumeral(text[pos..e]) && NumberAt(text, pos).Ok?
    ensures RealValue(NumberAt(text, pos).value.token.literal.value.n) == NumeralValue(text[pos..e])
  {
    RunIsNumeral(text, pos);
    ParseNumeralValue(text[pos..e]);
  }

  /** `1.5` is the decimal 15 * 10^-1. */
  lemma OnePointFive()
    ensures IsNumeral("1.5") && ParseNumeral("1.5") == Some(Decimal(15, -1))
  {
    var s := "1.5";
    assert DotIndex(s) == 1 by { assert DotIndex(s[1..]) == 0; }
    assert IntegerPart(s) == "1" && FractionPart(s) == "5";
    assert IsDigit(s[0]);
    assert "1" + "5" == "15";
    assert DigitsValue("15") == 15 by { assert "15"[..1] == "1"; }
  }

  /** `1.5M` is read whole, as 15 * 10^5. */
  lemma MillionsRead()
    ensures NumberAt("1.5M", 0) == Ok(Lexeme(Token(Number, Some(NumberLit(Decimal(15, 5)))), 4))
  {
    var text := "1.5M";
    assert RunEnd(text, 3, IsNumeralChar) == 3;
    assert RunEnd(text, 0, IsNumeralChar) == 3;
    assert text[0..3] == "1.5";
    OnePointFive();
  }
}
