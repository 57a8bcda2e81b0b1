/**
 * How first-match selection over the table of src/lexer/tokens.rs cuts
 * particular inputs: keywords and digits before words, and the RETURN
 * pattern with its trailing space.
 */
module LexerExamples {
  import opened Util
  import opened Tokens
  import opened Lexer

  /** A literal pattern misses where the text's first character differs. */
  lemma LiteralMiss(text: string, s: string, i: nat)
    requires i < |s| && |text| > 0 && s[i] != text[0]
    ensures MatchEnd(Literal(text), s, i) == None
  {
    LiteralMissAt(text, s, i, 0);
  }

  /** A literal pattern misses where some character of the text differs. */
  lemma LiteralMissAt(text: string, s: string, i: nat, j: nat)
    requires i <= |s| && j < |text| && (i + j < |s| ==> s[i + j] != text[j])
    ensures MatchEnd(Literal(text), s, i) == None
  {
    if i + |text| <= |s| {
      assert s[i..i + |text|][j] != text[j];
    }
  }

  /** The table's patterns other than INT, RETURN, the digits and the words miss on a letter other than `v`. */
  lemma PunctuationMisses(s: string, i: nat)
    requires i < |s| && IsWordChar(s[i]) && s[i] != 'v' && s[i] != 'i' && s[i] != 'r'
    ensures forall m :: 0 <= m < |TokenPattern| && m != 8 && m != 9 ==> MatchEnd(TokenPattern[m], s, i) == None
  {
    forall m | 0 <= m < |TokenPattern| && m != 8 && m != 9
      ensures MatchEnd(TokenPattern[m], s, i) == None
    {
      LiteralMiss(TokenPattern[m].text, s, i);
    }
  }

  /** Where no white space stands, `next_token` takes rule `k` when it hits and no rule before it does. */
  lemma PicksRule(s: string, i: nat, k: nat, end: nat)
    requires i < |s| && !IsAsciiWhitespace(s[i]) && k < |Rules()|
    requires forall m :: 0 <= m < k ==> !Hits(Rules()[m], s, i)
    requires MatchEnd(Rules()[k].pattern, s, i) == Some(end)
    ensures NextToken(Rules(), s, i) == Some((From(k), end))
  {
    FirstMatchIsLeast(Rules(), s, i, k);
  }

  /**
   * Keyword patterns come before `\w+`, so the first match cuts `integer`
   * into INT and then IDENT `eger`.
   */
  lemma IntegerLexesAsIntFirst()
    ensures NextToken(Rules(), "integer", 0) == Some((INT, 3))
  {
    LiteralMiss("void", "integer", 0);
    assert "integer"[0..3] == "int";
    PicksRule("integer", 0, 1, 3);
  }

  lemma IntegerLexesEgerAsIdent()
    ensures NextToken(Rules(), "integer", 3) == Some((IDENT, 7))
  {
    NothingBeforeWords("integer", 3);
    assert MatchEnd(Repeat(Word), "integer", 3) == Some(7);
    PicksRule("integer", 3, 9, 7);
  }

  /** On a letter other than `v`, `i` and `r`, every rule before `\w+` misses. */
  lemma NothingBeforeWords(s: string, i: nat)
    requires i < |s| && IsWordChar(s[i]) && !IsDigit(s[i]) && s[i] != 'v' && s[i] != 'i' && s[i] != 'r'
    ensures forall m :: 0 <= m < 9 ==> !Hits(Rules()[m], s, i)
  {
    PunctuationMisses(s, i);
  }

  /** The digit pattern comes before `\w+`, so `123abc` is INTLITERAL `123` and then IDENT `abc`. */
  lemma DigitsLexBeforeWords()
    ensures NextToken(Rules(), "123abc", 0) == Some((INTLITERAL, 3))
  {
    NothingBeforeDigits("123abc", 0);
    assert MatchEnd(Repeat(Digits), "123abc", 0) == Some(3);
    PicksRule("123abc", 0, 8, 3);
  }

  /** On a digit, every rule before the digit pattern misses. */
  lemma NothingBeforeDigits(s: string, i: nat)
    requires i < |s| && IsDigit(s[i])
    ensures forall m :: 0 <= m < 8 ==> !Hits(Rules()[m], s, i)
  {
    forall m | 0 <= m < 8
      ensures MatchEnd(TokenPattern[m], s, i) == None
    {
      LiteralMiss(TokenPattern[m].text, s, i);
    }
  }

  lemma WordsLexAfterDigits()
    ensures NextToken(Rules(), "123abc", 3) == Some((IDENT, 6))
  {
    NothingBeforeWords("123abc", 3);
    assert MatchEnd(Repeat(Word), "123abc", 3) == Some(6);
    PicksRule("123abc", 3, 9, 6);
  }

  /** The RETURN pattern includes a space, so `return;` starts with IDENT `return`. */
  lemma ReturnWithoutSpaceIsIdent()
    ensures NextToken(Rules(), "return;", 0) == Some((IDENT, 6))
  {
    NothingBeforeWordsInReturn("return;");
    LiteralMissAt("return ", "return;", 0, 6);
    assert MatchEnd(Repeat(Word), "return;", 0) == Some(6);
    PicksRule("return;", 0, 9, 6);
  }

  /** On text that begins with `r`, every rule before RETURN misses, and so do the digits. */
  lemma NothingBeforeWordsInReturn(s: string)
    requires |s| > 0 && s[0] == 'r'
    ensures forall m :: 0 <= m < 9 && m != 7 ==> !Hits(Rules()[m], s, 0)
  {
    forall m | 0 <= m < 8 && m != 7
      ensures MatchEnd(TokenPattern[m], s, 0) == None
    {
      LiteralMiss(TokenPattern[m].text, s, 0);
    }
  }

  /** With the space, `return x` starts with RETURN. */
  lemma ReturnWithSpaceIsReturn()
    ensures NextToken(Rules(), "return x", 0) == Some((RETURN, 7))
  {
    NothingBeforeWordsInReturn("return x");
    assert "return x"[0..7] == "return ";
    PicksRule("return x", 0, 7, 7);
  }

  /** The text RETURN keeps is `return`, without the space its pattern matched. */
  lemma ReturnTextIsTrimmed()
    ensures Trim("return x"[0..7]) == "return"
  {
    assert "return x"[0..7] == "return ";
    assert TrimStart("return ") == "return ";
    assert "return "[..6] == "return";
    assert TrimEnd("return") == "return";
  }
}
