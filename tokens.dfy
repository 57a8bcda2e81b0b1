/**
 * The token kinds and the pattern table of src/lexer/tokens.rs.  The file
 * declares seventeen kinds and fifteen patterns; the rest of the compiler uses
 * more kinds, so the one `Token` type here covers them all, with the
 * seventeen declared ones first and in their declared order.
 */
module Tokens {
  import opened Util

  /**
   * `Token` is a field-less enumeration, so a kind is its discriminant: the
   * seventeen kinds src/lexer/tokens.rs declares keep their declared
   * positions 0 to 16, and the kinds the lexer, preprocessor and parsers use
   * besides follow from 17 on.
   */
  newtype Token = t: int | 0 <= t < 52

  // the kinds src/lexer/tokens.rs declares, in order
  const VOID: Token := 0
  const INT: Token := 1
  const SEMIC: Token := 2
  const LCURL: Token := 3
  const RCURL: Token := 4
  const LPAREN: Token := 5
  const RPAREN: Token := 6
  const RETURN: Token := 7
  const INTLITERAL: Token := 8
  const IDENT: Token := 9
  const ADD: Token := 10
  const SUB: Token := 11
  const MUL: Token := 12
  const DIV: Token := 13
  const ASSIGN: Token := 14
  const EOF: Token := 15
  const ERR: Token := 16
  // the kinds the rest of the compiler uses besides
  const COMMA: Token := 17
  const DOT: Token := 18
  const ARROW: Token := 19
  const LBRACE: Token := 20
  const RBRACE: Token := 21
  const IF: Token := 22
  const ELSE: Token := 23
  const WHILE: Token := 24
  const FOR: Token := 25
  const CONTINUE: Token := 26
  const BREAK: Token := 27
  const TYPEDEF: Token := 28
  const STRUCT: Token := 29
  const LONG: Token := 30
  const CHAR: Token := 31
  const TYPEOF: Token := 32
  const SIZEOF: Token := 33
  const STRINGLIT: Token := 34
  const CHARLITERAL: Token := 35
  const REF: Token := 36
  const OR: Token := 37
  const AND: Token := 38
  const EQ: Token := 39
  const NE: Token := 40
  const LT: Token := 41
  const LE: Token := 42
  const GT: Token := 43
  const GE: Token := 44
  const MOD: Token := 45
  const LOGNEG: Token := 46
  const COMPLEMENT: Token := 47
  const HASHTAG: Token := 48
  const INCLUDE: Token := 49
  const DEFINE: Token := 50
  const ESCAPELINE: Token := 51

  /** The seventeen kinds of the declaration, in declaration order. */
  const Declared: seq<Token> :=
    [VOID, INT, SEMIC, LCURL, RCURL, LPAREN, RPAREN, RETURN,
     INTLITERAL, IDENT, ADD, SUB, MUL, DIV, ASSIGN, EOF, ERR]

  /** `Token::from`: the kind with a pattern index; past EOF everything is ERR. */
  function From(value: nat): Token {
    if value <= 15 then value as Token else ERR
  }

  /** `from(i)` is the i-th declared kind for i up to 15, and ERR from 16 on. */
  lemma {:induction false} FromFollowsDeclaration(i: nat)
    ensures i <= 15 ==> From(i) == Declared[i]
    ensures i >= 16 ==> From(i) == ERR
  {
  }

  /** `from` hands out each of the first sixteen kinds once. */
  lemma FromInjective(i: nat, j: nat)
    requires i <= 15 && j <= 15
    ensures From(i) == From(j) <==> i == j
  {
  }

  /** ASCII word characters, what `\w` matches on ASCII text. */
  predicate IsWordChar(c: char) {
    IsDigit(c) || 'a' <= c <= 'z' || 'A' <= c <= 'Z' || c == '_'
  }

  /** The character classes a repeated pattern can range over. */
  datatype CharClass = Digits | Word

  predicate InClass(c: char, cls: CharClass) {
    match cls
    case Digits => IsDigit(c)
    case Word => IsWordChar(c)
  }

  /**
   * The regular expressions of the table: a literal text (the escaped
   * punctuation and the keywords) or one or more characters of a class.
   */
  datatype Pattern = Literal(text: string) | Repeat(cls: CharClass)

  /** The end of the run of `cls` characters starting at `i`. */
  function RunEnd(s: string, i: nat, cls: CharClass): (j: nat)
    requires i <= |s|
    ensures i <= j <= |s|
    decreases |s| - i
  {
    if i < |s| && InClass(s[i], cls) then RunEnd(s, i + 1, cls) else i
  }

  /** The run is the longest stretch of `cls` characters from `i`. */
  lemma {:induction false} RunEndIsLongest(s: string, i: nat, cls: CharClass)
    requires i <= |s|
    ensures forall k :: i <= k < RunEnd(s, i, cls) ==> InClass(s[k], cls)
    ensures RunEnd(s, i, cls) < |s| ==> !InClass(s[RunEnd(s, i, cls)], cls)
    decreases |s| - i
  {
    if i < |s| && InClass(s[i], cls) {
      RunEndIsLongest(s, i + 1, cls);
    }
  }

  /**
   * Where a match of `p` that starts exactly at `i` ends.  A leftmost-first
   * search from `i` finds the match at `i` whenever there is one, and a
   * repetition is greedy, so this is the end `find_at` reports for a match
   * that starts at `i`.
   */
  function MatchEnd(p: Pattern, s: string, i: nat): (r: Option<nat>)
    requires i <= |s|
    ensures r.Some? ==> i < r.value <= |s|
  {
    match p
    case Literal(text) =>
      if 0 < |text| && i + |text| <= |s| && s[i..i + |text|] == text then Some(i + |text|) else None
    case Repeat(cls) =>
      var j := RunEnd(s, i, cls);
      if j > i then Some(j) else None
  }

  /**
   * A literal matches where the text occurs, and ends after it; a repetition
   * matches where a character of its class stands, and takes the whole run.
   */
  lemma MatchEndCases(p: Pattern, s: string, i: nat)
    requires i <= |s|
    ensures p.Literal? && |p.text| > 0 ==>
      (MatchEnd(p, s, i) == Some(i + |p.text|) <==> i + |p.text| <= |s| && s[i..i + |p.text|] == p.text)
    ensures p.Repeat? ==> (MatchEnd(p, s, i).Some? <==> i < |s| && InClass(s[i], p.cls))
    ensures p.Repeat? && MatchEnd(p, s, i).Some? ==>
      && (forall k :: i <= k < MatchEnd(p, s, i).value ==> InClass(s[k], p.cls))
      && (MatchEnd(p, s, i).value < |s| ==> !InClass(s[MatchEnd(p, s, i).value], p.cls))
  {
    if p.Repeat? {
      RunEndIsLongest(s, i, p.cls);
    }
  }

  /** One entry of the table: the kind a pattern produces. */
  datatype Rule = Rule(token: Token, pattern: Pattern)

  /** TOKEN_PATTERN, in order. */
  const TokenPattern: seq<Pattern> := [
    Literal("void"), Literal("int"), Literal(";"), Literal("{"), Literal("}"),
    Literal("("), Literal(")"), Literal("return "), Repeat(Digits), Repeat(Word),
    Literal("+"), Literal("-"), Literal("*"), Literal("/"), Literal("=")
  ]

  /** The table `Lexer::new` builds: pattern i produces `Token::from(i)`. */
  function Rules(): (rules: seq<Rule>)
    ensures |rules| == |TokenPattern|
    ensures forall i :: 0 <= i < |rules| ==> rules[i] == Rule(From(i), TokenPattern[i])
  {
    seq(|TokenPattern|, i requires 0 <= i < |TokenPattern| => Rule(From(i), TokenPattern[i]))
  }

  /** A rule table no entry of which produces EOF. */
  predicate NeverEof(rules: seq<Rule>) {
    forall i :: 0 <= i < |rules| ==> rules[i].token != EOF
  }

  /** There are fifteen patterns, so pattern matching never produces EOF or ERR. */
  lemma {:induction false} RulesNeverEof()
    ensures |Rules()| == 15
    ensures NeverEof(Rules())
    ensures forall i :: 0 <= i < |Rules()| ==> Rules()[i].token != ERR
  {
    forall i | 0 <= i < |Rules()|
      ensures Rules()[i].token != EOF && Rules()[i].token != ERR
    {
      FromFollowsDeclaration(i);
    }
  }

  /** The Debug text of a kind, as error messages print it. */
  function Name(t: Token): string {
    Names[t]
  }

  /** The Debug texts, by discriminant. */
  const Names: seq<string> := [
    "VOID", "INT", "SEMIC", "LCURL", "RCURL", "LPAREN", "RPAREN", "RETURN",
    "INTLITERAL", "IDENT", "ADD", "SUB", "MUL", "DIV", "ASSIGN", "EOF",
    "ERR", "COMMA", "DOT", "ARROW", "LBRACE", "RBRACE", "IF", "ELSE",
    "WHILE", "FOR", "CONTINUE", "BREAK", "TYPEDEF", "STRUCT", "LONG", "CHAR",
    "TYPEOF", "SIZEOF", "STRINGLIT", "CHARLITERAL", "REF", "OR", "AND", "EQ",
    "NE", "LT", "LE", "GT", "GE", "MOD", "LOGNEG", "COMPLEMENT",
    "HASHTAG", "INCLUDE", "DEFINE", "ESCAPELINE"
  ]
}
