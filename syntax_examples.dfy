/**
 * The newer parser on particular token sequences: precedence and
 * associativity, casts, suffixes, assignments nesting to the right,
 * declarations and their fall-back to expressions, the dangling `else`,
 * `for` defaults, parameter commas, literals, and the struct-returning
 * function the top level cannot read.
 */
module SyntaxExamples {
  import opened Util
  import opened Tokens
  import opened Syntax
  import opened SyntaxParser
  import opened SyntaxProperties
  import Lexer

  /** A view of a token with its text; the position fields play no part in parsing. */
  function V(t: Token, s: string): TokenView {
    Lexer.TokenView(t, s, 0, 0, 0)
  }

  function Name(s: string): TokenView { V(IDENT, s) }

  /** A name followed by `;` and something other than `[` is an expression statement. */
  lemma NameStatement(ts: seq<TokenView>, pos: nat)
    requires pos + 2 < |ts| && ts[pos].token == IDENT && ts[pos + 1].token == SEMIC && ts[pos + 2].token != LBRACE
    ensures ParseStatement(ts, pos) == Parsed(Ok(SingleExpression(NamedVariable(ts[pos].str))), pos + 2)
  {
    NamedOperand(ts, pos, 0);
    assert ParseTypeExpression(ts, pos) == Parsed(Ok(Named(ts[pos].str)), pos + 1);
    DeclarationFallsBack(ts, pos);
  }

  /** A name before a token that closes every level and is not `=` is that whole expression. */
  lemma NameExpression(ts: seq<TokenView>, pos: nat)
    requires pos + 1 < |ts| && ts[pos].token == IDENT && Closes(ts[pos + 1].token, 0) && ts[pos + 1].token != ASSIGN
    ensures ParseExpression(ts, pos) == Parsed(Ok(NamedVariable(ts[pos].str)), pos + 1)
  {
    NamedOperand(ts, pos, 0);
  }

  /** `a - b - c ;` is `(a - b) - c`. */
  lemma SubtractionNestsLeft()
    ensures var ts := [Name("a"), V(SUB, "-"), Name("b"), V(SUB, "-"), Name("c"), V(SEMIC, ";"), V(EOF, "")];
      var a, b, c := NamedVariable("a"), NamedVariable("b"), NamedVariable("c");
      ParseExpression(ts, 0) == Parsed(Ok(BinaryExpression(BinaryExpression(a, b, SUB), c, SUB)), 5)
  {
    var ts := [Name("a"), V(SUB, "-"), Name("b"), V(SUB, "-"), Name("c"), V(SEMIC, ";"), V(EOF, "")];
    assert RestAt(ts, 5, [], [], 4);
    assert RestAt(ts, 3, [SUB], ["c"], 4);
    assert RestAt(ts, 1, [SUB, SUB], ["b", "c"], 4);
    LeftAssociative(ts, 0, 4, [SUB, SUB], ["b", "c"]);
    FoldNestsLeft(NamedVariable("a"), "b", "c", SUB, SUB);
    LiftToExpression(ts, 0, 4, BinaryExpression(BinaryExpression(NamedVariable("a"), NamedVariable("b"), SUB), NamedVariable("c"), SUB), 5);
  }

  /** `a + b * c ;` is `a + (b * c)`: the tighter level is a subtree of the looser. */
  lemma ProductBindsTighter()
    ensures var ts := [Name("a"), V(ADD, "+"), Name("b"), V(MUL, "*"), Name("c"), V(SEMIC, ";"), V(EOF, "")];
      var a, b, c := NamedVariable("a"), NamedVariable("b"), NamedVariable("c");
      ParseExpression(ts, 0) == Parsed(Ok(BinaryExpression(a, BinaryExpression(b, c, MUL), ADD)), 5)
  {
    var ts := [Name("a"), V(ADD, "+"), Name("b"), V(MUL, "*"), Name("c"), V(SEMIC, ";"), V(EOF, "")];
    var a, b, c := NamedVariable("a"), NamedVariable("b"), NamedVariable("c");
    assert RestAt(ts, 5, [], [], 5);
    assert RestAt(ts, 3, [MUL], ["c"], 5);
    LeftAssociative(ts, 2, 5, [MUL], ["c"]);
    assert Fold(b, [MUL], ["c"]) == Fold(BinaryExpression(b, c, MUL), [], []);
    NamedOperand(ts, 0, 5);
    LoopStep2(ts, 1, 4, a, ADD, BinaryExpression(b, c, MUL), 5);
    LiftToExpression(ts, 0, 4, BinaryExpression(a, BinaryExpression(b, c, MUL), ADD), 5);
  }

  /** One round of a level's loop whose right operand is any expression, and then the end of the level. */
  lemma LoopStep2(ts: seq<TokenView>, q: nat, level: nat, lhs: Expression, op: BinaryOp, rhs: Expression, p: nat)
    requires q < p < |ts| && level < |Levels| && ts[q].token == op && op in Levels[level]
    requires ParseBinary(ts, q + 1, level + 1) == Parsed(Ok(rhs), p) && ts[p].token !in Levels[level]
    ensures BinaryLoop(ts, q, level, lhs) == Parsed(Ok(BinaryExpression(lhs, rhs, op)), p)
  {
  }

  /** `( int ) x` is a cast of `x` to `int`. */
  lemma TypeInParenthesesCasts()
    ensures var ts := [V(LPAREN, "("), V(INT, "int"), V(RPAREN, ")"), Name("x"), V(SEMIC, ";")];
      ParseFactor(ts, 0) == Parsed(Ok(Unary(NamedVariable("x"), Cast(Primitive(INT)))), 4)
  {
    var ts := [V(LPAREN, "("), V(INT, "int"), V(RPAREN, ")"), Name("x"), V(SEMIC, ";")];
    var t := Type(Primitive(INT));
    assert ParseTypeExpression(ts, 1) == Parsed(Ok(Primitive(INT)), 2);
    assert ParseLiteral(ts, 1) == Parsed(Ok(t), 2);
    assert ParsePostfix(ts, 1) == Parsed(Ok(t), 2);
    assert ParseBinary(ts, 1, |Levels|) == Parsed(Ok(t), 2);
    LiftToExpression(ts, 1, |Levels|, t, 2);
    assert ParseLiteral(ts, 0) == Parsed(Ok(t), 3);
    assert ParsePostfix(ts, 0) == Parsed(Ok(t), 3);
    NamedOperand(ts, 3, |Levels|);
  }

  /** `( T ) x` with a name `T` is not a cast: the factor is the variable `T`, and `x` is left over. */
  lemma NameInParenthesesIsNoCast()
    ensures var ts := [V(LPAREN, "("), Name("T"), V(RPAREN, ")"), Name("x"), V(SEMIC, ";")];
      ParseFactor(ts, 0) == Parsed(Ok(NamedVariable("T")), 3)
  {
    var ts := [V(LPAREN, "("), Name("T"), V(RPAREN, ")"), Name("x"), V(SEMIC, ";")];
    NameExpression(ts, 1);
    assert ParseLiteral(ts, 0) == Parsed(Ok(NamedVariable("T")), 3);
    assert ParsePostfix(ts, 0) == Parsed(Ok(NamedVariable("T")), 3);
  }

  /** `a [ i ] . f -> g` wraps from the inside out: the index first, the arrow last. */
  lemma SuffixesChainLeftToRight()
    ensures var ts := [Name("a"), V(LBRACE, "["), Name("i"), V(RBRACE, "]"), V(DOT, "."), Name("f"), V(ARROW, "->"), Name("g"), V(SEMIC, ";")];
      ParsePostfix(ts, 0) == Parsed(Ok(ArrowAccess("g", FieldAccess("f", Indexing(NamedVariable("i"), NamedVariable("a"))))), 8)
  {
    var ts := [Name("a"), V(LBRACE, "["), Name("i"), V(RBRACE, "]"), V(DOT, "."), Name("f"), V(ARROW, "->"), Name("g"), V(SEMIC, ";")];
    var indexed := Indexing(NamedVariable("i"), NamedVariable("a"));
    var field := FieldAccess("f", indexed);
    NameExpression(ts, 2);
    assert IndexingLoop(ts, 1, NamedVariable("a")) == Parsed(Ok(indexed), 4);
    assert FieldLoop(ts, 4, indexed) == Parsed(Ok(field), 6);
    assert ArrowLoop(ts, 6, field) == Parsed(Ok(ArrowAccess("g", field)), 8);
    assert PostfixLoop(ts, 8, ArrowAccess("g", field)) == Parsed(Ok(ArrowAccess("g", field)), 8);
    assert PostfixLoop(ts, 6, field) == Parsed(Ok(ArrowAccess("g", field)), 8);
    assert PostfixLoop(ts, 4, indexed) == Parsed(Ok(ArrowAccess("g", field)), 8);
    assert PostfixLoop(ts, 1, NamedVariable("a")) == Parsed(Ok(ArrowAccess("g", field)), 8);
  }

  /** A name, then `=`, then an expression that ends before `p`, is an assignment to the name. */
  lemma AssignName(ts: seq<TokenView>, pos: nat, value: Expression, p: nat)
    requires pos + 2 < |ts| && ts[pos].token == IDENT && ts[pos + 1].token == ASSIGN
    requires ParseExpression(ts, pos + 2) == Parsed(Ok(value), p)
    ensures ParseExpression(ts, pos) == Parsed(Ok(Assign(VariableAssignment(ts[pos].str, value))), p)
  {
    NamedOperand(ts, pos, 0);
  }

  /** `a = b = c ;` nests to the right: `a = (b = c)`. */
  lemma AssignmentNestsRight()
    ensures var ts := [Name("a"), V(ASSIGN, "="), Name("b"), V(ASSIGN, "="), Name("c"), V(SEMIC, ";")];
      ParseExpression(ts, 0) == Parsed(Ok(Assign(VariableAssignment("a", Assign(VariableAssignment("b", NamedVariable("c")))))), 5)
  {
    var ts := [Name("a"), V(ASSIGN, "="), Name("b"), V(ASSIGN, "="), Name("c"), V(SEMIC, ";")];
    NameExpression(ts, 4);
    AssignName(ts, 2, NamedVariable("c"), 5);
    AssignName(ts, 0, Assign(VariableAssignment("b", NamedVariable("c"))), 5);
  }

  /** `a * b ;` declares `b` as a pointer to `a`, with no multiplication in sight. */
  lemma ProductStatementDeclares()
    ensures var ts := [Name("a"), V(MUL, "*"), Name("b"), V(SEMIC, ";"), V(EOF, "")];
      ParseStatement(ts, 0) == Parsed(Ok(VariableDeclaration("b", Pointer(Named("a")), None)), 4)
  {
    var ts := [Name("a"), V(MUL, "*"), Name("b"), V(SEMIC, ";"), V(EOF, "")];
    assert PointerLoop(ts, 1, Named("a")) == Parsed(Ok(Pointer(Named("a"))), 2);
    assert ParseTypeExpression(ts, 0) == Parsed(Ok(Pointer(Named("a"))), 2);
    DeclarationForms(ts, 0, 2);
  }

  /** `int x [ ] ;` declares `x` as a pointer to `int`. */
  lemma ArrayDeclarationIsPointer()
    ensures var ts := [V(INT, "int"), Name("x"), V(LBRACE, "["), V(RBRACE, "]"), V(SEMIC, ";"), V(EOF, "")];
      ParseStatement(ts, 0) == Parsed(Ok(VariableDeclaration("x", Pointer(Primitive(INT)), None)), 5)
  {
    var ts := [V(INT, "int"), Name("x"), V(LBRACE, "["), V(RBRACE, "]"), V(SEMIC, ";"), V(EOF, "")];
    assert ParseTypeExpression(ts, 0) == Parsed(Ok(Primitive(INT)), 1);
    DeclarationForms(ts, 0, 1);
  }

  /** `x = y ;` starts like a declaration of type `x`; with no name after it, it is read again as an assignment. */
  lemma AssignmentStatementFallsBack()
    ensures var ts := [Name("x"), V(ASSIGN, "="), Name("y"), V(SEMIC, ";"), V(EOF, "")];
      ParseStatement(ts, 0) == Parsed(Ok(SingleExpression(Assign(VariableAssignment("x", NamedVariable("y"))))), 4)
  {
    var ts := [Name("x"), V(ASSIGN, "="), Name("y"), V(SEMIC, ";"), V(EOF, "")];
    NameExpression(ts, 2);
    AssignName(ts, 0, NamedVariable("y"), 3);
    assert ParseTypeExpression(ts, 0) == Parsed(Ok(Named("x")), 1);
    DeclarationFallsBack(ts, 0);
  }

  /** `( name )`, as a condition. */
  lemma ParenthesisedName(ts: seq<TokenView>, pos: nat)
    requires pos + 2 < |ts| && ts[pos].token == LPAREN && ts[pos + 1].token == IDENT && ts[pos + 2].token == RPAREN
    ensures ParseParenthesised(ts, pos) == Parsed(Ok(NamedVariable(ts[pos + 1].str)), pos + 3)
  {
    NameExpression(ts, pos + 1);
  }

  /** `if ( a ) if ( b ) x ; else y ;`: the `else` belongs to the inner `if`. */
  lemma DanglingElse()
    ensures var ts := [V(IF, "if"), V(LPAREN, "("), Name("a"), V(RPAREN, ")"),
                       V(IF, "if"), V(LPAREN, "("), Name("b"), V(RPAREN, ")"),
                       Name("x"), V(SEMIC, ";"), V(ELSE, "else"), Name("y"), V(SEMIC, ";"), V(EOF, "")];
      var inner := IfStatement(Compound([SingleExpression(NamedVariable("x"))]), NamedVariable("b"),
                               ElseCompound(Compound([SingleExpression(NamedVariable("y"))])));
      ParseIf(ts, 0) == Parsed(Ok(IfStatement(Compound([If(inner)]), NamedVariable("a"), NoElse)), 13)
  {
    var ts := [V(IF, "if"), V(LPAREN, "("), Name("a"), V(RPAREN, ")"),
               V(IF, "if"), V(LPAREN, "("), Name("b"), V(RPAREN, ")"),
               Name("x"), V(SEMIC, ";"), V(ELSE, "else"), Name("y"), V(SEMIC, ";"), V(EOF, "")];
    var inner := IfStatement(Compound([SingleExpression(NamedVariable("x"))]), NamedVariable("b"),
                             ElseCompound(Compound([SingleExpression(NamedVariable("y"))])));
    ParenthesisedName(ts, 1);
    ParenthesisedName(ts, 5);
    NameStatement(ts, 8);
    NameStatement(ts, 11);
    SingleStatementCompound(ts, 8);
    SingleStatementCompound(ts, 11);
    assert ParseIf(ts, 4) == Parsed(Ok(inner), 13);
    assert ParseStatement(ts, 4) == Parsed(Ok(If(inner)), 13);
    SingleStatementCompound(ts, 4);
  }

  /** `for ( ; ; ) ;`: the empty init statement, the condition `1`, no post expression. */
  lemma ForDefaults()
    ensures var ts := [V(FOR, "for"), V(LPAREN, "("), V(SEMIC, ";"), V(SEMIC, ";"), V(RPAREN, ")"), V(SEMIC, ";"), V(EOF, "")];
      ParseFor(ts, 0) == Parsed(Ok(ForStatement(Empty, IntLiteral(1), None, Compound([Empty]))), 6)
  {
    var ts := [V(FOR, "for"), V(LPAREN, "("), V(SEMIC, ";"), V(SEMIC, ";"), V(RPAREN, ")"), V(SEMIC, ";"), V(EOF, "")];
    assert ParseStatement(ts, 2) == Parsed(Ok(Empty), 3);
    assert ParseStatement(ts, 5) == Parsed(Ok(Empty), 6);
    SingleStatementCompound(ts, 5);
  }

  /** `int name` as a parameter or a return type and function name. */
  lemma IntName(ts: seq<TokenView>, pos: nat)
    requires pos + 2 < |ts| && ts[pos].token == INT && ts[pos + 1].token == IDENT && ts[pos + 2].token != MUL
    ensures ParseTypeExpression(ts, pos) == Parsed(Ok(Primitive(INT)), pos + 1)
  {
  }

  /** `int f ( int a , int b ) ;` is a prototype with its parameters in order. */
  lemma PrototypeParameters()
    ensures var ts := [V(INT, "int"), Name("f"), V(LPAREN, "("), V(INT, "int"), Name("a"), V(COMMA, ","),
                       V(INT, "int"), Name("b"), V(RPAREN, ")"), V(SEMIC, ";"), V(EOF, "")];
      ParseFunction(ts, 0) == Parsed(Ok(Function("f", None, [(Primitive(INT), "a"), (Primitive(INT), "b")], Primitive(INT))), 10)
  {
    var ts := [V(INT, "int"), Name("f"), V(LPAREN, "("), V(INT, "int"), Name("a"), V(COMMA, ","),
               V(INT, "int"), Name("b"), V(RPAREN, ")"), V(SEMIC, ";"), V(EOF, "")];
    IntName(ts, 0);
    IntName(ts, 3);
    IntName(ts, 6);
    var both := [(Primitive(INT), "a"), (Primitive(INT), "b")];
    assert [(Primitive(INT), "a")] + [(Primitive(INT), "b")] == both;
    assert [] + [(Primitive(INT), "a")] == [(Primitive(INT), "a")];
    assert ParameterLoop(ts, 6, [(Primitive(INT), "a")]) == Parsed(Ok(both), 8);
    assert ParameterLoop(ts, 3, []) == Parsed(Ok(both), 8);
  }

  /** `int f ( int a , ) ;`: a comma before `)` is accepted. */
  lemma TrailingParameterComma()
    ensures var ts := [V(INT, "int"), Name("f"), V(LPAREN, "("), V(INT, "int"), Name("a"), V(COMMA, ","),
                       V(RPAREN, ")"), V(SEMIC, ";"), V(EOF, "")];
      ParseFunction(ts, 0) == Parsed(Ok(Function("f", None, [(Primitive(INT), "a")], Primitive(INT))), 8)
  {
    var ts := [V(INT, "int"), Name("f"), V(LPAREN, "("), V(INT, "int"), Name("a"), V(COMMA, ","),
               V(RPAREN, ")"), V(SEMIC, ";"), V(EOF, "")];
    IntName(ts, 0);
    IntName(ts, 3);
    assert [] + [(Primitive(INT), "a")] == [(Primitive(INT), "a")];
    assert ParameterLoop(ts, 6, [(Primitive(INT), "a")]) == Parsed(Ok([(Primitive(INT), "a")]), 6);
    assert ParameterLoop(ts, 3, []) == Parsed(Ok([(Primitive(INT), "a")]), 6);
  }

  /** `int f ( int a int b ) ;`: between two parameters the comma is required. */
  lemma MissingParameterComma()
    ensures var ts := [V(INT, "int"), Name("f"), V(LPAREN, "("), V(INT, "int"), Name("a"),
                       V(INT, "int"), Name("b"), V(RPAREN, ")"), V(SEMIC, ";"), V(EOF, "")];
      ParseFunction(ts, 0).result == Err(UnexpectedToken(COMMA, INT, 5))
  {
    var ts := [V(INT, "int"), Name("f"), V(LPAREN, "("), V(INT, "int"), Name("a"),
               V(INT, "int"), Name("b"), V(RPAREN, ")"), V(SEMIC, ";"), V(EOF, "")];
    IntName(ts, 0);
    IntName(ts, 3);
    assert ParameterLoop(ts, 3, []) == Parsed(Err(UnexpectedToken(COMMA, INT, 5)), 6);
  }

  /**
   * `struct S f ( ) ;` at the top level goes to the statement parser as a
   * declaration of `f`, which then wants `;` where `(` stands.
   */
  lemma StructFunctionAtTopLevel()
    ensures var ts := [V(STRUCT, "struct"), Name("S"), Name("f"), V(LPAREN, "("), V(RPAREN, ")"), V(SEMIC, ";"), V(EOF, "")];
      ParseProgram(ts).result == Err(UnexpectedToken(SEMIC, LPAREN, 3))
  {
    var ts := [V(STRUCT, "struct"), Name("S"), Name("f"), V(LPAREN, "("), V(RPAREN, ")"), V(SEMIC, ";"), V(EOF, "")];
    assert "struct " + "S" == "struct S";
    assert ParseStructType(ts, 1) == Parsed(Ok(NamedStruct("struct S")), 2);
    assert ParseTypeExpression(ts, 0) == Parsed(Ok(NamedStruct("struct S")), 2);
    assert ParseDeclaration(ts, 0) == Parsed(Ok(VariableDeclaration("f", NamedStruct("struct S"), None)), 3);
    assert ParseStatement(ts, 0) == Parsed(Err(UnexpectedToken(SEMIC, LPAREN, 3)), 4);
    assert DeclarationLoop(ts, 0, []).result == Err(UnexpectedToken(SEMIC, LPAREN, 3));
  }

  /** `{ . x = y , }`: a struct literal, with a trailing comma accepted. */
  lemma StructLiteralTrailingComma()
    ensures var ts := [V(LCURL, "{"), V(DOT, "."), Name("x"), V(ASSIGN, "="), Name("y"), V(COMMA, ","), V(RCURL, "}"), V(SEMIC, ";")];
      ParseLiteral(ts, 0) == Parsed(Ok(StructLiteral(StructExpression([("x", NamedVariable("y"))]))), 7)
  {
    var ts := [V(LCURL, "{"), V(DOT, "."), Name("x"), V(ASSIGN, "="), Name("y"), V(COMMA, ","), V(RCURL, "}"), V(SEMIC, ";")];
    NameExpression(ts, 4);
    assert [] + [("x", NamedVariable("y"))] == [("x", NamedVariable("y"))];
    assert ParseStructExpression(ts, 6, [("x", NamedVariable("y"))]) == Parsed(Ok(StructExpression([("x", NamedVariable("y"))])), 7);
    assert ParseStructExpression(ts, 1, []) == Parsed(Ok(StructExpression([("x", NamedVariable("y"))])), 7);
  }

  /** `{ }` is an array literal with no elements; `{ a b , }` one of two, commas optional. */
  lemma ArrayLiterals()
    ensures var ts := [V(LCURL, "{"), V(RCURL, "}"), V(SEMIC, ";")];
      ParseLiteral(ts, 0) == Parsed(Ok(Array(StackArray([]))), 2)
    ensures var ts := [V(LCURL, "{"), Name("a"), Name("b"), V(COMMA, ","), V(RCURL, "}"), V(SEMIC, ";")];
      ParseLiteral(ts, 0) == Parsed(Ok(Array(StackArray([NamedVariable("a"), NamedVariable("b")]))), 5)
  {
    var empty := [V(LCURL, "{"), V(RCURL, "}"), V(SEMIC, ";")];
    assert ArrayLoop(empty, 1, []) == Parsed(Ok([]), 1);
    assert ParseArray(empty, 1) == Parsed(Ok(StackArray([])), 2);
    var ts := [V(LCURL, "{"), Name("a"), Name("b"), V(COMMA, ","), V(RCURL, "}"), V(SEMIC, ";")];
    NameExpression(ts, 1);
    NameExpression(ts, 2);
    var both := [NamedVariable("a"), NamedVariable("b")];
    assert [NamedVariable("a")] + [NamedVariable("b")] == both;
    assert [] + [NamedVariable("a")] == [NamedVariable("a")];
    assert ArrayLoop(ts, 4, both) == Parsed(Ok(both), 4);
    assert ArrayLoop(ts, 2, [NamedVariable("a")]) == Parsed(Ok(both), 4);
    assert ArrayLoop(ts, 1, []) == Parsed(Ok(both), 4);
  }

  /** `struct N { int a ; }`: a struct type named `struct N` with its field. */
  lemma StructType()
    ensures var ts := [V(STRUCT, "struct"), Name("N"), V(LCURL, "{"), V(INT, "int"), Name("a"), V(SEMIC, ";"), V(RCURL, "}"), Name("n")];
      ParseTypeExpression(ts, 0) == Parsed(Ok(Struct("struct N", [("a", Primitive(INT))])), 7)
  {
    var ts := [V(STRUCT, "struct"), Name("N"), V(LCURL, "{"), V(INT, "int"), Name("a"), V(SEMIC, ";"), V(RCURL, "}"), Name("n")];
    IntName(ts, 3);
    assert [] + [("a", Primitive(INT))] == [("a", Primitive(INT))];
    assert "struct " + "N" == "struct N";
    assert FieldLines(ts, 6, [("a", Primitive(INT))]) == Parsed(Ok([("a", Primitive(INT))]), 6);
    assert FieldLines(ts, 3, []) == Parsed(Ok([("a", Primitive(INT))]), 6);
    assert ParseStructType(ts, 1) == Parsed(Ok(Struct("struct N", [("a", Primitive(INT))])), 7);
  }

  /** Character literals: the character after the quote, `\n` and `\t` decoded, other escapes literal. */
  lemma CharacterLiterals()
    ensures CharValue("'a'") == Some('a' as nat)
    ensures CharValue("'\\n'") == Some(10) && CharValue("'\\t'") == Some(9)
    ensures CharValue("'\\0'") == Some('0' as nat)
    ensures CharValue("'") == None
  {
  }
}
