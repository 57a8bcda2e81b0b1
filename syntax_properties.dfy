/**
 * What the newer parser promises for every token sequence: operators of one
 * level fold to the left, suffixes wrap from the inside out, assignment
 * targets are classified, simple statements end in `;`, declarations take
 * their three forms or fall back to an expression, loops keep the source
 * order, and a program that parses consumes every token up to the EOF.
 */
module SyntaxProperties {
  import opened Util
  import opened Tokens
  import opened Syntax
  import opened SyntaxParser
  import Lexer

  // ---- binary levels (src/parser/ast/expression.rs) ----

  /** A token that ends an operand read at `level`: no suffix, no call, no operator of that level or tighter. */
  predicate Closes(t: Token, level: nat) {
    && t != LPAREN && t != LBRACE && t != DOT && t != ARROW
    && forall k :: level <= k < |Levels| ==> t !in Levels[k]
  }

  /** An operator of one level is on no other level. */
  lemma OneLevel(t: Token, level: nat, k: nat)
    requires level < |Levels| && k < |Levels| && t in Levels[level] && t in Levels[k]
    ensures k == level
  {
    LevelsHoldOperators(level, t);
    LevelsHoldOperators(k, t);
  }

  /** An operator of `level` closes an operand of every tighter level. */
  lemma OperatorCloses(t: Token, level: nat)
    requires level < |Levels| && t in Levels[level]
    ensures Closes(t, level + 1)
  {
    forall k | level + 1 <= k < |Levels|
      ensures t !in Levels[k]
    {
      if t in Levels[k] {
        OneLevel(t, level, k);
      }
    }
  }

  /** An identifier with a closing token after it is a variable at every level, and nothing more. */
  lemma {:induction false} NamedOperand(ts: seq<TokenView>, pos: nat, level: nat)
    requires pos + 1 < |ts| && level <= |Levels|
    requires ts[pos].token == IDENT && Closes(ts[pos + 1].token, level)
    ensures ParseBinary(ts, pos, level) == Parsed(Ok(NamedVariable(ts[pos].str)), pos + 1)
    decreases |Levels| - level
  {
    if level == |Levels| {
      var e := NamedVariable(ts[pos].str);
      assert ParseLiteral(ts, pos) == Parsed(Ok(e), pos + 1);
      assert PostfixLoop(ts, pos + 1, e) == Parsed(Ok(e), pos + 1);
      assert ParseFactor(ts, pos) == ParsePostfix(ts, pos);
    } else {
      NamedOperand(ts, pos, level + 1);
    }
  }

  /** An operand a tighter level has read stays as it is when this level's operators do not follow. */
  lemma Lift(ts: seq<TokenView>, pos: nat, level: nat, e: Expression, p: nat)
    requires pos <= |ts| && level < |Levels|
    requires ParseBinary(ts, pos, level + 1) == Parsed(Ok(e), p)
    requires p < |ts| && ts[p].token !in Levels[level]
    ensures ParseBinary(ts, pos, level) == Parsed(Ok(e), p)
  {
  }

  /** An expression read at some level is the whole expression when no looser operator or `=` follows. */
  lemma {:induction false} LiftToExpression(ts: seq<TokenView>, pos: nat, level: nat, e: Expression, p: nat)
    requires pos <= |ts| && level <= |Levels|
    requires ParseBinary(ts, pos, level) == Parsed(Ok(e), p)
    requires p < |ts| && ts[p].token != ASSIGN && forall k :: 0 <= k < level ==> ts[p].token !in Levels[k]
    ensures ParseExpression(ts, pos) == Parsed(Ok(e), p)
    decreases level
  {
    if level > 0 {
      Lift(ts, pos, level - 1, e, p);
      LiftToExpression(ts, pos, level - 1, e, p);
    }
  }

  /** `lhs`, then each operator applied to the next name, folded to the left. */
  function Fold(lhs: Expression, ops: seq<BinaryOp>, names: seq<string>): Expression
    requires |ops| == |names|
    decreases |ops|
  {
    if ops == [] then lhs
    else Fold(BinaryExpression(lhs, NamedVariable(names[0]), ops[0]), ops[1..], names[1..])
  }

  /**
   * At `q` the views spell `ops[0] names[0] ops[1] names[1] …` with every
   * operator of `level`, then a token that closes the level.
   */
  predicate RestAt(ts: seq<TokenView>, q: nat, ops: seq<BinaryOp>, names: seq<string>, level: nat)
    decreases |ops|
  {
    && |ops| == |names| && level < |Levels| && q < |ts|
    && if ops == [] then Closes(ts[q].token, level)
       else
         && q + 2 < |ts| && ts[q].token == ops[0] && ops[0] in Levels[level]
         && ts[q + 1].token == IDENT && ts[q + 1].str == names[0]
         && RestAt(ts, q + 2, ops[1..], names[1..], level)
  }

  /** The token after a name of the rest closes the tighter level. */
  lemma RestCloses(ts: seq<TokenView>, q: nat, ops: seq<BinaryOp>, names: seq<string>, level: nat)
    requires RestAt(ts, q, ops, names, level)
    ensures Closes(ts[q].token, level + 1)
  {
    if ops != [] {
      OperatorCloses(ops[0], level);
    }
  }

  /** The loop of a level reads the whole rest and folds it onto what it had, to the left. */
  lemma {:induction false} LoopFolds(ts: seq<TokenView>, q: nat, level: nat, lhs: Expression, ops: seq<BinaryOp>, names: seq<string>)
    requires RestAt(ts, q, ops, names, level)
    ensures BinaryLoop(ts, q, level, lhs) == Parsed(Ok(Fold(lhs, ops, names)), q + 2 * |ops|)
    decreases |ops|
  {
    if ops != [] {
      RestCloses(ts, q + 2, ops[1..], names[1..], level);
      NamedOperand(ts, q + 1, level + 1);
      LoopStep(ts, q, level, lhs, ops[0], names[0]);
      LoopFolds(ts, q + 2, level, BinaryExpression(lhs, NamedVariable(names[0]), ops[0]), ops[1..], names[1..]);
    }
  }

  /** One round of a level's loop over `op name`. */
  lemma LoopStep(ts: seq<TokenView>, q: nat, level: nat, lhs: Expression, op: BinaryOp, name: string)
    requires q + 1 < |ts| && level < |Levels| && ts[q].token == op && op in Levels[level]
    requires ParseBinary(ts, q + 1, level + 1) == Parsed(Ok(NamedVariable(name)), q + 2)
    ensures BinaryLoop(ts, q, level, lhs) == BinaryLoop(ts, q + 2, level, BinaryExpression(lhs, NamedVariable(name), op))
  {
  }

  /**
   * Operators of one level are left-associative: a name followed by
   * operators of the level and names reads as their left fold, `a-b-c` as
   * `(a-b)-c`, up to the closing token.
   */
  lemma LeftAssociative(ts: seq<TokenView>, pos: nat, level: nat, ops: seq<BinaryOp>, names: seq<string>)
    requires pos < |ts| && ts[pos].token == IDENT && RestAt(ts, pos + 1, ops, names, level)
    ensures ParseBinary(ts, pos, level) == Parsed(Ok(Fold(NamedVariable(ts[pos].str), ops, names)), pos + 1 + 2 * |ops|)
  {
    RestCloses(ts, pos + 1, ops, names, level);
    NamedOperand(ts, pos, level + 1);
    LoopFolds(ts, pos + 1, level, NamedVariable(ts[pos].str), ops, names);
  }

  /** The fold nests to the left: the first operator ends up innermost. */
  lemma FoldNestsLeft(a: Expression, b: string, c: string, o1: BinaryOp, o2: BinaryOp)
    ensures Fold(a, [o1, o2], [b, c]) == BinaryExpression(BinaryExpression(a, NamedVariable(b), o1), NamedVariable(c), o2)
  {
    var inner := BinaryExpression(a, NamedVariable(b), o1);
    assert [o1, o2][1..] == [o2] && [b, c][1..] == [c];
    assert Fold(a, [o1, o2], [b, c]) == Fold(inner, [o2], [c]);
    assert Fold(inner, [o2], [c]) == Fold(BinaryExpression(inner, NamedVariable(c), o2), [], []);
  }

  /** `e` is `inner` with index, field and arrow suffixes around it. */
  predicate Wraps(e: Expression, inner: Expression) {
    e == inner || ((e.Indexing? || e.FieldAccess? || e.ArrowAccess?) && Wraps(e.operand, inner))
  }

  /** Wrapping twice is wrapping. */
  lemma {:induction false} WrapsTransitive(e: Expression, middle: Expression, inner: Expression)
    requires Wraps(e, middle) && Wraps(middle, inner)
    ensures Wraps(e, inner)
  {
    if e != middle {
      WrapsTransitive(e.operand, middle, inner);
    }
  }

  /** Each `[e]` run wraps what came before it. */
  lemma {:induction false} IndexingWraps(ts: seq<TokenView>, pos: nat, operand: Expression)
    requires pos <= |ts|
    ensures IndexingLoop(ts, pos, operand).result.Ok? ==> Wraps(IndexingLoop(ts, pos, operand).result.value, operand)
    decreases |ts| - pos
  {
    if pos < |ts| && ts[pos].token == LBRACE {
      var index := ParseExpression(ts, pos + 1);
      if index.result.Ok? {
        var close := Expect(ts, index.pos, RBRACE);
        if close.result.Ok? {
          var next := Indexing(index.result.value, operand);
          IndexingWraps(ts, close.pos, next);
          if IndexingLoop(ts, close.pos, next).result.Ok? {
            WrapsTransitive(IndexingLoop(ts, close.pos, next).result.value, next, operand);
          }
        }
      }
    }
  }

  /** Each `.name` run wraps what came before it. */
  lemma {:induction false} FieldWraps(ts: seq<TokenView>, pos: nat, operand: Expression)
    requires pos <= |ts|
    ensures FieldLoop(ts, pos, operand).result.Ok? ==> Wraps(FieldLoop(ts, pos, operand).result.value, operand)
    decreases |ts| - pos
  {
    if pos < |ts| && ts[pos].token == DOT {
      var name := Expect(ts, pos + 1, IDENT);
      if name.result.Ok? {
        var next := FieldAccess(name.result.value, operand);
        FieldWraps(ts, name.pos, next);
        if FieldLoop(ts, name.pos, next).result.Ok? {
          WrapsTransitive(FieldLoop(ts, name.pos, next).result.value, next, operand);
        }
      }
    }
  }

  /** Each `->name` run wraps what came before it. */
  lemma {:induction false} ArrowWraps(ts: seq<TokenView>, pos: nat, operand: Expression)
    requires pos <= |ts|
    ensures ArrowLoop(ts, pos, operand).result.Ok? ==> Wraps(ArrowLoop(ts, pos, operand).result.value, operand)
    decreases |ts| - pos
  {
    if pos < |ts| && ts[pos].token == ARROW {
      var name := Expect(ts, pos + 1, IDENT);
      if name.result.Ok? {
        var next := ArrowAccess(name.result.value, operand);
        ArrowWraps(ts, name.pos, next);
        if ArrowLoop(ts, name.pos, next).result.Ok? {
          WrapsTransitive(ArrowLoop(ts, name.pos, next).result.value, next, operand);
        }
      }
    }
  }

  /** Suffixes chain from left to right: what the literal was stays innermost. */
  lemma {:induction false} SuffixesWrap(ts: seq<TokenView>, pos: nat, e: Expression)
    requires pos <= |ts|
    ensures PostfixLoop(ts, pos, e).result.Ok? ==> Wraps(PostfixLoop(ts, pos, e).result.value, e)
    decreases |ts| - pos
  {
    if pos < |ts| {
      var t := ts[pos].token;
      if t == LBRACE || t == DOT || t == ARROW {
        var run := if t == LBRACE then IndexingLoop(ts, pos, e)
          else if t == DOT then FieldLoop(ts, pos, e)
          else ArrowLoop(ts, pos, e);
        if run.result.Ok? {
          if t == LBRACE { IndexingWraps(ts, pos, e); }
          else if t == DOT { FieldWraps(ts, pos, e); }
          else { ArrowWraps(ts, pos, e); }
          SuffixesWrap(ts, run.pos, run.result.value);
          if PostfixLoop(ts, run.pos, run.result.value).result.Ok? {
            WrapsTransitive(PostfixLoop(ts, run.pos, run.result.value).result.value, run.result.value, e);
          }
        }
      }
    }
  }

  /** A cast is only ever made of a factor that began with `(`. */
  lemma CastNeedsParenthesis(ts: seq<TokenView>, pos: nat)
    requires pos < |ts| && ts[pos].token != LPAREN && !IsUnaryOperator(ts[pos].token)
    ensures ParseFactor(ts, pos) == ParsePostfix(ts, pos)
  {
  }

  /** A unary operator applies to the factor after it, with the operator its token names. */
  lemma UnaryApplies(ts: seq<TokenView>, pos: nat)
    requires pos < |ts| && IsUnaryOperator(ts[pos].token)
    ensures var r := ParseFactor(ts, pos);
      r.result.Ok? ==>
        && ParseFactor(ts, pos + 1).result.Ok?
        && r == Parsed(Ok(Unary(ParseFactor(ts, pos + 1).result.value, UnaryOpOf(ts[pos].token))), ParseFactor(ts, pos + 1).pos)
  {
  }

  /** The operators the five unary tokens stand for. */
  lemma UnaryTable()
    ensures UnaryOpOf(SUB) == Neg && UnaryOpOf(LOGNEG) == LogNeg && UnaryOpOf(MUL) == Deref
    ensures UnaryOpOf(REF) == Ref && UnaryOpOf(COMPLEMENT) == Complement
  {
  }

  /** Integer literals: the decimal text of `n` reads as `n` exactly when `n` fits an `i32`; past it the parser panics. */
  lemma IntValueOfDecimal(n: nat)
    ensures IntValue(NatToString(n)) == if n < 0x8000_0000 then Some(n) else None
  {
    var s := NatToString(n);
    assert !Lexer.IsWhiteSpace(s[0]) && !Lexer.IsWhiteSpace(s[|s| - 1]);
    assert Lexer.TrimStart(s) == s;
    assert Lexer.Trim(s) == s;
    DigitsValueOfNatToString(n);
  }

  // ---- assignment (src/parser/ast/assignment.rs) ----

  /**
   * After `=`, the target decides: a variable, an element, a dereference and
   * the two field accesses are written to with the value read after `=`;
   * any other target is `UnableToAssign` at the token after `=`.
   */
  lemma AssignmentTargets(ts: seq<TokenView>, pos: nat, target: Expression)
    requires pos < |ts| && ts[pos].token == ASSIGN
    ensures var r := ParseAssignment(ts, pos, target);
      var value := ParseExpression(ts, pos + 1);
      && (!Assignable(target) ==> r == Parsed(Err(UnableToAssign(pos + 1)), pos + 1))
      && (Assignable(target) && value.result.Err? ==> r.result == Err(value.result.error))
      && (Assignable(target) && value.result.Ok? ==>
          && r.pos == value.pos && r.result.Ok?
          && (match target
              case NamedVariable(name) => r.result.value == VariableAssignment(name, value.result.value)
              case Indexing(index, operand) => r.result.value == ArrayAssignment(index, value.result.value, operand)
              case Unary(address, _) => r.result.value == PtrAssignment(value.result.value, address)
              case FieldAccess(name, operand) => r.result.value == FieldAssignment(name, value.result.value, operand)
              case ArrowAccess(name, operand) => r.result.value == FieldAssignment(name, value.result.value, operand)
              case _ => false))
  {
  }

  /** Exactly variables, elements, dereferences and field accesses can be assigned to. */
  lemma AssignableShapes(target: Expression)
    ensures Assignable(target) <==>
      target.NamedVariable? || target.Indexing? || target.FieldAccess? || target.ArrowAccess?
      || (target.Unary? && target.operation == Deref)
    ensures target.Unary? && target.operation != Deref ==> !Assignable(target)
  {
  }

  /** `.` and `->` targets make the same assignment: the difference is lost. */
  lemma ArrowAssignmentLost(ts: seq<TokenView>, pos: nat, name: string, operand: Expression)
    requires pos <= |ts|
    ensures ParseAssignment(ts, pos, FieldAccess(name, operand)) == ParseAssignment(ts, pos, ArrowAccess(name, operand))
  {
  }

  // ---- statements (src/parser/ast/statement.rs) ----

  /** Every statement but `if`, `for`, `while` and a block ends with the `;` it consumed. */
  lemma SimpleStatementsEndInSemicolon(ts: seq<TokenView>, pos: nat)
    requires pos < |ts|
    requires ts[pos].token != IF && ts[pos].token != FOR && ts[pos].token != WHILE && ts[pos].token != LCURL
    ensures var r := ParseStatement(ts, pos);
      r.result.Ok? ==> 0 < r.pos && ts[r.pos - 1].token == SEMIC
  {
  }

  /** A declared name: the type expression, then the identifier. */
  predicate DeclaredAt(ts: seq<TokenView>, pos: nat, p: nat) {
    && pos < |ts| && IsTypeStart(ts[pos].token)
    && ParseTypeExpression(ts, pos).result.Ok? && ParseTypeExpression(ts, pos).pos == p
    && p < |ts| && ts[p].token == IDENT
  }

  /**
   * The three forms of a declaration: `T n;`, `T n[];` (a pointer to `T`)
   * and `T n = e;` (with the assignment of `e` to `n`).
   */
  lemma DeclarationForms(ts: seq<TokenView>, pos: nat, p: nat)
    requires DeclaredAt(ts, pos, p) && p + 1 < |ts|
    ensures var t := ParseTypeExpression(ts, pos).result.value;
      var name := ts[p].str;
      && (ts[p + 1].token == SEMIC ==>
          ParseStatement(ts, pos) == Parsed(Ok(VariableDeclaration(name, t, None)), p + 2))
      && (p + 3 < |ts| && ts[p + 1].token == LBRACE && ts[p + 2].token == RBRACE && ts[p + 3].token == SEMIC ==>
          ParseStatement(ts, pos) == Parsed(Ok(VariableDeclaration(name, Pointer(t), None)), p + 4))
      && (var e := ParseExpression(ts, p + 2);
          ts[p + 1].token == ASSIGN && e.result.Ok? && e.pos < |ts| && ts[e.pos].token == SEMIC ==>
          ParseStatement(ts, pos) == Parsed(Ok(VariableDeclaration(name, t, Some(VariableAssignment(name, e.result.value)))), e.pos + 1))
  {
    assert ts[pos].token != IF && ts[pos].token != FOR && ts[pos].token != WHILE;
  }

  /**
   * When no identifier follows the type (and no `[`), the cursor goes back
   * to where the type began and the statement is the expression read from there.
   */
  lemma DeclarationFallsBack(ts: seq<TokenView>, pos: nat)
    requires pos < |ts| && IsTypeStart(ts[pos].token)
    requires var t := ParseTypeExpression(ts, pos);
      t.result.Ok? && t.pos + 1 < |ts| && ts[t.pos].token != IDENT && ts[t.pos + 1].token != LBRACE
    ensures var e := ParseExpression(ts, pos);
      ParseDeclaration(ts, pos) == (if e.result.Ok? then Parsed(Ok(SingleExpression(e.result.value)), e.pos) else Fail(e))
  {
  }

  /** `return;` is a return without a value, its own `;` consumed. */
  lemma ReturnWithoutValue(ts: seq<TokenView>, pos: nat)
    requires pos + 1 < |ts| && ts[pos].token == RETURN && ts[pos + 1].token == SEMIC
    ensures ParseStatement(ts, pos) == Parsed(Ok(Return(None)), pos + 2)
  {
  }

  // ---- compounds and loops keep the source order ----

  /** `{}` is a compound without statements, both braces consumed. */
  lemma EmptyCompound(ts: seq<TokenView>, pos: nat)
    requires pos + 1 < |ts| && ts[pos].token == LCURL && ts[pos + 1].token == RCURL
    ensures ParseCompound(ts, pos) == Parsed(Ok(Compound([])), pos + 2)
  {
  }

  /** Without a brace a compound is the one statement there. */
  lemma SingleStatementCompound(ts: seq<TokenView>, pos: nat)
    requires pos < |ts| && ts[pos].token != LCURL
    ensures var s := ParseStatement(ts, pos);
      ParseCompound(ts, pos) == (if s.result.Ok? then Parsed(Ok(Compound([s.result.value])), s.pos) else Fail(s))
  {
  }

  /**
   * The statement loop keeps what it had and appends in source order: the
   * statement read first comes right after it.
   */
  lemma {:induction false} StatementsInOrder(ts: seq<TokenView>, pos: nat, statements: seq<Statement>)
    requires pos <= |ts|
    ensures var r := StatementLoop(ts, pos, statements);
      r.result.Ok? ==>
        && statements <= r.result.value
        && (ts[pos].token != RCURL ==>
            ParseStatement(ts, pos).result.Ok? && |statements| < |r.result.value|
            && r.result.value[|statements|] == ParseStatement(ts, pos).result.value)
        && r.pos < |ts| && ts[r.pos].token == RCURL
    decreases |ts| - pos
  {
    if pos < |ts| && ts[pos].token != RCURL {
      var s := ParseStatement(ts, pos);
      if s.result.Ok? {
        StatementsInOrder(ts, s.pos, statements + [s.result.value]);
      }
    }
  }

  /**
   * The declaration loop keeps what it had and appends in source order, and
   * stops only on the EOF.
   */
  lemma {:induction false} DeclarationsInOrder(ts: seq<TokenView>, pos: nat, declarations: seq<Declaration>)
    requires pos <= |ts|
    ensures var r := DeclarationLoop(ts, pos, declarations);
      r.result.Ok? ==> declarations <= r.result.value && r.pos < |ts| && ts[r.pos].token == EOF
    decreases |ts| - pos
  {
    if pos < |ts| && ts[pos].token != EOF {
      if ts[pos].token == TYPEDEF || ts[pos].token == STRUCT {
        var s := ParseStatement(ts, pos);
        if s.result.Ok? {
          DeclarationsInOrder(ts, s.pos, declarations + [StatementDeclaration(s.result.value)]);
        }
      } else {
        var f := ParseFunction(ts, pos);
        if f.result.Ok? {
          DeclarationsInOrder(ts, f.pos, declarations + [FunctionDeclaration(f.result.value)]);
        }
      }
    }
  }

  /** A program of a token sequence with one EOF, at its end, uses every token when it parses. */
  lemma ProgramConsumesAll(ts: seq<TokenView>)
    requires |ts| > 0 && ts[|ts| - 1].token == EOF && forall k :: 0 <= k < |ts| - 1 ==> ts[k].token != EOF
    ensures ParseProgram(ts).result.Ok? ==> ParseProgram(ts).pos == |ts|
  {
    DeclarationsInOrder(ts, 0, []);
  }
}
