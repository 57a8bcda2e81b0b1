/**
 * What the type-checking parser (src/parser.rs and the files under
 * src/ast) promises, stated over its parsing functions: the loop-label
 * counter, statements and their `;`, declarations, the two directions of
 * the type checks, assignment targets, type expressions and struct layout,
 * literals, calls, identifiers, operators, scoping of blocks, loops and
 * functions, and the redeclaration check.
 */
module TypedParserProperties {
  import opened Util
  import opened AstTypes
  import opened TypedAst
  import opened ParserScope
  import opened TypedParser
  import Tokens
  import Lexer
  import Scopes

  // ---------------------------------------------------------------------
  // The label counter (src/parser.rs)
  // ---------------------------------------------------------------------

  /** The counter starts at 0, the first label is 1, and each label is larger than the one before. */
  lemma LabelCounter(st: State)
    ensures NewState().labelIndex == 0 && NextLabelIndex(NewState()).0 == 1
    ensures NextLabelIndex(NextLabelIndex(st).1).0 == NextLabelIndex(st).0 + 1
  {
  }

  /**
   * A `break` or `continue` with a label handed out before it, and `;`
   * after it, passes and names the latest label.
   */
  lemma ExitNamesLatestLabel(ts: seq<TokenView>, st: State)
    requires Ready(ts, st) && (Peek(ts, st) == Tokens.BREAK || Peek(ts, st) == Tokens.CONTINUE)
    requires st.labelIndex > 0 && Peek(ts, Skip(ts, st)) == Tokens.SEMIC
    ensures ParseLoopExit(ts, st) == Ok((if Peek(ts, st) == Tokens.BREAK then Break(st.labelIndex) else Continue(st.labelIndex), st.(pos := st.pos + 2)))
  {
  }

  /**
   * The counter is never put back when a loop ends: wherever parsing goes
   * on after a `while`, a `break` passes the inside-a-loop test and names
   * the latest label handed out, at least the loop's own.
   */
  lemma BreakAfterLoopPasses(ts: seq<TokenView>, st: State, w: WhileStatement, next: State, later: State)
    requires Ready(ts, st) && ParseWhile(ts, st) == Ok((w, next))
    requires Ready(ts, later) && Reaches(next, later) && Peek(ts, later) == Tokens.BREAK
    requires Peek(ts, Skip(ts, later)) == Tokens.SEMIC
    ensures later.labelIndex >= w.labelIndex > st.labelIndex
    ensures ParseLoopExit(ts, later) == Ok((Break(later.labelIndex), later.(pos := later.pos + 2)))
  {
    assert LabelsIn(While(w), st.labelIndex, next.labelIndex);
    ExitNamesLatestLabel(ts, later);
  }

  // ---------------------------------------------------------------------
  // Statements (src/ast/statement.rs)
  // ---------------------------------------------------------------------

  /** The keywords the statement parser dispatches on; everything else is a statement ending in `;`. */
  lemma StatementDispatch(ts: seq<TokenView>, st: State)
    requires Ready(ts, st)
    ensures var t := Peek(ts, st);
      && (t == Tokens.CONTINUE || t == Tokens.BREAK ==> ParseStatement(ts, st) == ParseLoopExit(ts, st))
      && (t == Tokens.RETURN ==> ParseStatement(ts, st) == ParseReturn(ts, st))
      && (t !in {Tokens.CONTINUE, Tokens.BREAK, Tokens.RETURN, Tokens.IF, Tokens.FOR, Tokens.WHILE, Tokens.LCURL} ==>
            ParseStatement(ts, st) == ParseSimpleStatement(ts, st))
  {
  }

  /** `;` alone is the empty statement. */
  lemma EmptyStatement(ts: seq<TokenView>, st: State)
    requires Ready(ts, st) && Peek(ts, st) == Tokens.SEMIC
    ensures ParseSimpleStatement(ts, st) == Ok((Empty, st.(pos := st.pos + 1)))
  {
  }

  /** `return;` is `Return(None)` and leaves the `;`, which is then read as an empty statement. */
  lemma ReturnLeavesSemicolon(ts: seq<TokenView>, st: State)
    requires Ready(ts, st) && Peek(ts, st) == Tokens.RETURN && Peek(ts, Skip(ts, st)) == Tokens.SEMIC
    ensures ParseReturn(ts, st) == Ok((Return(None), st.(pos := st.pos + 1)))
  {
  }

  /** The primitive type a keyword names. */
  function Primitive(t: Tokens.Token): (r: DataType)
    ensures r == INT || r == CHAR || r == LONG || r == VOID
  {
    if t == Tokens.INT then INT else if t == Tokens.CHAR then CHAR else if t == Tokens.LONG then LONG else VOID
  }

  /** A primitive keyword with no `*` after it is that type, and consumes one token. */
  lemma PrimitiveType(ts: seq<TokenView>, st: State)
    requires Ready(ts, st)
    requires Peek(ts, st) in {Tokens.INT, Tokens.CHAR, Tokens.LONG, Tokens.VOID} && Peek(ts, Skip(ts, st)) != Tokens.MUL
    ensures ParseTypeExpression(ts, st) == Ok((Primitive(Peek(ts, st)), Skip(ts, st)))
  {
  }

  /** A bare `T;` of a primitive type is a statement holding the type expression. */
  lemma BareTypeStatement(ts: seq<TokenView>, st: State)
    requires Ready(ts, st)
    requires Peek(ts, st) in {Tokens.INT, Tokens.CHAR, Tokens.LONG, Tokens.VOID} && Peek(ts, Skip(ts, st)) == Tokens.SEMIC
    ensures ParseSimpleStatement(ts, st) == Ok((SingleExpression(TypeExpression(Primitive(Peek(ts, st)))), st.(pos := st.pos + 2)))
  {
    PrimitiveType(ts, st);
    assert ParseVariableDeclaration(ts, st) == Ok((SingleExpression(TypeExpression(Primitive(Peek(ts, st)))), Skip(ts, st)));
  }

  /**
   * A statement is a declaration when it starts with a type keyword or a
   * struct or typedef name; any other name starts an expression statement.
   */
  lemma DeclarationStart(ts: seq<TokenView>, st: State)
    requires Ready(ts, st) && ParseSimpleStatement(ts, st).Ok?
    ensures var t := Peek(ts, st);
      var named := t == Tokens.IDENT && (GetStruct(st.scope, ts[st.pos].str).Some? || GetTypedef(st.scope, ts[st.pos].str).Some?);
      var s := ParseSimpleStatement(ts, st).value.0;
      && (IsTypeKeyword(t) || named ==> s.VariableDeclaration? || (s.SingleExpression? && s.expression.TypeExpression?))
      && (t == Tokens.IDENT && !named ==> s.SingleExpression?)
  {
  }

  /**
   * The declarator takes the name after the type, which must not be in
   * scope yet; `[]` after it makes the variable a pointer to the type.
   */
  lemma DeclaratorShape(ts: seq<TokenView>, st: State, t: DataType)
    requires Ready(ts, st) && ParseDeclarator(ts, st, t).Ok?
    ensures var v := ParseDeclarator(ts, st, t).value.0;
      && Peek(ts, st) == Tokens.IDENT && v.name == ts[st.pos].str
      && GetVariable(st.scope, v.name).None?
      && (v.dataType == PTR(t) <==> Peek(ts, Skip(ts, st)) == Tokens.LBRACE)
      && (v.dataType == t <==> Peek(ts, Skip(ts, st)) != Tokens.LBRACE)
  {
    assert t != PTR(t);
  }

  /**
   * The two checks run in opposite directions: an assignment checks that
   * the target's type converts to the value's, a declaration that the
   * value's converts to the variable's.  A `long` target takes an `int`
   * pointer by assignment, while `long x = p` with such a pointer is
   * rejected.
   */
  lemma ChecksRunOppositeWays(ts: seq<TokenView>, st: State)
    ensures CheckDataTypes(ts, st, LONG, PTR(INT)).Ok? && !CanConvert(PTR(INT), LONG)
  {
    CanConvertAsymmetric();
  }

  /** A declaration initialised with an `int` pointer cannot have a `long` variable. */
  lemma InitializerRejectsPointerForLong(ts: seq<TokenView>, st: State, v: Variable)
    requires Ready(ts, st) && v.dataType == LONG && ParseInitializer(ts, st, v).Ok?
    requires ParseInitializer(ts, st, v).value.0.Some?
    ensures TypeOf(ParseInitializer(ts, st, v).value.0.value.expression) != Some(PTR(INT))
  {
    CanConvertAsymmetric();
  }

  // ---------------------------------------------------------------------
  // Assignments (src/ast/assignment.rs)
  // ---------------------------------------------------------------------

  /** Without an assignee the assignment parser fails (the source unwraps it and panics). */
  lemma AssignmentNeedsAssignee(ts: seq<TokenView>, st: State)
    requires Ready(ts, st) && st.assignee.None?
    ensures ParseAssignment(ts, st).Err?
  {
  }

  /**
   * The assignee decides the store: a variable is stored at its offset with
   * its declared type, an indexing through its operand, a `*p` through `p`,
   * and a field at the field's offset; any other assignee is rejected.
   */
  lemma AssignmentTargets(ts: seq<TokenView>, st: State)
    requires Ready(ts, st) && ParseAssignment(ts, st).Ok?
    ensures st.assignee.Some? && Peek(ts, st) == Tokens.ASSIGN
    ensures var a := ParseAssignment(ts, st).value.0;
      match st.assignee.value
      case NamedVariable(offset, t) => a.VariableAssignment? && a.stackOffset == offset && a.dataType == t
      case Indexing(index, operand) => a.ArrayAssignment? && a.index == index && a.address == operand
      case Unary(address, op) => op == Deref && a.PtrAssignment? && a.address == address
      case FieldAccess(offset, _, operand) => a.FieldAssignment? && a.offset == offset && a.address == operand
      case _ => false
  {
  }

  // ---------------------------------------------------------------------
  // Type expressions and struct layout (src/ast/type_expression.rs)
  // ---------------------------------------------------------------------

  /** `t` wrapped in `n` pointer layers, innermost first. */
  function PointerTo(t: DataType, n: nat): DataType
    decreases n
  {
    if n == 0 then t else PointerTo(PTR(t), n - 1)
  }

  /** `n` stars after a type wrap it in `n` pointer layers. */
  lemma {:induction false} StarsAddPointers(ts: seq<TokenView>, st: State, t: DataType, n: nat)
    requires Ready(ts, st) && st.pos + n < |ts|
    requires forall k :: st.pos <= k < st.pos + n ==> ts[k].token == Tokens.MUL
    requires ts[st.pos + n].token != Tokens.MUL
    ensures Pointers(ts, st, t) == Ok((PointerTo(t, n), st.(pos := st.pos + n)))
    decreases n
  {
    if n > 0 {
      StarsAddPointers(ts, Skip(ts, st), PTR(t), n - 1);
    }
  }

  /** A name in a type expression must be a typedef in scope; any token but a type keyword or a name is an error. */
  lemma TypeExpressionStart(ts: seq<TokenView>, st: State)
    requires Ready(ts, st) && ParseTypeExpression(ts, st).Ok?
    ensures Peek(ts, st) in {Tokens.INT, Tokens.CHAR, Tokens.LONG, Tokens.VOID, Tokens.STRUCT, Tokens.IDENT}
    ensures Peek(ts, st) == Tokens.IDENT ==> GetTypedef(st.scope, ts[st.pos].str).Some?
  {
  }

  /** Laid-out fields start where the fields before them end: field k starts at the sizes of fields 0..k-1. */
  lemma LaidOutStarts(fields: seq<Variable>)
    requires LaidOut(fields)
    ensures forall k :: 0 <= k < |fields| ==> fields[k].offset - Size(fields[k].dataType) == FieldsSize(fields[..k])
  {
    forall k | 0 <= k < |fields|
      ensures fields[k].offset - Size(fields[k].dataType) == FieldsSize(fields[..k])
    {
      assert fields[..k + 1][..k] == fields[..k];
    }
  }

  /**
   * A struct defined with a body has the name after `struct`, its fields
   * laid out back to back under distinct names, its size their sum, and is
   * found in scope afterwards.
   */
  lemma StructDefinition(ts: seq<TokenView>, st: State, x: Struct, after: State)
    requires Ready(ts, st) && st.scope.frames != [] && ParseStruct(ts, st) == Ok((STRUCT(x), after))
    requires Peek(ts, Skip(ts, st)) == Tokens.LCURL
    ensures x.name == ts[st.pos].str && LaidOut(x.fields) && DistinctNames(x.fields) && Consistent(x)
    ensures GetStruct(after.scope, x.name) == Some(x)
  {
    var s := Skip(ts, st);
    var body := ParseFieldDeclarations(ts, Skip(ts, s), [], 0).value;
    var close := Skip(ts, body.1);
    AddStructFinds(close.scope, x);
  }

  /**
   * A struct body is read in the scope from before `struct`, where the new
   * struct is not yet registered.  After the `}` the definition is accepted
   * exactly when no struct of that name is found in scope, and it then
   * joins the scope with the fields read.
   */
  lemma StructBodyForms(ts: seq<TokenView>, st: State)
    requires Ready(ts, st) && Peek(ts, st) == Tokens.IDENT && Peek(ts, Skip(ts, st)) == Tokens.LCURL
    ensures Skip(ts, Skip(ts, st)).scope == st.scope
    ensures var body, r := ParseFieldDeclarations(ts, Skip(ts, Skip(ts, st)), [], 0), ParseStruct(ts, st);
      && (body.Err? ==> r == Err(body.error))
      && (body.Ok? ==>
        var close, name := Skip(ts, body.value.1), Expect(ts, st, Tokens.IDENT).value.0;
        var x := NewStruct(name, body.value.0);
        && (r.Ok? <==> GetStruct(close.scope, name).None?)
        && (r.Ok? ==> r.value == (STRUCT(x), close.(scope := AddStruct(close.scope, x)))))
  {
  }

  /** `struct N` without a body is the struct of that name in scope, and an error when there is none. */
  lemma StructReference(ts: seq<TokenView>, st: State)
    requires Ready(ts, st) && Peek(ts, st) == Tokens.IDENT && Peek(ts, Skip(ts, st)) != Tokens.LCURL
    ensures ParseStruct(ts, st).Ok? <==> GetStruct(st.scope, ts[st.pos].str).Some?
    ensures ParseStruct(ts, st).Ok? ==> ParseStruct(ts, st).value == (STRUCT(GetStruct(st.scope, ts[st.pos].str).value), Skip(ts, st))
  {
  }

  // ---------------------------------------------------------------------
  // Array and struct literals (src/ast/array_expression.rs, struct_expression.rs)
  // ---------------------------------------------------------------------

  /** Each element's type equals or converts to the type of the element before it. */
  predicate ExpressionsChain(elements: seq<Expression>) {
    forall k :: 0 < k < |elements| ==> ConvertsTo(elements[k], elements[k - 1])
  }

  /** Both expressions have types, and the first one's equals or converts to the second one's. */
  predicate ConvertsTo(e: Expression, previous: Expression) {
    TypeOf(e).Some? && TypeOf(previous).Some? && (TypeOf(e).value == TypeOf(previous).value || CanConvert(TypeOf(e).value, TypeOf(previous).value))
  }

  /** Typed elements whose types chain are a chain. */
  lemma TypedChain(elements: seq<Expression>, types: seq<DataType>)
    requires ElementsTyped(elements, types) && ChainConverts(types)
    ensures ExpressionsChain(elements)
  {
    forall k | 0 < k < |elements|
      ensures ConvertsTo(elements[k], elements[k - 1])
    {
      assert TypeOf(elements[k]) == Some(types[k]) && TypeOf(elements[k - 1]) == Some(types[k - 1]);
    }
  }

  /** The sizes of a non-empty list of types add up to at least the first one's. */
  lemma {:induction false} SizeSumCoversFirst(types: seq<DataType>)
    requires types != []
    ensures SizeSum(types) >= Size(types[0])
    decreases |types|
  {
    if |types| > 1 {
      SizeSumCoversFirst(types[..|types| - 1]);
    }
  }

  /**
   * An array literal is a string, which takes the next label and has type
   * `char *`, or a non-empty list of elements each converting to the one
   * before, whose first element's type is the base, whose type is a pointer
   * to the base, and which sits at the stack size after its elements, at
   * least the base's size above the stack size before.
   */
  lemma ArrayLayout(ts: seq<TokenView>, st: State, a: ArrayExpression, after: State)
    requires Ready(ts, st) && ParseArrayExpression(ts, st) == Ok((a, after))
    ensures Peek(ts, st) != Tokens.RCURL
    ensures a.StringLiteral? <==> Peek(ts, st) == Tokens.STRINGLIT
    ensures a.StringLiteral? ==> a == StringLiteral(st.labelIndex + 1, ts[st.pos].str) && TypeOf(Array(a)) == Some(PTR(CHAR))
    ensures a.StackArray? ==>
      && |a.expressions| > 0 && a.dataType == PTR(a.baseType) && TypeOf(a.expressions[0]) == Some(a.baseType)
      && ExpressionsChain(a.expressions)
      && a.offset == after.scope.stackSize >= st.scope.stackSize + Size(a.baseType)
  {
    if a.StackArray? {
      var o := ParseElements(ts, st, [], []).value;
      TypedChain(o.0.0, o.0.1);
      SizeSumCoversFirst(o.0.1);
    }
  }

  /**
   * One element of a brace list: the expression at the cursor, accepted
   * exactly when it has a type equal to or convertible to the type of the
   * element before it; the cursor then passes one comma when one follows,
   * and the element's size is reserved on the stack.
   */
  lemma ElementForms(ts: seq<TokenView>, st: State, types: seq<DataType>)
    requires Ready(ts, st)
    ensures var e, o := ParseExpressions(ts, st), ParseElement(ts, st, types);
      && (e.Err? ==> o == Err(e.error))
      && (e.Ok? ==>
        && (o.Ok? <==> TypeOf(e.value.0).Some? && (types == [] || TypeOf(e.value.0).value == types[|types| - 1] || CanConvert(TypeOf(e.value.0).value, types[|types| - 1])))
        && (o.Ok? ==>
          var t, s := TypeOf(e.value.0).value, SkipComma(ts, e.value.1);
          o.value == ((e.value.0, t), s.(scope := AddStack(s.scope, Size(t))))))
  {
  }

  /** A struct literal field starts with `.`, a name and `=`. */
  predicate FieldHead(ts: seq<TokenView>, st: State) {
    && st.pos + 2 < |ts|
    && ts[st.pos].token == Tokens.DOT && ts[st.pos + 1].token == Tokens.IDENT && ts[st.pos + 2].token == Tokens.ASSIGN
  }

  /**
   * One field of a struct literal: `.`, a name, `=` and a typed value; the
   * field has the name, the value's type and starts at `offset`.  After the
   * value a `}` is left for the loop, a comma is consumed, and any other
   * token is an error: the comma is required unless `}` follows.
   */
  lemma LiteralFieldForms(ts: seq<TokenView>, st: State, offset: nat)
    requires Ready(ts, st)
    ensures !FieldHead(ts, st) ==> ParseLiteralField(ts, st, offset).Err?
    ensures FieldHead(ts, st) ==>
      var e, r := ParseExpressions(ts, st.(pos := st.pos + 3)), ParseLiteralField(ts, st, offset);
      && (e.Err? ==> r == Err(e.error))
      && (e.Ok? && TypeOf(e.value.0).None? ==> r.Err?)
      && (e.Ok? && TypeOf(e.value.0).Some? ==>
        var f := NewVariable(Lexer.LastStringAt(ts, st.pos + 2), TypeOf(e.value.0).value, offset);
        && (Peek(ts, e.value.1) == Tokens.RCURL ==> r == Ok(((f, e.value.0), e.value.1)))
        && (Peek(ts, e.value.1) == Tokens.COMMA ==> r == Ok(((f, e.value.0), Skip(ts, e.value.1))))
        && (Peek(ts, e.value.1) != Tokens.RCURL && Peek(ts, e.value.1) != Tokens.COMMA ==> r.Err?))
  {
  }

  // ---------------------------------------------------------------------
  // Calls, identifiers and operators (src/ast/function_call.rs, expression.rs)
  // ---------------------------------------------------------------------

  /**
   * The callee is named by the token before the cursor and must be a
   * function in scope; the arguments must be as many as its parameters and
   * each must fit its parameter; the call records the arguments' types and
   * the function's return type.
   */
  lemma CallChecks(ts: seq<TokenView>, st: State)
    requires Ready(ts, st) && st.pos > 0
    ensures GetFunction(st.scope, Lexer.LastStringAt(ts, st.pos)).None? ==> ParseFunctionCall(ts, st).Err?
    ensures ParseFunctionCall(ts, st).Ok? ==>
      var c := ParseFunctionCall(ts, st).value.0;
      var f := GetFunction(st.scope, Lexer.LastStringAt(ts, st.pos));
      && c.name == Lexer.LastStringAt(ts, st.pos) && f.Some? && c.returnType == f.value.returnType
      && |c.parameter| == |f.value.parameter| == |c.dataTypes|
      && forall k :: 0 <= k < |c.parameter| ==>
           Fits(f.value.parameter[k].dataType, TypeOf(c.parameter[k])) && Some(c.dataTypes[k]) == TypeOf(c.parameter[k])
  {
  }

  /**
   * One round of the argument loop before `)`: a failed expression is the
   * loop's failure, and otherwise the loop goes on after the expression and
   * an optional comma, with the argument appended.
   */
  lemma ArgumentRound(ts: seq<TokenView>, st: State, arguments: seq<Expression>) returns (e: Expression, next: State)
    requires Ready(ts, st) && Peek(ts, st) != Tokens.RPAREN
    ensures ParseExpressions(ts, st).Err? ==> ParseArguments(ts, st, arguments) == Err(ParseExpressions(ts, st).error)
    ensures ParseExpressions(ts, st).Ok? ==>
      && e == ParseExpressions(ts, st).value.0 && next == SkipComma(ts, ParseExpressions(ts, st).value.1)
      && Ready(ts, next) && st.pos < next.pos
      && ParseArguments(ts, st, arguments) == ParseArguments(ts, next, arguments + [e])
  {
    var o := ParseExpressions(ts, st);
    if o.Ok? {
      e, next := o.value.0, SkipComma(ts, o.value.1);
    } else {
      e, next := IntLiteral(0), st;
    }
  }

  /** `r` is the outcome `l` with `prefix` in front of its list: the same failure, or the same state. */
  predicate PrefixedBy(r: Outcome<seq<Expression>>, l: Outcome<seq<Expression>>, prefix: seq<Expression>) {
    if l.Ok? then r == Ok((prefix + l.value.0, l.value.1)) else r == l
  }

  /** Putting `prefix + [e]` in front is putting `prefix` in front of what has `[e]` in front. */
  lemma PrefixedByJoin(x: Outcome<seq<Expression>>, y: Outcome<seq<Expression>>, rest: Outcome<seq<Expression>>, prefix: seq<Expression>, e: Expression)
    requires PrefixedBy(x, rest, prefix + [e]) && PrefixedBy(y, rest, [e])
    ensures PrefixedBy(x, y, prefix)
  {
    if rest.Ok? {
      assert prefix + [e] + rest.value.0 == prefix + ([e] + rest.value.0);
    }
  }

  /**
   * The argument loop reads the same arguments whatever it already holds:
   * its result is what it held followed by what it reads from none, after
   * the same tokens, and it fails exactly where that loop fails.
   */
  lemma {:induction false} ArgumentsAppend(ts: seq<TokenView>, st: State, arguments: seq<Expression>)
    requires Ready(ts, st)
    ensures PrefixedBy(ParseArguments(ts, st, arguments), ParseArguments(ts, st, []), arguments)
    decreases |ts| - st.pos
  {
    if Peek(ts, st) != Tokens.RPAREN {
      var e, next := ArgumentRound(ts, st, arguments);
      var _, _ := ArgumentRound(ts, st, []);
      if ParseExpressions(ts, st).Ok? {
        ArgumentsAppend(ts, next, arguments + [e]);
        ArgumentsAppend(ts, next, [e]);
        assert [] + [e] == [e];
        PrefixedByJoin(ParseArguments(ts, next, arguments + [e]), ParseArguments(ts, next, [e]), ParseArguments(ts, next, []), arguments, e);
      }
    } else {
      assert arguments + [] == arguments;
    }
  }

  /**
   * The arguments of a call in source order: none at `)`, else the
   * expression at the cursor followed by the arguments read after it and
   * after the comma that may follow it.
   */
  lemma ArgumentsInOrder(ts: seq<TokenView>, st: State)
    requires Ready(ts, st)
    ensures Peek(ts, st) == Tokens.RPAREN ==> ParseArguments(ts, st, []) == Ok(([], st))
    ensures var e, r := ParseExpressions(ts, st), ParseArguments(ts, st, []);
      Peek(ts, st) != Tokens.RPAREN ==>
        && (e.Err? ==> r == Err(e.error))
        && (e.Ok? ==>
          var rest := ParseArguments(ts, SkipComma(ts, e.value.1), []);
          && (r.Ok? <==> rest.Ok?)
          && (rest.Ok? ==> r.value == ([e.value.0] + rest.value.0, rest.value.1)))
  {
    if Peek(ts, st) != Tokens.RPAREN {
      var e := ParseExpressions(ts, st);
      if e.Ok? {
        assert [] + [e.value.0] == [e.value.0];
        ArgumentsAppend(ts, SkipComma(ts, e.value.1), [e.value.0]);
      }
    }
  }

  /**
   * An identifier in an expression: a struct or typedef name is a type
   * expression; otherwise `(` after it makes a call to that name; otherwise
   * it must be a variable in scope, read at its offset with its type.
   */
  lemma IdentifierResolution(ts: seq<TokenView>, st: State)
    requires Ready(ts, st) && Peek(ts, st) == Tokens.IDENT
    ensures var name := ts[st.pos].str;
      var r := ParseIdentifier(ts, st);
      var isType := GetStruct(st.scope, name).Some? || GetTypedef(st.scope, name).Some?;
      var call := Peek(ts, Skip(ts, st)) == Tokens.LPAREN;
      && (isType && r.Ok? ==> r.value.0.TypeExpression?)
      && (!isType && call && r.Ok? ==> r.value.0.Call? && r.value.0.call.name == name)
      && (!isType && !call ==> (r.Ok? <==> GetVariable(st.scope, name).Some?))
      && (!isType && !call && r.Ok? ==>
            var v := GetVariable(st.scope, name).value;
            r.value == (NamedVariable(v.offset, v.dataType), Skip(ts, st)))
  {
  }

  /**
   * The unary operators apply to the factor after them: `-`, `!` and `~`
   * always, `&` only to a named variable, and `*` only to an operand of
   * pointer type.
   */
  lemma UnaryOperators(ts: seq<TokenView>, st: State)
    requires Ready(ts, st) && IsUnaryToken(Peek(ts, st)) && ParseUnary(ts, st).Ok?
    ensures var e := ParseUnary(ts, st).value.0;
      && e.Unary?
      && (Peek(ts, st) == Tokens.SUB ==> e.operation == Neg)
      && (Peek(ts, st) == Tokens.LOGNEG ==> e.operation == LogNeg)
      && (Peek(ts, st) == Tokens.COMPLEMENT ==> e.operation == Complement)
      && (Peek(ts, st) == Tokens.REF ==> e.operation == Ref && e.expression.NamedVariable?)
      && (Peek(ts, st) == Tokens.MUL ==> e.operation == Deref && Pointee(TypeOf(e.expression)).Some?)
  {
  }

  /**
   * `a -> f` is accepted only when `a` points to a struct with a field `f`,
   * and then reads that field of `*a`, at the field's start.
   */
  lemma ArrowAccess(ts: seq<TokenView>, st: State, e: Expression)
    requires Ready(ts, st) && Peek(ts, st) == Tokens.ARROW && ParseArrowAccess(ts, st, e).Ok?
    ensures Peek(ts, Skip(ts, st)) == Tokens.IDENT
    ensures var t := TypeOf(e);
      && t.Some? && t.value.PTR? && t.value.base.STRUCT?
      && Get(t.value.base.s, ts[st.pos + 1].str).Some?
      && (Peek(ts, st.(pos := st.pos + 2)) != Tokens.ARROW ==>
            var v := Get(t.value.base.s, ts[st.pos + 1].str).value;
            ParseArrowAccess(ts, st, e) == Ok((FieldAccess(v.offset - Size(v.dataType), v.dataType, Unary(e, Deref)), st.(pos := st.pos + 2))))
  {
  }

  /** `sizeof ( e )` is the literal size of e's type. */
  lemma SizeofFolds(ts: seq<TokenView>, st: State, e: Expression, inner: State)
    requires Ready(ts, st) && Peek(ts, st) == Tokens.SIZEOF && Peek(ts, Skip(ts, st)) == Tokens.LPAREN
    requires ParseExpressions(ts, st.(pos := st.pos + 2)) == Ok((e, inner)) && Peek(ts, inner) == Tokens.RPAREN
    requires TypeOf(e).Some?
    ensures ParseSizeof(ts, st) == Ok((IntLiteral(Size(TypeOf(e).value)), inner.(pos := inner.pos + 1)))
  {
  }

  /** Operands of one binary operator whose types differ must be able to meet in an operation. */
  lemma BinaryOperandsMeet(ts: seq<TokenView>, st: State, level: nat, acc: Expression)
    requires Ready(ts, st) && level < |Levels| && Peek(ts, st) in Levels[level]
    requires ParseBinaryRest(ts, st, level, acc).Ok?
    ensures var second := ParseBinary(ts, Skip(ts, st), level + 1);
      && second.Ok? && TypeOf(acc).Some? && TypeOf(second.value.0).Some?
      && (TypeOf(acc) == TypeOf(second.value.0) || CanOperate(TypeOf(acc).value, TypeOf(second.value.0).value))
  {
  }

  // ---------------------------------------------------------------------
  // Scoping (src/ast/statement_list.rs, for_statement.rs, function.rs,
  // type_definition.rs)
  // ---------------------------------------------------------------------

  /**
   * A block gives back the frames it was entered with: names declared in it
   * are gone after it; it records the stack size reached inside it, which
   * stays reserved.
   */
  lemma BlockScope(ts: seq<TokenView>, st: State, l: StatementList, after: State)
    requires Ready(ts, st) && Peek(ts, st) == Tokens.LCURL && ParseBlock(ts, st) == Ok((l, after))
    ensures after.scope.frames == st.scope.frames && l.stackSize == after.scope.stackSize
  {
  }

  /** A single statement in place of a block is not a declaration, and records stack size 0. */
  lemma SingleStatementList(ts: seq<TokenView>, st: State)
    requires Ready(ts, st) && Peek(ts, st) != Tokens.LCURL && ParseStatementList(ts, st).Ok?
    ensures var l := ParseStatementList(ts, st).value.0;
      |l.statements| == 1 && !l.statements[0].VariableDeclaration? && l.stackSize == 0
  {
  }

  /** A `for` runs inside a frame of its own: what its head declares is gone after it. */
  lemma ForScope(ts: seq<TokenView>, st: State, f: ForStatement, after: State)
    requires Ready(ts, st) && ParseFor(ts, st) == Ok((f, after))
    ensures after.scope.frames == st.scope.frames
  {
  }

  /**
   * The rest of a `for` head: the condition, or the literal 1 when `;`
   * comes first; then `;`; then no step exactly when `)` follows, else the
   * step expression, which `)` must follow.
   */
  lemma ForRestForms(ts: seq<TokenView>, st: State)
    requires Ready(ts, st)
    ensures var c, r := (if Peek(ts, st) != Tokens.SEMIC then ParseExpressions(ts, st) else Ok((IntLiteral(1), st))), ParseForRest(ts, st);
      && (c.Err? ==> r == Err(c.error))
      && (c.Ok? && Peek(ts, c.value.1) != Tokens.SEMIC ==> r.Err?)
      && (c.Ok? && Peek(ts, c.value.1) == Tokens.SEMIC ==>
        var semi := Skip(ts, c.value.1);
        && (Peek(ts, semi) == Tokens.RPAREN ==> r == Ok(((c.value.0, None), Skip(ts, semi))))
        && (Peek(ts, semi) != Tokens.RPAREN ==>
          var p := ParseExpressions(ts, semi);
          && (p.Err? ==> r == Err(p.error))
          && (p.Ok? ==> (r.Ok? <==> Peek(ts, p.value.1) == Tokens.RPAREN))
          && (r.Ok? ==> r.value == ((c.value.0, Some(p.value.0)), Skip(ts, p.value.1)))))
  {
  }

  /**
   * A function's parameters live in a frame of their own, closed before
   * the function is added: afterwards the variables in scope are the ones
   * before it, and the function is found under its name.
   */
  lemma FunctionScope(ts: seq<TokenView>, st: State, f: Function, after: State, name: string)
    requires Ready(ts, st) && st.scope.frames != [] && ParseFunction(ts, st) == Ok((f, after))
    ensures GetFunction(after.scope, f.name) == Some(f)
    ensures GetVariable(after.scope, name) == GetVariable(st.scope, name)
  {
    var framed := st.(scope := Push(st.scope));
    var signature := ParseSignature(ts, framed).value;
    var defined := ParseFunctionBody(ts, signature.1, signature.0.0, signature.0.1, signature.0.2).value;
    PopAfterPush(st.scope, defined.1.scope);
    var closed := Pop(defined.1.scope);
    AddFunctionKeepsVariables(closed, f);
    AddNamedFinds(closed, TypeDefinition(f.name, VOID), f);
  }

  /**
   * `parse_parameter`: a type and a name.  A name already bound to a
   * variable in scope is an error; otherwise the parameter is the variable
   * of that name and type at the stack size, it joins the scope, and the
   * cursor passes one comma when one follows the name.
   */
  lemma ParameterForms(ts: seq<TokenView>, st: State)
    requires Ready(ts, st)
    ensures var te, r := ParseTypeExpression(ts, st), ParseParameter(ts, st);
      && (te.Err? ==> r == Err(te.error))
      && (te.Ok? && Peek(ts, te.value.1) != Tokens.IDENT ==> r.Err?)
      && (te.Ok? && Peek(ts, te.value.1) == Tokens.IDENT ==>
        var name := Expect(ts, te.value.1, Tokens.IDENT).value;
        var s := name.1;
        && (r.Ok? <==> GetVariable(s.scope, name.0).None?)
        && (r.Ok? ==>
          && r.value.0 == NewVariable(name.0, te.value.0, s.scope.stackSize)
          && r.value.1.scope == AddVariable(s.scope, r.value.0)
          && (Peek(ts, s) == Tokens.COMMA ==> r.value.1.pos == s.pos + 1)
          && (Peek(ts, s) != Tokens.COMMA ==> r.value.1.pos == s.pos)))
  {
  }

  /** Adding a function leaves the variables alone. */
  lemma AddFunctionKeepsVariables(s: Scope, f: Function)
    ensures Variables(AddFunction(s, f).frames) == Variables(s.frames)
  {
  }

  /** A typedef is found under its name afterwards, so later type expressions resolve it. */
  lemma TypedefRegistered(ts: seq<TokenView>, st: State, d: TypeDefinition, after: State)
    requires Ready(ts, st) && st.scope.frames != [] && ParseTypeDefinition(ts, st) == Ok((d, after))
    ensures GetTypedef(after.scope, d.name) == Some(d)
  {
    var keyword := Expect(ts, st, Tokens.TYPEDEF).value;
    var te := ParseTypeExpression(ts, keyword.1).value;
    var name := Expect(ts, te.1, Tokens.IDENT).value;
    AddNamedFinds(name.1.scope, d, Function(None, [], "", VOID, 0));
  }

  /**
   * `typedef`, a type expression and a name, in that order.  A name that is
   * already a typedef in scope is an error; otherwise the definition pairs
   * the name with the type read, and joins the scope.
   */
  lemma TypedefForms(ts: seq<TokenView>, st: State)
    requires Ready(ts, st)
    ensures Peek(ts, st) != Tokens.TYPEDEF ==> ParseTypeDefinition(ts, st).Err?
    ensures Peek(ts, st) == Tokens.TYPEDEF ==>
      var te, r := ParseTypeExpression(ts, Skip(ts, st)), ParseTypeDefinition(ts, st);
      && (te.Err? ==> r == Err(te.error))
      && (te.Ok? && Peek(ts, te.value.1) != Tokens.IDENT ==> r.Err?)
      && (te.Ok? && Peek(ts, te.value.1) == Tokens.IDENT ==>
        var name := Expect(ts, te.value.1, Tokens.IDENT).value;
        && (r.Ok? <==> GetTypedef(name.1.scope, name.0).None?)
        && (r.Ok? ==> r.value == (TypeDefinition(name.0, te.value.0), name.1.(scope := AddTypedef(name.1.scope, TypeDefinition(name.0, te.value.0))))))
  {
  }

  /** A name that is a typedef in scope resolves to its type in a type expression. */
  lemma TypedefResolves(ts: seq<TokenView>, st: State)
    requires Ready(ts, st) && Peek(ts, st) == Tokens.IDENT && GetTypedef(st.scope, ts[st.pos].str).Some?
    requires Peek(ts, Skip(ts, st)) != Tokens.MUL
    ensures ParseTypeExpression(ts, st) == Ok((GetTypedef(st.scope, ts[st.pos].str).value.dataType, Skip(ts, st)))
  {
  }

  // ---------------------------------------------------------------------
  // Redeclaring a function (src/ast/function.rs)
  // ---------------------------------------------------------------------

  /**
   * The zipped check as written misses a difference in parameter count
   * exactly when one of the lists is empty: it accepts an earlier `f(int)`
   * against a later `f()`.
   */
  lemma {:induction false} ZippedMissesEmptyLists(own: seq<Variable>, other: seq<Variable>)
    ensures ZippedParametersAgree(own, other) <==> ParametersAgree(own, other) || own == [] || other == []
    decreases |own|
  {
    if own != [] && other != [] {
      ZippedMissesEmptyLists(own[1..], other[1..]);
      if |own| == |other| && own[0].dataType == other[0].dataType {
        if ParametersAgree(own[1..], other[1..]) {
          forall k | 0 <= k < |own|
            ensures own[k].dataType == other[k].dataType
          {
            if k > 0 {
              assert own[1..][k - 1] == own[k] && other[1..][k - 1] == other[k];
            }
          }
        }
      }
    }
  }

  /** The concrete case: one `int` parameter against none. */
  lemma ZippedAcceptsCountMismatch(p: Variable)
    requires p.dataType == INT
    ensures ZippedParametersAgree([], [p]) && !ParametersAgree([], [p])
  {
  }

  /** The corrected check rejects a redeclaration whose parameter count differs. */
  lemma RedeclarationChecksCount(ts: seq<TokenView>, st: State, f: Function)
    requires GetFunction(st.scope, f.name).Some? && |GetFunction(st.scope, f.name).value.parameter| != |f.parameter|
    ensures CheckRedeclaration(ts, st, f).Err?
  {
  }
}
