/**
 * The type-checking recursive-descent parser: `Parser` (src/parser.rs) and
 * the `parse` implementations of the files under src/ast.  It checks types
 * and lays out stack offsets while it parses.
 *
 * The parser's state is a value: the cursor into the token views, the
 * scope, the pending assignee and the loop-label counter.  Each parsing
 * function takes the state and gives back the node with the state after
 * it, or the failure; a `Panic` failure is where the source panics.  The
 * `while` loops of the source are the tail-recursive functions named after
 * them (`ParseElements`, `ParseStatements`, ...).
 *
 * Every parse that succeeds consumes at least one token, which is what
 * makes the recursion terminate: the measure is the number of views left,
 * then a rank ordering the calls made without consuming.
 */
module TypedParser {
  import opened Util
  import opened AstTypes
  import opened TypedAst
  import opened ParserScope
  import Tokens
  import Lexer
  import SyntaxParser

  type TokenView = Lexer.TokenView
  type Failure = Lexer.Failure

  /**
   * `Parser`: the lexer's cursor, the scope, the expression an `=` assigns
   * to while its right side is parsed, and the last loop label handed out.
   */
  datatype State = State(pos: nat, scope: Scope, assignee: Option<Expression>, labelIndex: nat)

  /** A parse result: the node and the state after it, or the failure. */
  type Outcome<T> = Result<(T, State), Failure>

  /** `Parser::new` over the lexer's views: cursor at the start, no frame, no assignee, label 0. */
  function NewState(): (st: State)
    ensures st.pos == 0 && st.labelIndex == 0 && st.assignee.None? && st.scope == NewScope
  {
    State(0, NewScope, None, 0)
  }

  /** The views end with EOF and the cursor is on one of them: `peek` does not panic. */
  predicate Ready(ts: seq<TokenView>, st: State) {
    Lexer.Terminated(ts) && st.pos < |ts|
  }

  /**
   * `b` is reached from `a` by parsing: the cursor did not move back, frames
   * opened on the way were closed again, and neither the stack size nor the
   * label counter went down.
   */
  predicate Reaches(a: State, b: State) {
    a.pos <= b.pos && Extends(a.scope, b.scope) && a.labelIndex <= b.labelIndex
  }

  /** `Reaches`, having consumed at least one token. */
  predicate Evolves(a: State, b: State) {
    Reaches(a, b) && a.pos < b.pos
  }

  // ---------------------------------------------------------------------
  // The cursor and the checks of src/parser.rs
  // ---------------------------------------------------------------------

  /** `peek`: the kind of the token at the cursor. */
  function Peek(ts: seq<TokenView>, st: State): Tokens.Token
    requires st.pos < |ts|
  {
    ts[st.pos].token
  }

  /**
   * `next` with its token already known to be other than EOF: the cursor
   * moves by one and stays on a view.
   */
  function Skip(ts: seq<TokenView>, st: State): (r: State)
    requires Ready(ts, st) && Peek(ts, st) != Tokens.EOF
    ensures r.pos == st.pos + 1 && r.pos < |ts| && Reaches(st, r)
  {
    st.(pos := st.pos + 1)
  }

  /**
   * The optional comma after an element, an argument or a parameter: the
   * cursor passes one comma when one stands there and nothing else, and
   * the rest of the state stays as it was.
   */
  function SkipComma(ts: seq<TokenView>, st: State): (r: State)
    requires Ready(ts, st)
    ensures r == st.(pos := r.pos) && r.pos < |ts| && Reaches(st, r)
    ensures r.pos == st.pos + 1 <==> Peek(ts, st) == Tokens.COMMA
    ensures r.pos == st.pos <==> Peek(ts, st) != Tokens.COMMA
  {
    if Peek(ts, st) == Tokens.COMMA then Skip(ts, st) else st
  }

  /**
   * `expect`: consume one token; on success its text, on failure the error
   * at the token after it.  A token other than EOF is never the last view,
   * so the cursor stays on a view.
   */
  function Expect(ts: seq<TokenView>, st: State, t: Tokens.Token): (r: Result<(string, State), Failure>)
    requires Ready(ts, st) && t != Tokens.EOF
    ensures r.Ok? <==> Peek(ts, st) == t
    ensures r.Ok? ==> r.value.1 == Skip(ts, st) && r.value.1.pos < |ts| && r.value.0 == Lexer.LastStringAt(ts, st.pos + 1)
  {
    Lexer.ExpectAtCases(ts, st.pos, t);
    var m := Lexer.ExpectAt(ts, st.pos, t);
    if m.result.Err? then Err(m.result.error) else Ok((m.result.value, st.(pos := m.index)))
  }

  /** `error`: a failure reported at the token at the cursor. */
  function Fail<T>(ts: seq<TokenView>, st: State, text: string): (r: Result<T, Failure>)
    ensures r.Err? && r.error == Lexer.ErrorAt(ts, st.pos, Lexer.Says(text))
  {
    Err(Lexer.ErrorAt(ts, st.pos, Lexer.Says(text)))
  }

  /** `data_type` of an expression; a panic where it dereferences a non-pointer. */
  function Typed(e: Expression): (r: Result<DataType, Failure>)
    ensures r.Ok? <==> TypeOf(e).Some?
    ensures r.Ok? ==> r.value == TypeOf(e).value
    ensures r.Err? ==> r.error.Panic?
  {
    if TypeOf(e).Some? then Ok(TypeOf(e).value) else Err(Lexer.Panic)
  }

  /**
   * `check_data_types(from, to)`: succeeds exactly when the types are equal
   * or `from` converts to `to`; otherwise the error at the cursor.
   */
  function CheckDataTypes(ts: seq<TokenView>, st: State, from: DataType, to: DataType): (r: Result<bool, Failure>)
    ensures r.Ok? <==> from == to || CanConvert(from, to)
    ensures r.Err? ==> r.error == Lexer.ErrorAt(ts, st.pos, Lexer.Says("Cannot convert types!"))
  {
    if from != to && !CanConvert(from, to) then Fail(ts, st, "Cannot convert types!") else Ok(true)
  }

  /** `next_label_index`: the counter goes up by one first, and the new value is the label. */
  function NextLabelIndex(st: State): (r: (nat, State))
    ensures r.0 == st.labelIndex + 1 == r.1.labelIndex
    ensures r.1 == st.(labelIndex := r.0)
  {
    (st.labelIndex + 1, st.(labelIndex := st.labelIndex + 1))
  }

  // ---------------------------------------------------------------------
  // Literal text
  // ---------------------------------------------------------------------

  /** An integer literal's text, leading space trimmed, read as an `i32`; anything else panics. */
  function IntValue(text: string): Option<int> {
    var s := Lexer.TrimStart(text);
    if 0 < |s| && AllDigits(s) && DigitsValue(s) < 0x8000_0000 then Some(DigitsValue(s)) else None
  }

  /** The tokens that start a unary operation. */
  predicate IsUnaryToken(t: Tokens.Token) {
    t == Tokens.SUB || t == Tokens.LOGNEG || t == Tokens.MUL || t == Tokens.REF || t == Tokens.COMPLEMENT
  }

  /** The binary levels `parse_expressions` passes, loosest first. */
  const Levels: seq<seq<Tokens.Token>> := [
    [Tokens.OR],
    [Tokens.AND],
    [Tokens.EQ, Tokens.NE],
    [Tokens.GT, Tokens.GE, Tokens.LT, Tokens.LE],
    [Tokens.ADD, Tokens.SUB],
    [Tokens.MUL, Tokens.DIV, Tokens.MOD]]

  /** The operation a binary operator token stands for. */
  function OperatorOf(t: Tokens.Token): BinaryOp {
    if t == Tokens.ADD then Add
    else if t == Tokens.SUB then Sub
    else if t == Tokens.MUL then Mul
    else if t == Tokens.DIV then Div
    else if t == Tokens.MOD then Mod
    else if t == Tokens.AND then And
    else if t == Tokens.OR then Or
    else if t == Tokens.EQ then Eq
    else if t == Tokens.NE then Ne
    else if t == Tokens.LT then Lt
    else if t == Tokens.GT then Gt
    else if t == Tokens.LE then Le
    else Ge
  }

  /** The tokens on which a statement is a declaration whatever the scope holds. */
  predicate IsTypeKeyword(t: Tokens.Token) {
    t == Tokens.INT || t == Tokens.CHAR || t == Tokens.LONG || t == Tokens.VOID || t == Tokens.STRUCT || t == Tokens.TYPEOF
  }

  // ---------------------------------------------------------------------
  // Type expressions (src/ast/type_expression.rs)
  // ---------------------------------------------------------------------

  /** Fields laid out back to back: each one ends where the sizes of it and the fields before it add up to. */
  predicate LaidOut(fields: seq<Variable>) {
    forall k :: 0 <= k < |fields| ==> fields[k].offset == FieldsSize(fields[..k + 1])
  }

  /**
   * The type-expression parser: a primitive keyword, a struct, or a typedef
   * name, then one pointer layer per `*`.
   */
  function ParseTypeExpression(ts: seq<TokenView>, st: State): (r: Outcome<DataType>)
    requires Ready(ts, st)
    ensures r.Ok? ==> Evolves(st, r.value.1) && r.value.1.pos < |ts|
    decreases |ts| - st.pos, 2
  {
    var t := Peek(ts, st);
    if t == Tokens.EOF then Fail(ts, st.(pos := st.pos + 1), "Was not able to parse data type of type expression!")
    else
    var s := Skip(ts, st);
    var base :-
      if t == Tokens.INT then Ok((INT, s))
      else if t == Tokens.CHAR then Ok((CHAR, s))
      else if t == Tokens.LONG then Ok((LONG, s))
      else if t == Tokens.VOID then Ok((VOID, s))
      else if t == Tokens.STRUCT then ParseStruct(ts, s)
      else if t == Tokens.IDENT then
        (var name := Lexer.LastStringAt(ts, s.pos);
         match GetTypedef(s.scope, name)
         case Some(d) => Ok((d.dataType, s))
         case None => Fail(ts, s, "was not able to find type: " + name))
      else Fail(ts, s, "Was not able to parse data type of type expression!");
    Pointers(ts, base.1, base.0)
  }

  /** The loop over trailing `*`: each wraps the type in one more pointer. */
  function Pointers(ts: seq<TokenView>, st: State, t: DataType): (r: Outcome<DataType>)
    requires Ready(ts, st)
    ensures r.Ok? ==> Reaches(st, r.value.1) && r.value.1.pos < |ts|
    decreases |ts| - st.pos
  {
    if Peek(ts, st) == Tokens.MUL then Pointers(ts, Skip(ts, st), PTR(t)) else Ok((t, st))
  }

  /**
   * `parse_struct`, after `struct`: with a body, the fields are laid out
   * and the struct is added to the scope unless one of that name exists;
   * without one, the name must be a known struct.
   */
  function ParseStruct(ts: seq<TokenView>, st: State): (r: Outcome<DataType>)
    requires Ready(ts, st)
    ensures r.Ok? ==> Evolves(st, r.value.1) && r.value.1.pos < |ts|
    decreases |ts| - st.pos, 1
  {
    var name :- Expect(ts, st, Tokens.IDENT);
    var s := name.1;
    if Peek(ts, s) == Tokens.LCURL then
      var body :- ParseFieldDeclarations(ts, Skip(ts, s), [], 0);
      var close := Skip(ts, body.1);
      if GetStruct(close.scope, name.0).Some? then Fail(ts, close, "Struct '" + name.0 + "' already defined!")
      else
        var x := NewStruct(name.0, body.0);
        Ok((STRUCT(x), close.(scope := AddStruct(close.scope, x))))
    else
      match GetStruct(s.scope, name.0)
      case Some(x) => Ok((STRUCT(x), s))
      case None =>
        if Peek(ts, s) == Tokens.IDENT then Fail(ts, s, "No struct wit name '" + name.0 + "' found!")
        else Fail(ts, s, "Cannot find struct with name: '" + name.0 + "'")
  }

  /**
   * The field loop of `parse_struct`: until `}`, a type, a name and `;`;
   * each field starts where the fields before it end, and a name used
   * twice is an error.  The fields stay laid out back to back.
   */
  function ParseFieldDeclarations(ts: seq<TokenView>, st: State, fields: seq<Variable>, offset: nat): (r: Outcome<seq<Variable>>)
    requires Ready(ts, st) && LaidOut(fields) && offset == FieldsSize(fields) && DistinctNames(fields)
    ensures r.Ok? ==> Reaches(st, r.value.1) && r.value.1.pos < |ts| && Peek(ts, r.value.1) == Tokens.RCURL
    ensures r.Ok? ==> LaidOut(r.value.0) && DistinctNames(r.value.0) && fields <= r.value.0
    decreases |ts| - st.pos, 3
  {
    if Peek(ts, st) == Tokens.RCURL then Ok((fields, st))
    else
      var te :- ParseTypeExpression(ts, st);
      var name :- Expect(ts, te.1, Tokens.IDENT);
      var field := NewVariable(name.0, te.0, offset);
      if FirstNamed(fields, name.0).Some? then Fail(ts, name.1, "Field with name " + name.0 + " already exists!")
      else
        var semi :- Expect(ts, name.1, Tokens.SEMIC);
        LaidOutAppend(fields, field);
        DistinctAppend(fields, field);
        ParseFieldDeclarations(ts, semi.1, fields + [field], offset + Size(te.0))
  }

  /** A field placed at the end of laid-out fields keeps them laid out. */
  lemma LaidOutAppend(fields: seq<Variable>, field: Variable)
    requires LaidOut(fields) && field.offset == FieldsSize(fields) + Size(field.dataType)
    ensures LaidOut(fields + [field]) && FieldsSize(fields + [field]) == field.offset
  {
    var all := fields + [field];
    assert all[..|fields|] == fields;
    assert all[..|all|] == all;
    forall k | 0 <= k < |all|
      ensures all[k].offset == FieldsSize(all[..k + 1])
    {
      if k < |fields| {
        assert all[..k + 1] == fields[..k + 1];
      }
    }
  }

  /** No two fields share a name. */
  predicate DistinctNames(fields: seq<Variable>) {
    forall i, j :: 0 <= i < j < |fields| ==> fields[i].name != fields[j].name
  }

  /** A field whose name no earlier field has keeps the names distinct. */
  lemma DistinctAppend(fields: seq<Variable>, field: Variable)
    requires DistinctNames(fields) && FirstNamed(fields, field.name).None?
    ensures DistinctNames(fields + [field])
  {
    FirstNamedIsFirst(fields, field.name);
  }

  // ---------------------------------------------------------------------
  // Expressions (src/ast/expression.rs, assignment.rs, array_expression.rs,
  // struct_expression.rs, function_call.rs)
  // ---------------------------------------------------------------------

  /**
   * `parse_expressions`: the binary levels; when `=` follows, that
   * expression is the assignee of the assignment parsed next, and the
   * assignee is cleared afterwards.
   */
  function ParseExpressions(ts: seq<TokenView>, st: State): (r: Outcome<Expression>)
    requires Ready(ts, st)
    ensures r.Ok? ==> Evolves(st, r.value.1) && r.value.1.pos < |ts|
    decreases |ts| - st.pos, 20
  {
    var b :- ParseBinary(ts, st, 0);
    if Peek(ts, b.1) == Tokens.ASSIGN then
      var a :- ParseAssignment(ts, b.1.(assignee := Some(b.0)));
      Ok((Assign(a.0), a.1.(assignee := None)))
    else Ok(b)
  }

  /**
   * `parse_binary` at a level: an operand of the next level, then the loop
   * over this level's operators; past the last level, a factor.
   */
  function ParseBinary(ts: seq<TokenView>, st: State, level: nat): (r: Outcome<Expression>)
    requires Ready(ts, st) && level <= |Levels|
    ensures r.Ok? ==> Evolves(st, r.value.1) && r.value.1.pos < |ts|
    decreases |ts| - st.pos, 17 - level
  {
    if level == |Levels| then ParseFactor(ts, st)
    else
      var first :- ParseBinary(ts, st, level + 1);
      ParseBinaryRest(ts, first.1, level, first.0)
  }

  /**
   * The operator loop of `parse_binary`: while the next token is one of the
   * level's operators, it and a right operand of the next level join the
   * expression so far as its right side.  Operands whose types differ must
   * be able to meet in an operation.
   */
  function ParseBinaryRest(ts: seq<TokenView>, st: State, level: nat, acc: Expression): (r: Outcome<Expression>)
    requires Ready(ts, st) && level < |Levels|
    ensures r.Ok? ==> Reaches(st, r.value.1) && r.value.1.pos < |ts|
    decreases |ts| - st.pos, 0
  {
    var t := Peek(ts, st);
    if t !in Levels[level] then Ok((acc, st))
    else
      var second :- ParseBinary(ts, Skip(ts, st), level + 1);
      var first :- Typed(acc);
      var other :- Typed(second.0);
      if first != other && !CanOperate(first, other) then
        Fail(ts, second.1, "cannot perform binary operation on 2 different data types!")
      else ParseBinaryRest(ts, second.1, level, BinaryExpression(acc, second.0, OperatorOf(t)))
  }

  /**
   * `parse_factor`: a unary operation or a postfix expression.  When it
   * began with `(` and came out a type expression, it is a cast of the
   * factor after it.
   */
  function ParseFactor(ts: seq<TokenView>, st: State): (r: Outcome<Expression>)
    requires Ready(ts, st)
    ensures r.Ok? ==> Evolves(st, r.value.1) && r.value.1.pos < |ts|
    decreases |ts| - st.pos, 10
  {
    var result := if IsUnaryToken(Peek(ts, st)) then ParseUnary(ts, st) else ParsePostfix(ts, st);
    if result.Ok? && Peek(ts, st) == Tokens.LPAREN && result.value.0.TypeExpression? then
      var operand :- ParseFactor(ts, result.value.1);
      Ok((Unary(operand.0, Cast(result.value.0.dataType)), operand.1))
    else result
  }

  /**
   * `parse_unary`: the operator applies to the factor after it; `&` needs a
   * named variable and `*` an operand of pointer type.
   */
  function ParseUnary(ts: seq<TokenView>, st: State): (r: Outcome<Expression>)
    requires Ready(ts, st) && IsUnaryToken(Peek(ts, st))
    ensures r.Ok? ==> Evolves(st, r.value.1) && r.value.1.pos < |ts|
    decreases |ts| - st.pos, 9
  {
    var t := Peek(ts, st);
    var e :- ParseFactor(ts, Skip(ts, st));
    if t == Tokens.SUB then Ok((Unary(e.0, Neg), e.1))
    else if t == Tokens.LOGNEG then Ok((Unary(e.0, LogNeg), e.1))
    else if t == Tokens.REF then
      if e.0.NamedVariable? then Ok((Unary(e.0, Ref), e.1))
      else Fail(ts, e.1, "Cannot get address from non-variable expresion!")
    else if t == Tokens.MUL then
      var operand :- Typed(e.0);
      if operand.PTR? then Ok((Unary(e.0, Deref), e.1))
      else Fail(ts, e.1, "Cannot de-refrence non-pointer expresion!")
    else Ok((Unary(e.0, Complement), e.1))
  }

  /** `parse_postfix`: a literal, then its postfix operations. */
  function ParsePostfix(ts: seq<TokenView>, st: State): (r: Outcome<Expression>)
    requires Ready(ts, st)
    ensures r.Ok? ==> Evolves(st, r.value.1) && r.value.1.pos < |ts|
    decreases |ts| - st.pos, 9
  {
    var literal :- ParseLiteral(ts, st);
    ParsePostfixLoop(ts, literal.1, literal.0)
  }

  /** The loop of `parse_postfix`: hand over to the indexing, field or arrow loop while one applies. */
  function ParsePostfixLoop(ts: seq<TokenView>, st: State, e: Expression): (r: Outcome<Expression>)
    requires Ready(ts, st)
    ensures r.Ok? ==> Reaches(st, r.value.1) && r.value.1.pos < |ts|
    decreases |ts| - st.pos, 7
  {
    var t := Peek(ts, st);
    if t == Tokens.LBRACE then
      var o :- ParseIndexing(ts, st, e);
      ParsePostfixLoop(ts, o.1, o.0)
    else if t == Tokens.DOT then
      var o :- ParseFieldAccess(ts, st, e);
      ParsePostfixLoop(ts, o.1, o.0)
    else if t == Tokens.ARROW then
      var o :- ParseArrowAccess(ts, st, e);
      ParsePostfixLoop(ts, o.1, o.0)
    else Ok((e, st))
  }

  /** `parse_indexing`: while `[` follows, an index expression and `]`. */
  function ParseIndexing(ts: seq<TokenView>, st: State, e: Expression): (r: Outcome<Expression>)
    requires Ready(ts, st)
    ensures r.Ok? ==> Reaches(st, r.value.1) && r.value.1.pos < |ts|
    ensures r.Ok? && Peek(ts, st) == Tokens.LBRACE ==> st.pos < r.value.1.pos
    decreases |ts| - st.pos, 6
  {
    if Peek(ts, st) != Tokens.LBRACE then Ok((e, st))
    else
      var index :- ParseExpressions(ts, Skip(ts, st));
      var close :- Expect(ts, index.1, Tokens.RBRACE);
      ParseIndexing(ts, close.1, Indexing(index.0, e))
  }

  /**
   * `parse_field_access`: while `.` follows, the operand must be a struct
   * with a field of the name after it; the access records where the field
   * starts.
   */
  function ParseFieldAccess(ts: seq<TokenView>, st: State, e: Expression): (r: Outcome<Expression>)
    requires Ready(ts, st)
    ensures r.Ok? ==> Reaches(st, r.value.1) && r.value.1.pos < |ts|
    ensures r.Ok? && Peek(ts, st) == Tokens.DOT ==> st.pos < r.value.1.pos
    decreases |ts| - st.pos, 6
  {
    if Peek(ts, st) != Tokens.DOT then Ok((e, st))
    else
      var s := Skip(ts, st);
      var t :- Typed(e);
      if !t.STRUCT? then Fail(ts, s, "Cannot access field for datatype")
      else
        var name :- Expect(ts, s, Tokens.IDENT);
        match Get(t.s, name.0)
        case Some(v) => ParseFieldAccess(ts, name.1, FieldAccess(v.offset - Size(v.dataType), v.dataType, e))
        case None => Fail(ts, name.1, "No field " + name.0 + " for struct")
  }

  /**
   * `parse_arrow_access`: while `->` follows, the operand must point to a
   * struct with a field of the name after it; the access reads that field
   * of the dereferenced operand.
   */
  function ParseArrowAccess(ts: seq<TokenView>, st: State, e: Expression): (r: Outcome<Expression>)
    requires Ready(ts, st)
    ensures r.Ok? ==> Reaches(st, r.value.1) && r.value.1.pos < |ts|
    ensures r.Ok? && Peek(ts, st) == Tokens.ARROW ==> st.pos < r.value.1.pos
    decreases |ts| - st.pos, 6
  {
    if Peek(ts, st) != Tokens.ARROW then Ok((e, st))
    else
      var s := Skip(ts, st);
      var t :- Typed(e);
      if !t.PTR? then Fail(ts, s, "cannot deref non pointer expression!")
      else if !t.base.STRUCT? then Fail(ts, s, "Cannot access field for datatype")
      else
        var name :- Expect(ts, s, Tokens.IDENT);
        match Get(t.base.s, name.0)
        case Some(v) => ParseArrowAccess(ts, name.1, FieldAccess(v.offset - Size(v.dataType), v.dataType, Unary(e, Deref)))
        case None => Fail(ts, name.1, "No field " + name.0 + " for struct")
  }

  /**
   * `parse_literal`: braces, strings and numbers are literals; an
   * identifier is a type, a call or a variable in scope; `( e )` and
   * `sizeof( e )`, which becomes the size of e's type; anything else a
   * type expression.
   */
  function ParseLiteral(ts: seq<TokenView>, st: State): (r: Outcome<Expression>)
    requires Ready(ts, st)
    ensures r.Ok? ==> Evolves(st, r.value.1) && r.value.1.pos < |ts|
    decreases |ts| - st.pos, 8
  {
    var t := Peek(ts, st);
    if t == Tokens.LCURL then ParseBraced(ts, st)
    else if t == Tokens.STRINGLIT then
      var o :- ParseStringLiteral(ts, st);
      Ok((Array(o.0), o.1))
    else if t == Tokens.INTLITERAL then
      (match IntValue(Lexer.LastStringAt(ts, st.pos + 1))
       case Some(v) => Ok((IntLiteral(v), Skip(ts, st)))
       case None => Err(Lexer.Panic))
    else if t == Tokens.CHARLITERAL then
      (match SyntaxParser.CharValue(Lexer.LastStringAt(ts, st.pos + 1))
       case Some(v) => Ok((CharLiteral(v), Skip(ts, st)))
       case None => Err(Lexer.Panic))
    else if t == Tokens.IDENT then ParseIdentifier(ts, st)
    else if t == Tokens.LPAREN then
      var inner :- ParseExpressions(ts, Skip(ts, st));
      var close :- Expect(ts, inner.1, Tokens.RPAREN);
      Ok((inner.0, close.1))
    else if t == Tokens.SIZEOF then ParseSizeof(ts, st)
    else
      var o :- ParseTypeExpression(ts, st);
      Ok((TypeExpression(o.0), o.1))
  }

  /** After `{`: a struct literal when `.` follows, else an array. */
  function ParseBraced(ts: seq<TokenView>, st: State): (r: Outcome<Expression>)
    requires Ready(ts, st) && Peek(ts, st) == Tokens.LCURL
    ensures r.Ok? ==> Evolves(st, r.value.1) && r.value.1.pos < |ts|
    ensures r.Ok? ==> (r.value.0.StructLiteral? <==> Peek(ts, Skip(ts, st)) == Tokens.DOT)
    ensures r.Ok? ==> r.value.0.StructLiteral? || r.value.0.Array?
    decreases |ts| - st.pos, 7
  {
    var s := Skip(ts, st);
    if Peek(ts, s) == Tokens.DOT then
      var o :- ParseStructExpression(ts, s);
      Ok((StructLiteral(o.0), o.1))
    else
      var o :- ParseArrayExpression(ts, s);
      Ok((Array(o.0), o.1))
  }

  /**
   * An identifier in an expression: a struct or typedef name starts a type
   * expression; otherwise a name followed by `(` is a call, and any other
   * name must be a variable in scope, read at its stack offset.
   */
  function ParseIdentifier(ts: seq<TokenView>, st: State): (r: Outcome<Expression>)
    requires Ready(ts, st) && Peek(ts, st) == Tokens.IDENT
    ensures r.Ok? ==> Evolves(st, r.value.1) && r.value.1.pos < |ts|
    decreases |ts| - st.pos, 7
  {
    var name := ts[st.pos].str;
    if GetStruct(st.scope, name).Some? || GetTypedef(st.scope, name).Some? then
      var o :- ParseTypeExpression(ts, st);
      Ok((TypeExpression(o.0), o.1))
    else
      var id := Skip(ts, st);
      if Peek(ts, id) == Tokens.LPAREN then
        var o :- ParseFunctionCall(ts, id);
        Ok((Call(o.0), o.1))
      else
        match GetVariable(id.scope, name)
        case Some(v) => Ok((NamedVariable(v.offset, v.dataType), id))
        case None => Fail(ts, id, "Variable " + name + " not found!")
  }

  /** `sizeof ( e )`: the size of e's type, as an `int` literal. */
  function ParseSizeof(ts: seq<TokenView>, st: State): (r: Outcome<Expression>)
    requires Ready(ts, st) && Peek(ts, st) == Tokens.SIZEOF
    ensures r.Ok? ==> Evolves(st, r.value.1) && r.value.1.pos < |ts|
    ensures r.Ok? ==> r.value.0.IntLiteral?
    decreases |ts| - st.pos, 7
  {
    var open :- Expect(ts, Skip(ts, st), Tokens.LPAREN);
    var inner :- ParseExpressions(ts, open.1);
    var close :- Expect(ts, inner.1, Tokens.RPAREN);
    var measured :- Typed(inner.0);
    Ok((IntLiteral(Size(measured)), close.1))
  }

  /** The string arm of the array parser: the string takes the next loop label. */
  function ParseStringLiteral(ts: seq<TokenView>, st: State): (r: Outcome<ArrayExpression>)
    requires Ready(ts, st)
    ensures r.Ok? ==> Evolves(st, r.value.1) && r.value.1.pos < |ts|
    ensures r.Ok? ==> r.value.0 == StringLiteral(st.labelIndex + 1, ts[st.pos].str) && r.value.1.labelIndex == st.labelIndex + 1
  {
    var counter := NextLabelIndex(st);
    var text :- Expect(ts, counter.1, Tokens.STRINGLIT);
    Ok((StringLiteral(counter.0, text.0), text.1))
  }

  /**
   * The array parser, after `{`: a string literal, or a non-empty list of
   * elements up to `}`, each reserving its size on the stack.  The array
   * has the first element's type as base and sits at the stack size once
   * all elements are parsed.
   */
  function ParseArrayExpression(ts: seq<TokenView>, st: State): (r: Outcome<ArrayExpression>)
    requires Ready(ts, st)
    ensures r.Ok? ==> Evolves(st, r.value.1) && r.value.1.pos < |ts|
    decreases |ts| - st.pos, 23
  {
    if Peek(ts, st) == Tokens.STRINGLIT then ParseStringLiteral(ts, st)
    else if Peek(ts, st) == Tokens.RCURL then Fail(ts, st, "Cannot create empty array")
    else
      var o :- ParseElements(ts, st, [], []);
      var close := Skip(ts, o.1);
      var base := o.0.1[0];
      Ok((StackArray(PTR(base), o.0.0, close.scope.stackSize, base), close))
  }

  /**
   * The element loop: until `}`, one element after the other.  The types
   * are kept beside the elements, and the stack grows by at least their
   * sizes.
   */
  function ParseElements(ts: seq<TokenView>, st: State, elements: seq<Expression>, types: seq<DataType>): (r: Outcome<(seq<Expression>, seq<DataType>)>)
    requires Ready(ts, st) && ElementsTyped(elements, types) && ChainConverts(types)
    ensures r.Ok? ==> Reaches(st, r.value.1) && r.value.1.pos < |ts| && Peek(ts, r.value.1) == Tokens.RCURL
    ensures r.Ok? ==> ElementsTyped(r.value.0.0, r.value.0.1) && ChainConverts(r.value.0.1) && elements <= r.value.0.0 && types <= r.value.0.1
    ensures r.Ok? ==> r.value.1.scope.stackSize - SizeSum(r.value.0.1) >= st.scope.stackSize - SizeSum(types)
    ensures r.Ok? && Peek(ts, st) != Tokens.RCURL ==> |r.value.0.0| > |elements|
    decreases |ts| - st.pos, 22
  {
    if Peek(ts, st) == Tokens.RCURL then Ok(((elements, types), st))
    else
      var o :- ParseElement(ts, st, types);
      ElementsAppend(elements, types, o.0.0, o.0.1);
      ParseElements(ts, o.1, elements + [o.0.0], types + [o.0.1])
  }

  /**
   * One element: an expression whose type must equal or convert to the
   * type of the element before it, an optional comma, and the element's
   * size reserved on the stack.
   */
  function ParseElement(ts: seq<TokenView>, st: State, types: seq<DataType>): (r: Outcome<(Expression, DataType)>)
    requires Ready(ts, st)
    ensures r.Ok? ==> Evolves(st, r.value.1) && r.value.1.pos < |ts|
    ensures r.Ok? ==> TypeOf(r.value.0.0) == Some(r.value.0.1)
    ensures r.Ok? && types != [] ==> r.value.0.1 == types[|types| - 1] || CanConvert(r.value.0.1, types[|types| - 1])
    ensures r.Ok? ==> r.value.1.scope.stackSize >= st.scope.stackSize + Size(r.value.0.1)
    decreases |ts| - st.pos, 21
  {
    var e :- ParseExpressions(ts, st);
    var t :- Typed(e.0);
    if types != [] && t != types[|types| - 1] && !CanConvert(t, types[|types| - 1]) then
      Fail(ts, e.1, "Array member must share the same datatype!")
    else
      var s := SkipComma(ts, e.1);
      Ok(((e.0, t), s.(scope := AddStack(s.scope, Size(t)))))
  }

  /** An element appended with its type keeps the elements typed and the chain converting. */
  lemma ElementsAppend(elements: seq<Expression>, types: seq<DataType>, e: Expression, t: DataType)
    requires ElementsTyped(elements, types) && ChainConverts(types) && TypeOf(e) == Some(t)
    requires types != [] ==> t == types[|types| - 1] || CanConvert(t, types[|types| - 1])
    ensures ElementsTyped(elements + [e], types + [t]) && ChainConverts(types + [t])
    ensures SizeSum(types + [t]) == SizeSum(types) + Size(t)
  {
    var es, ts := elements + [e], types + [t];
    assert ts[..|types|] == types;
    forall k | 0 <= k < |es|
      ensures TypeOf(es[k]) == Some(ts[k])
    {
      if k < |elements| {
        assert es[k] == elements[k] && ts[k] == types[k];
      }
    }
    forall k | 0 < k < |ts|
      ensures ts[k] == ts[k - 1] || CanConvert(ts[k], ts[k - 1])
    {
      if k < |types| {
        assert ts[k] == types[k] && ts[k - 1] == types[k - 1];
      }
    }
  }

  /** Each element has the type beside it. */
  predicate ElementsTyped(elements: seq<Expression>, types: seq<DataType>) {
    |elements| == |types| && forall k :: 0 <= k < |elements| ==> TypeOf(elements[k]) == Some(types[k])
  }

  /** Each type equals or converts to the type before it. */
  predicate ChainConverts(types: seq<DataType>) {
    forall k :: 0 < k < |types| ==> types[k] == types[k - 1] || CanConvert(types[k], types[k - 1])
  }

  /** The sizes of the types added up. */
  function SizeSum(types: seq<DataType>): nat {
    if types == [] then 0 else SizeSum(types[..|types| - 1]) + Size(types[|types| - 1])
  }

  /**
   * The stores of a struct literal: the first field's at `offset`, each
   * next one lower by the size of the field before it.
   */
  function Stores(fields: seq<Variable>, values: seq<Expression>, offset: int): (r: seq<Assignment>)
    requires |fields| == |values|
    ensures |r| == |fields|
    decreases |fields|
  {
    if fields == [] then []
    else [VariableAssignment(offset, fields[0].dataType, values[0])] + Stores(fields[1..], values[1..], offset - Size(fields[0].dataType))
  }

  /** One variable store per field, field k's at `offset` less the sizes of the fields before it, with the field's type. */
  predicate CountsDown(stores: seq<Assignment>, fields: seq<Variable>, offset: int) {
    |stores| == |fields| &&
    forall k :: 0 <= k < |fields| ==>
      stores[k].VariableAssignment? && stores[k].stackOffset == offset - FieldsSize(fields[..k]) && stores[k].dataType == fields[k].dataType
  }

  /** `Stores` counts down. */
  lemma StoresCountDown(fields: seq<Variable>, values: seq<Expression>, offset: int)
    requires |fields| == |values|
    ensures CountsDown(Stores(fields, values, offset), fields, offset)
  {
    forall k | 0 <= k < |fields|
      ensures Stores(fields, values, offset)[k] == VariableAssignment(offset - FieldsSize(fields[..k]), fields[k].dataType, values[k])
    {
      StoreAt(fields, values, offset, k);
    }
  }

  /** The store of field k. */
  lemma {:induction false} StoreAt(fields: seq<Variable>, values: seq<Expression>, offset: int, k: nat)
    requires k < |fields| == |values|
    ensures Stores(fields, values, offset)[k] == VariableAssignment(offset - FieldsSize(fields[..k]), fields[k].dataType, values[k])
    decreases k
  {
    if k == 0 {
      assert fields[..0] == [];
    } else {
      StoreAt(fields[1..], values[1..], offset - Size(fields[0].dataType), k - 1);
      FieldsSizeFront(fields, k);
    }
  }

  /** The sizes of the first k fields: the first field's, then the next k - 1. */
  lemma FieldsSizeFront(fields: seq<Variable>, k: nat)
    requires 0 < k <= |fields|
    ensures FieldsSize(fields[..k]) == Size(fields[0].dataType) + FieldsSize(fields[1..][..k - 1])
  {
    assert fields[..k] == [fields[0]] + fields[1..][..k - 1];
    FieldsSizeAppend([fields[0]], fields[1..][..k - 1]);
    assert [fields[0]][..0] == [];
  }

  /** The first struct whose fields are exactly `fields`. */
  function Matching(structs: seq<Struct>, fields: seq<Variable>): (r: Option<Struct>)
    ensures r.Some? ==> r.value in structs && FieldsEqual(r.value, fields)
    ensures r.None? <==> forall k :: 0 <= k < |structs| ==> !FieldsEqual(structs[k], fields)
  {
    if structs == [] then None
    else if FieldsEqual(structs[0], fields) then Some(structs[0])
    else Matching(structs[1..], fields)
  }

  /**
   * The struct-literal parser, after `{`: the fields up to `}`, the
   * literal's size reserved on the stack, one store per field counting
   * down from the new stack size, and the first struct in scope whose
   * fields are exactly the literal's.
   */
  function ParseStructExpression(ts: seq<TokenView>, st: State): (r: Outcome<StructExpression>)
    requires Ready(ts, st)
    ensures r.Ok? ==> Evolves(st, r.value.1) && r.value.1.pos < |ts|
    ensures r.Ok? ==> var literal := r.value.0;
      && literal.dataType.STRUCT? && literal.dataType.s in Structs(r.value.1.scope.frames)
      && literal.offset == r.value.1.scope.stackSize >= st.scope.stackSize + FieldsSize(literal.dataType.s.fields)
      && CountsDown(literal.assignments, literal.dataType.s.fields, literal.offset)
    decreases |ts| - st.pos, 9
  {
    var o :- ParseLiteralFields(ts, st, [], [], 0);
    var fields := o.0.0;
    var reserved := o.1.(scope := AddStack(o.1.scope, FieldsSize(fields)));
    var stores := Stores(fields, o.0.1, reserved.scope.stackSize);
    StoresCountDown(fields, o.0.1, reserved.scope.stackSize);
    var close := Skip(ts, reserved);
    match Matching(Structs(close.scope.frames), fields)
    case Some(x) => Ok((StructExpression(stores, close.scope.stackSize, STRUCT(x)), close))
    case None => Fail(ts, close, "Struct expressions does not equal any struct!")
  }

  /**
   * The field loop of the struct literal: until `}`, `.name = value`,
   * separated by commas; each field starts where the ones before it end.
   */
  function ParseLiteralFields(ts: seq<TokenView>, st: State, fields: seq<Variable>, values: seq<Expression>, offset: nat): (r: Outcome<(seq<Variable>, seq<Expression>)>)
    requires Ready(ts, st) && |fields| == |values| && LaidOut(fields) && offset == FieldsSize(fields)
    ensures r.Ok? ==> Reaches(st, r.value.1) && r.value.1.pos < |ts| && Peek(ts, r.value.1) == Tokens.RCURL
    ensures r.Ok? ==> |r.value.0.0| == |r.value.0.1| && LaidOut(r.value.0.0) && fields <= r.value.0.0
    decreases |ts| - st.pos, 8
  {
    if Peek(ts, st) == Tokens.RCURL then Ok(((fields, values), st))
    else
      var o :- ParseLiteralField(ts, st, offset);
      var field := o.0.0;
      LaidOutAppend(fields, field);
      ParseLiteralFields(ts, o.1, fields + [field], values + [o.0.1], offset + Size(field.dataType))
  }

  /**
   * One field of a struct literal: `.name = value`, then a comma unless
   * `}` follows.  The field has the value's type and ends `offset` plus its
   * size into the literal.
   */
  function ParseLiteralField(ts: seq<TokenView>, st: State, offset: nat): (r: Outcome<(Variable, Expression)>)
    requires Ready(ts, st)
    ensures r.Ok? ==> Evolves(st, r.value.1) && r.value.1.pos < |ts|
    ensures r.Ok? ==> TypeOf(r.value.0.1) == Some(r.value.0.0.dataType) && r.value.0.0.offset == offset + Size(r.value.0.0.dataType)
    decreases |ts| - st.pos, 7
  {
    var dot :- Expect(ts, st, Tokens.DOT);
    var name :- Expect(ts, dot.1, Tokens.IDENT);
    var assign :- Expect(ts, name.1, Tokens.ASSIGN);
    var e :- ParseExpressions(ts, assign.1);
    var t :- Typed(e.0);
    var comma :- if Peek(ts, e.1) != Tokens.RCURL then Expect(ts, e.1, Tokens.COMMA) else Ok(("", e.1));
    Ok(((NewVariable(name.0, t, offset), e.0), comma.1))
  }

  /** An argument of type `t` fits a parameter of type `p`: it has a type, and `p` equals or converts to it. */
  predicate Fits(p: DataType, t: Option<DataType>) {
    t.Some? && (p == t.value || CanConvert(p, t.value))
  }

  /**
   * The arguments of a call, checked pair by pair: each declared parameter
   * type must equal or convert to the argument's type.  The argument types
   * on success.
   */
  function CheckArguments(ts: seq<TokenView>, st: State, parameter: seq<Variable>, arguments: seq<Expression>): (r: Result<seq<DataType>, Failure>)
    requires |parameter| == |arguments|
    ensures r.Ok? <==> forall k :: 0 <= k < |arguments| ==> Fits(parameter[k].dataType, TypeOf(arguments[k]))
    ensures r.Ok? ==> |r.value| == |arguments| && forall k :: 0 <= k < |arguments| ==> Some(r.value[k]) == TypeOf(arguments[k])
    decreases |arguments|
  {
    if arguments == [] then Ok([])
    else
      var t :- Typed(arguments[0]);
      if parameter[0].dataType != t && !CanConvert(parameter[0].dataType, t) then Fail(ts, st, "Parameter type does not match up!")
      else
        var rest :- CheckArguments(ts, st, parameter[1..], arguments[1..]);
        Ok([t] + rest)
  }

  /**
   * The call parser, after the callee's name: the callee must be a known
   * function, the arguments run up to `)` with optional commas, and their
   * number and types must fit the parameters.  The call records the
   * arguments' types.
   */
  function ParseFunctionCall(ts: seq<TokenView>, st: State): (r: Outcome<FunctionCall>)
    requires Ready(ts, st) && st.pos > 0
    ensures r.Ok? ==> Evolves(st, r.value.1) && r.value.1.pos < |ts|
    decreases |ts| - st.pos, 9
  {
    var name := Lexer.LastStringAt(ts, st.pos);
    match GetFunction(st.scope, name)
    case None => Fail(ts, st, "Cannot call undefined function " + name + "!")
    case Some(f) =>
      var open :- Expect(ts, st, Tokens.LPAREN);
      var arguments :- ParseArguments(ts, open.1, []);
      var close := Skip(ts, arguments.1);
      if |arguments.0| != |f.parameter| then Fail(ts, close, "Parameter count does not match up!")
      else
        var types :- CheckArguments(ts, close, f.parameter, arguments.0);
        Ok((FunctionCall(name, arguments.0, types, f.returnType), close))
  }

  /** The argument loop: until `)`, an expression and an optional comma. */
  function ParseArguments(ts: seq<TokenView>, st: State, arguments: seq<Expression>): (r: Outcome<seq<Expression>>)
    requires Ready(ts, st)
    ensures r.Ok? ==> Reaches(st, r.value.1) && r.value.1.pos < |ts| && Peek(ts, r.value.1) == Tokens.RPAREN
    ensures r.Ok? ==> arguments <= r.value.0
    decreases |ts| - st.pos, 21
  {
    if Peek(ts, st) == Tokens.RPAREN then Ok((arguments, st))
    else
      var e :- ParseExpressions(ts, st);
      ParseArguments(ts, SkipComma(ts, e.1), arguments + [e.0])
  }

  /** The store of a value through an address: checked against the pointee when the address is a pointer. */
  function CheckStore(ts: seq<TokenView>, st: State, address: DataType, value: Expression): (r: Result<bool, Failure>)
    ensures r.Ok? && address.PTR? ==> TypeOf(value).Some? && (address.base == TypeOf(value).value || CanConvert(address.base, TypeOf(value).value))
    ensures !address.PTR? ==> r.Ok?
  {
    if address.PTR? then
      var t :- Typed(value);
      CheckDataTypes(ts, st, address.base, t)
    else Ok(true)
  }

  /**
   * The assignment parser: `=`, then the right side, stored according to
   * the assignee: a variable, an indexed or dereferenced address, or a
   * field.  The type test runs from the target's type to the value's.
   */
  function ParseAssignment(ts: seq<TokenView>, st: State): (r: Outcome<Assignment>)
    requires Ready(ts, st)
    ensures r.Ok? ==> Evolves(st, r.value.1) && r.value.1.pos < |ts|
    decreases |ts| - st.pos, 9
  {
    var assign :- Expect(ts, st, Tokens.ASSIGN);
    var s := assign.1;
    match st.assignee
    case None => Err(Lexer.Panic)
    case Some(target) =>
      match target
      case NamedVariable(offset, t) =>
        var v :- ParseCheckedValue(ts, s, t);
        Ok((VariableAssignment(offset, t, v.0), v.1))
      case Indexing(index, operand) =>
        var v :- ParseStoredValue(ts, s, operand);
        Ok((ArrayAssignment(index, v.0, operand), v.1))
      case Unary(address, op) =>
        if !op.Deref? then Fail(ts, s, "can only assing expression to a variable or pointer!")
        else
          var v :- ParseStoredValue(ts, s, address);
          Ok((PtrAssignment(v.0, address), v.1))
      case FieldAccess(offset, t, operand) =>
        var v :- ParseCheckedValue(ts, s, t);
        Ok((FieldAssignment(offset, operand, v.0), v.1))
      case _ => Fail(ts, s, "Cannot assign expression to non variable!")
  }

  /** The right side of a store into a variable or field of type `target`: its type must equal or convert from `target`. */
  function ParseCheckedValue(ts: seq<TokenView>, st: State, target: DataType): (r: Outcome<Expression>)
    requires Ready(ts, st)
    ensures r.Ok? ==> Evolves(st, r.value.1) && r.value.1.pos < |ts|
    ensures r.Ok? ==> TypeOf(r.value.0).Some? && (target == TypeOf(r.value.0).value || CanConvert(target, TypeOf(r.value.0).value))
    decreases |ts| - st.pos, 21
  {
    var v :- ParseExpressions(ts, st);
    var t :- Typed(v.0);
    var checked :- CheckDataTypes(ts, v.1, target, t);
    Ok(v)
  }

  /**
   * The right side of a store through `address`: when the address is a
   * pointer, the pointee type must equal or convert to the value's type;
   * otherwise nothing is checked.
   */
  function ParseStoredValue(ts: seq<TokenView>, st: State, address: Expression): (r: Outcome<Expression>)
    requires Ready(ts, st)
    ensures r.Ok? ==> Evolves(st, r.value.1) && r.value.1.pos < |ts|
    ensures r.Ok? ==> TypeOf(address).Some?
    ensures r.Ok? && TypeOf(address).value.PTR? ==>
      TypeOf(r.value.0).Some? && (TypeOf(address).value.base == TypeOf(r.value.0).value || CanConvert(TypeOf(address).value.base, TypeOf(r.value.0).value))
    decreases |ts| - st.pos, 21
  {
    var v :- ParseExpressions(ts, st);
    var at :- Typed(address);
    var checked :- CheckStore(ts, v.1, at, v.0);
    Ok(v)
  }

  // ---------------------------------------------------------------------
  // Declarations and typedefs (src/ast/statement.rs, type_definition.rs)
  // ---------------------------------------------------------------------

  /**
   * `parse_variable_declaration`: a type; a bare `T;` is a type expression
   * statement.  Otherwise the declarator, then an optional initializer.
   */
  function ParseVariableDeclaration(ts: seq<TokenView>, st: State): (r: Outcome<Statement>)
    requires Ready(ts, st)
    ensures r.Ok? ==> Evolves(st, r.value.1) && r.value.1.pos < |ts|
    ensures r.Ok? ==> r.value.0.VariableDeclaration? || (r.value.0.SingleExpression? && r.value.0.expression.TypeExpression?)
  {
    var te :- ParseTypeExpression(ts, st);
    if Peek(ts, te.1) == Tokens.SEMIC then Ok((SingleExpression(TypeExpression(te.0)), te.1))
    else
      var declared :- ParseDeclarator(ts, te.1, te.0);
      var v := declared.0;
      var init :- ParseInitializer(ts, declared.1, v);
      Ok((VariableDeclaration(v, init.0), init.1))
  }

  /**
   * The declarator after the type: a name not yet in scope, `[]` for a
   * pointer to the type; the variable is placed at the stack size and
   * added to the scope.
   */
  function ParseDeclarator(ts: seq<TokenView>, st: State, t: DataType): (r: Outcome<Variable>)
    requires Ready(ts, st)
    ensures r.Ok? ==> Evolves(st, r.value.1) && r.value.1.pos < |ts|
    ensures r.Ok? ==>
      var v := r.value.0;
      && GetVariable(st.scope, v.name).None? && r.value.1.scope == AddVariable(st.scope, v)
      && (v.dataType == t || v.dataType == PTR(t)) && v.offset == st.scope.stackSize + Size(v.dataType)
  {
    var name :- Expect(ts, st, Tokens.IDENT);
    var s := name.1;
    if GetVariable(s.scope, name.0).Some? then Fail(ts, s, "Variable " + name.0 + " already declared in scope!")
    else
      var declared :-
        if Peek(ts, s) == Tokens.LBRACE then
          var close :- Expect(ts, Skip(ts, s), Tokens.RBRACE);
          Ok((NewVariable(name.0, PTR(t), s.scope.stackSize), close.1))
        else Ok((NewVariable(name.0, t, s.scope.stackSize), s));
      var v := declared.0;
      Ok((v, declared.1.(scope := AddVariable(declared.1.scope, v))))
  }

  /**
   * The optional initializer of a declaration: after `=`, a value whose
   * type converts to the variable's, stored at the variable's offset.
   */
  function ParseInitializer(ts: seq<TokenView>, st: State, v: Variable): (r: Outcome<Option<Assignment>>)
    requires Ready(ts, st)
    ensures r.Ok? ==> Reaches(st, r.value.1) && r.value.1.pos < |ts|
    ensures r.Ok? ==> (r.value.0.Some? <==> Peek(ts, st) == Tokens.ASSIGN)
    ensures r.Ok? && r.value.0.Some? ==>
      && r.value.0.value.VariableAssignment? && r.value.0.value.stackOffset == v.offset && r.value.0.value.dataType == v.dataType
      && TypeOf(r.value.0.value.expression).Some? && CanConvert(TypeOf(r.value.0.value.expression).value, v.dataType)
  {
    if Peek(ts, st) == Tokens.ASSIGN then
      var e :- ParseExpressions(ts, Skip(ts, st));
      var et :- Typed(e.0);
      if !CanConvert(et, v.dataType) then Fail(ts, e.1, "cannot convert types!")
      else Ok((Some(VariableAssignment(v.offset, v.dataType, e.0)), e.1))
    else Ok((None, st))
  }

  /** The typedef parser: `typedef`, a type, a name not yet defined as a type; the typedef joins the scope. */
  function ParseTypeDefinition(ts: seq<TokenView>, st: State): (r: Outcome<TypeDefinition>)
    requires Ready(ts, st)
    ensures r.Ok? ==> Evolves(st, r.value.1) && r.value.1.pos < |ts|
  {
    var keyword :- Expect(ts, st, Tokens.TYPEDEF);
    var te :- ParseTypeExpression(ts, keyword.1);
    var name :- Expect(ts, te.1, Tokens.IDENT);
    var s := name.1;
    if GetTypedef(s.scope, name.0).Some? then Fail(ts, s, "Type " + name.0 + " already defined!")
    else
      var d := TypeDefinition(name.0, te.0);
      Ok((d, s.(scope := AddTypedef(s.scope, d))))
  }

  // ---------------------------------------------------------------------
  // Statements (src/ast/statement.rs, statement_list.rs, if_statement.rs,
  // for_statement.rs, while_statement.rs)
  // ---------------------------------------------------------------------

  /**
   * The statement parser.  `if`, `for`, `while` and blocks take no `;`;
   * `continue`, `break` and `return` are parsed on their own; every other
   * statement ends with a `;`.
   */
  function ParseStatement(ts: seq<TokenView>, st: State): (r: Outcome<Statement>)
    requires Ready(ts, st)
    ensures r.Ok? ==> Evolves(st, r.value.1) && r.value.1.pos < |ts|
    ensures r.Ok? ==> LabelsIn(r.value.0, st.labelIndex, r.value.1.labelIndex)
    decreases |ts| - st.pos, 2
  {
    var t := Peek(ts, st);
    if t == Tokens.CONTINUE || t == Tokens.BREAK then ParseLoopExit(ts, st)
    else if t == Tokens.RETURN then ParseReturn(ts, st)
    else if t == Tokens.IF then
      var o :- ParseIf(ts, st);
      Ok((If(o.0), o.1))
    else if t == Tokens.FOR then
      var o :- ParseFor(ts, st);
      Ok((For(o.0), o.1))
    else if t == Tokens.WHILE then
      var o :- ParseWhile(ts, st);
      Ok((While(o.0), o.1))
    else if t == Tokens.LCURL then
      var o :- ParseBlock(ts, st);
      Ok((Block(o.0), o.1))
    else ParseSimpleStatement(ts, st)
  }

  /**
   * `continue` and `break`: a loop label must have been handed out, and
   * the statement takes the latest one; then `;`.
   */
  function ParseLoopExit(ts: seq<TokenView>, st: State): (r: Outcome<Statement>)
    requires Ready(ts, st) && (Peek(ts, st) == Tokens.CONTINUE || Peek(ts, st) == Tokens.BREAK)
    ensures r.Ok? ==> Evolves(st, r.value.1) && r.value.1.pos < |ts|
    ensures r.Ok? <==> st.labelIndex > 0 && Peek(ts, Skip(ts, st)) == Tokens.SEMIC
    ensures r.Ok? ==> r.value.0 == (if Peek(ts, st) == Tokens.CONTINUE then Continue(st.labelIndex) else Break(st.labelIndex))
  {
    var t := Peek(ts, st);
    if st.labelIndex == 0 then
      Fail(ts, st, if t == Tokens.CONTINUE then "Continue may only be used inside a loop!" else "Break may only be used inside a loop!")
    else
      var semi :- Expect(ts, Skip(ts, st), Tokens.SEMIC);
      Ok((if t == Tokens.CONTINUE then Continue(st.labelIndex) else Break(st.labelIndex), semi.1))
  }

  /** `return`, then `;` alone, which is left for the next statement, or a value and its `;`. */
  function ParseReturn(ts: seq<TokenView>, st: State): (r: Outcome<Statement>)
    requires Ready(ts, st) && Peek(ts, st) == Tokens.RETURN
    ensures r.Ok? ==> Evolves(st, r.value.1) && r.value.1.pos < |ts|
    ensures r.Ok? ==> r.value.0.Return?
    ensures r.Ok? && r.value.0.result.None? ==> r.value.1.pos == st.pos + 1 && Peek(ts, r.value.1) == Tokens.SEMIC
  {
    var keyword := Skip(ts, st);
    if Peek(ts, keyword) == Tokens.SEMIC then Ok((Return(None), keyword))
    else
      var e :- ParseExpressions(ts, keyword);
      var semi :- Expect(ts, e.1, Tokens.SEMIC);
      Ok((Return(Some(e.0)), semi.1))
  }

  /**
   * The statements that end with `;`: a declaration when a type starts
   * it, a typedef, the empty statement, or an expression.
   */
  function ParseSimpleStatement(ts: seq<TokenView>, st: State): (r: Outcome<Statement>)
    requires Ready(ts, st)
    ensures r.Ok? ==> Evolves(st, r.value.1) && r.value.1.pos < |ts|
    ensures r.Ok? ==> r.value.0.VariableDeclaration? || r.value.0.SingleExpression? || r.value.0.Typedef? || r.value.0.Empty?
    ensures r.Ok? ==> ts[r.value.1.pos - 1].token == Tokens.SEMIC
  {
    var o :- ParseSimpleBody(ts, st);
    var semi :- Expect(ts, o.1, Tokens.SEMIC);
    Ok((o.0, semi.1))
  }

  /** What a simple statement holds before its `;`, chosen by the token that starts it. */
  function ParseSimpleBody(ts: seq<TokenView>, st: State): (r: Outcome<Statement>)
    requires Ready(ts, st)
    ensures r.Ok? ==> Reaches(st, r.value.1) && r.value.1.pos < |ts| && (r.value.0.Empty? || st.pos < r.value.1.pos)
    ensures r.Ok? ==> r.value.0.VariableDeclaration? || r.value.0.SingleExpression? || r.value.0.Typedef? || r.value.0.Empty?
  {
    var t := Peek(ts, st);
    if IsTypeKeyword(t) || (t == Tokens.IDENT && (GetStruct(st.scope, ts[st.pos].str).Some? || GetTypedef(st.scope, ts[st.pos].str).Some?)) then
      ParseVariableDeclaration(ts, st)
    else if t == Tokens.TYPEDEF then
      var d :- ParseTypeDefinition(ts, st);
      Ok((Typedef(d.0), d.1))
    else if t == Tokens.SEMIC then Ok((Empty, st))
    else
      var e :- ParseExpressions(ts, st);
      Ok((SingleExpression(e.0), e.1))
  }

  /**
   * The statement-list parser: without `{`, one statement that must not be
   * a declaration, with stack size 0; with `{`, a block.
   */
  function ParseStatementList(ts: seq<TokenView>, st: State): (r: Outcome<StatementList>)
    requires Ready(ts, st)
    ensures r.Ok? ==> Evolves(st, r.value.1) && r.value.1.pos < |ts|
    ensures r.Ok? ==> ListLabelsIn(r.value.0, st.labelIndex, r.value.1.labelIndex)
    decreases |ts| - st.pos, 3
  {
    if Peek(ts, st) != Tokens.LCURL then
      var s :- ParseStatement(ts, st);
      if s.0.VariableDeclaration? then Fail(ts, s.1, "A depended statement may not be a variable declaration!")
      else Ok((StatementList([s.0], 0), s.1))
    else ParseBlock(ts, st)
  }

  /**
   * The `{` arm of the statement list: a frame opened after `{`, the
   * statements up to `}`, the stack size recorded, the frame closed and
   * `}` consumed.
   */
  function ParseBlock(ts: seq<TokenView>, st: State): (r: Outcome<StatementList>)
    requires Ready(ts, st) && Peek(ts, st) == Tokens.LCURL
    ensures r.Ok? ==> Evolves(st, r.value.1) && r.value.1.pos < |ts|
    ensures r.Ok? ==> ListLabelsIn(r.value.0, st.labelIndex, r.value.1.labelIndex)
    decreases |ts| - st.pos, 1
  {
    var inner := Skip(ts, st).(scope := Push(st.scope));
    var o :- ParseStatements(ts, inner, []);
    var size := o.1.scope.stackSize;
    PopAfterPush(st.scope, o.1.scope);
    Ok((StatementList(o.0, size), Skip(ts, o.1).(scope := Pop(o.1.scope))))
  }

  /** The statement loop of a block: statements until `}`. */
  function ParseStatements(ts: seq<TokenView>, st: State, statements: seq<Statement>): (r: Outcome<seq<Statement>>)
    requires Ready(ts, st)
    ensures r.Ok? ==> Reaches(st, r.value.1) && r.value.1.pos < |ts| && Peek(ts, r.value.1) == Tokens.RCURL
    ensures r.Ok? ==> statements <= r.value.0
    ensures r.Ok? ==> forall k :: |statements| <= k < |r.value.0| ==> LabelsIn(r.value.0[k], st.labelIndex, r.value.1.labelIndex)
    decreases |ts| - st.pos, 3
  {
    if Peek(ts, st) == Tokens.RCURL then Ok((statements, st))
    else
      var s :- ParseStatement(ts, st);
      var rest :- ParseStatements(ts, s.1, statements + [s.0]);
      var hi := rest.1.labelIndex;
      WidenLabels(s.0, st.labelIndex, s.1.labelIndex, st.labelIndex, hi);
      WidenAllLabels(rest.0, |statements| + 1, s.1.labelIndex, hi, st.labelIndex, hi);
      Ok(rest)
  }

  /**
   * The `if` parser: `if ( condition )` and a statement list; after `else`,
   * another `if` or a statement list.
   */
  function ParseIf(ts: seq<TokenView>, st: State): (r: Outcome<IfStatement>)
    requires Ready(ts, st)
    ensures r.Ok? ==> Evolves(st, r.value.1) && r.value.1.pos < |ts|
    ensures r.Ok? ==> IfLabelsIn(r.value.0, st.labelIndex, r.value.1.labelIndex)
    decreases |ts| - st.pos, 1
  {
    var keyword :- Expect(ts, st, Tokens.IF);
    var open :- Expect(ts, keyword.1, Tokens.LPAREN);
    var condition :- ParseExpressions(ts, open.1);
    var close :- Expect(ts, condition.1, Tokens.RPAREN);
    var body :- ParseStatementList(ts, close.1);
    var elsePart :- ParseElse(ts, body.1);
    WidenListLabels(body.0, close.1.labelIndex, body.1.labelIndex, st.labelIndex, elsePart.1.labelIndex);
    WidenElseLabels(elsePart.0, body.1.labelIndex, elsePart.1.labelIndex, st.labelIndex, elsePart.1.labelIndex);
    Ok((IfStatement(body.0, condition.0, elsePart.0), elsePart.1))
  }

  /** After the `if` body: `else` and another `if` or a statement list, or no else part. */
  function ParseElse(ts: seq<TokenView>, st: State): (r: Outcome<ElsePart>)
    requires Ready(ts, st)
    ensures r.Ok? ==> Reaches(st, r.value.1) && r.value.1.pos < |ts|
    ensures r.Ok? ==> (r.value.0.NoElse? <==> Peek(ts, st) != Tokens.ELSE)
    ensures r.Ok? ==> ElseLabelsIn(r.value.0, st.labelIndex, r.value.1.labelIndex)
    decreases |ts| - st.pos, 0
  {
    if Peek(ts, st) == Tokens.ELSE then
      var s := Skip(ts, st);
      if Peek(ts, s) == Tokens.IF then
        var e :- ParseIf(ts, s);
        Ok((ElseIf(e.0), e.1))
      else
        var e :- ParseStatementList(ts, s);
        Ok((ElseList(e.0), e.1))
    else Ok((NoElse, st))
  }

  /**
   * The `for` parser, all inside a frame of its own: the label is handed
   * out after `(`, then the initial statement with its `;`, the condition
   * (the literal 1 when missing), `;`, the optional step, `)` and the body.
   */
  function ParseFor(ts: seq<TokenView>, st: State): (r: Outcome<ForStatement>)
    requires Ready(ts, st)
    ensures r.Ok? ==> Evolves(st, r.value.1) && r.value.1.pos < |ts|
    ensures r.Ok? ==> LabelsIn(For(r.value.0), st.labelIndex, r.value.1.labelIndex)
    decreases |ts| - st.pos, 1
  {
    var framed := st.(scope := Push(st.scope));
    var keyword :- Expect(ts, framed, Tokens.FOR);
    var open :- Expect(ts, keyword.1, Tokens.LPAREN);
    var counter := NextLabelIndex(open.1);
    var head :- ParseForHead(ts, counter.1);
    var body :- ParseStatementList(ts, head.1);
    WidenLabels(head.0.0, counter.0, head.1.labelIndex, counter.0, body.1.labelIndex);
    WidenListLabels(body.0, head.1.labelIndex, body.1.labelIndex, counter.0, body.1.labelIndex);
    PopAfterPush(st.scope, body.1.scope);
    Ok((ForStatement(head.0.0, head.0.1, head.0.2, body.0, counter.0), body.1.(scope := Pop(body.1.scope))))
  }

  /**
   * The head of a `for` after `(`: the initial statement with its `;`, the
   * condition (the literal 1 when missing), `;`, the optional step and `)`.
   */
  function ParseForHead(ts: seq<TokenView>, st: State): (r: Outcome<(Statement, Expression, Option<Expression>)>)
    requires Ready(ts, st)
    ensures r.Ok? ==> Evolves(st, r.value.1) && r.value.1.pos < |ts|
    ensures r.Ok? ==> LabelsIn(r.value.0.0, st.labelIndex, r.value.1.labelIndex)
    decreases |ts| - st.pos, 3
  {
    var init :- ParseStatement(ts, st);
    var rest :- ParseForRest(ts, init.1);
    WidenLabels(init.0, st.labelIndex, init.1.labelIndex, st.labelIndex, rest.1.labelIndex);
    Ok(((init.0, rest.0.0, rest.0.1), rest.1))
  }

  /** The rest of a `for` head: the condition (the literal 1 when missing), `;`, the optional step and `)`. */
  function ParseForRest(ts: seq<TokenView>, st: State): (r: Outcome<(Expression, Option<Expression>)>)
    requires Ready(ts, st)
    ensures r.Ok? ==> Evolves(st, r.value.1) && r.value.1.pos < |ts|
    ensures r.Ok? && Peek(ts, st) == Tokens.SEMIC ==> r.value.0.0 == IntLiteral(1)
  {
    var condition :-
      if Peek(ts, st) != Tokens.SEMIC then ParseExpressions(ts, st) else Ok((IntLiteral(1), st));
    var semi :- Expect(ts, condition.1, Tokens.SEMIC);
    var post :-
      if Peek(ts, semi.1) != Tokens.RPAREN then
        var p :- ParseExpressions(ts, semi.1);
        Ok((Some(p.0), p.1))
      else Ok((None, semi.1));
    var close :- Expect(ts, post.1, Tokens.RPAREN);
    Ok(((condition.0, post.0), close.1))
  }

  /** The `while` parser: `while ( condition )`, then the label is handed out, then the body. */
  function ParseWhile(ts: seq<TokenView>, st: State): (r: Outcome<WhileStatement>)
    requires Ready(ts, st)
    ensures r.Ok? ==> Evolves(st, r.value.1) && r.value.1.pos < |ts|
    ensures r.Ok? ==> LabelsIn(While(r.value.0), st.labelIndex, r.value.1.labelIndex)
    decreases |ts| - st.pos, 1
  {
    var keyword :- Expect(ts, st, Tokens.WHILE);
    var open :- Expect(ts, keyword.1, Tokens.LPAREN);
    var condition :- ParseExpressions(ts, open.1);
    var close :- Expect(ts, condition.1, Tokens.RPAREN);
    var counter := NextLabelIndex(close.1);
    var body :- ParseStatementList(ts, counter.1);
    Ok((WhileStatement(condition.0, body.0, counter.0), body.1))
  }

  // ---------------------------------------------------------------------
  // Functions and the program (src/ast/function.rs, program.rs)
  // ---------------------------------------------------------------------

  /**
   * Whether a redeclaration's parameters agree with the earlier ones: the
   * same number, and pairwise the same types.
   */
  predicate ParametersAgree(own: seq<Variable>, other: seq<Variable>) {
    |own| == |other| && forall k :: 0 <= k < |own| ==> own[k].dataType == other[k].dataType
  }

  /**
   * The parameter check of `valid` as written: it runs over the zipped
   * pairs only, and compares the counts inside that loop, so with no pair
   * to visit it accepts any counts.
   */
  predicate ZippedParametersAgree(own: seq<Variable>, other: seq<Variable>)
    decreases |own|
  {
    if own == [] || other == [] then true
    else own[0].dataType == other[0].dataType && |own| == |other| && ZippedParametersAgree(own[1..], other[1..])
  }

  /**
   * `valid`: a function already in scope under the name must have the same
   * return type, must not have a body as well, and must agree in its
   * parameters.
   */
  function CheckRedeclaration(ts: seq<TokenView>, st: State, f: Function): (r: Result<bool, Failure>)
    ensures r.Ok? <==>
      GetFunction(st.scope, f.name).None? ||
      var x := GetFunction(st.scope, f.name).value;
      x.returnType == f.returnType && !(x.statements.Some? && f.statements.Some?) && ParametersAgree(f.parameter, x.parameter)
  {
    match GetFunction(st.scope, f.name)
    case None => Ok(true)
    case Some(x) =>
      if x.returnType != f.returnType then Fail(ts, st, "Declaration is incompatible with other declaration!")
      else if x.statements.Some? && f.statements.Some? then Fail(ts, st, "Function " + f.name + " already exists!")
      else if !ParametersAgree(f.parameter, x.parameter) then Fail(ts, st, "Declaration is incompatible with other declaration!")
      else Ok(true)
  }

  /**
   * `parse_parameter`: a type and a name not yet in scope; the parameter is
   * added at the stack size, and one comma after it is skipped.
   */
  function ParseParameter(ts: seq<TokenView>, st: State): (r: Outcome<Variable>)
    requires Ready(ts, st)
    ensures r.Ok? ==> Evolves(st, r.value.1) && r.value.1.pos < |ts|
  {
    var te :- ParseTypeExpression(ts, st);
    var name :- Expect(ts, te.1, Tokens.IDENT);
    var s := name.1;
    var v := NewVariable(name.0, te.0, s.scope.stackSize);
    if GetVariable(s.scope, name.0).Some? then Fail(ts, s, "Parameter with name " + name.0 + " already declared in scope!")
    else
      var added := s.(scope := AddVariable(s.scope, v));
      Ok((v, SkipComma(ts, added)))
  }

  /** The parameter loop: parameters until `)`. */
  function ParseParameters(ts: seq<TokenView>, st: State, parameter: seq<Variable>): (r: Outcome<seq<Variable>>)
    requires Ready(ts, st)
    ensures r.Ok? ==> Reaches(st, r.value.1) && r.value.1.pos < |ts| && Peek(ts, r.value.1) == Tokens.RPAREN
    ensures r.Ok? ==> parameter <= r.value.0
    decreases |ts| - st.pos
  {
    if Peek(ts, st) == Tokens.RPAREN then Ok((parameter, st))
    else
      var p :- ParseParameter(ts, st);
      ParseParameters(ts, p.1, parameter + [p.0])
  }

  /**
   * The function parser, all inside a frame of its own: the return type,
   * the name, the parameters in `( )`; then `;` for a prototype with stack
   * size 0, or a body whose stack size the function takes.  The function is
   * checked against an earlier declaration and added to the scope after
   * its frame is closed.
   */
  function ParseFunction(ts: seq<TokenView>, st: State): (r: Outcome<Function>)
    requires Ready(ts, st)
    ensures r.Ok? ==> Evolves(st, r.value.1) && r.value.1.pos < |ts|
  {
    var framed := st.(scope := Push(st.scope));
    var signature :- ParseSignature(ts, framed);
    var defined :- ParseFunctionBody(ts, signature.1, signature.0.0, signature.0.1, signature.0.2);
    var f := defined.0;
    var checked :- CheckRedeclaration(ts, defined.1, f);
    PopAfterPush(st.scope, defined.1.scope);
    var closed := Pop(defined.1.scope);
    Ok((f, defined.1.(scope := AddFunction(closed, f))))
  }

  /** The return type, the name and the parameters in `( )` of a function. */
  function ParseSignature(ts: seq<TokenView>, st: State): (r: Outcome<(DataType, string, seq<Variable>)>)
    requires Ready(ts, st)
    ensures r.Ok? ==> Evolves(st, r.value.1) && r.value.1.pos < |ts|
  {
    var te :- ParseTypeExpression(ts, st);
    var name :- Expect(ts, te.1, Tokens.IDENT);
    var open :- Expect(ts, name.1, Tokens.LPAREN);
    var parameter :- ParseParameters(ts, open.1, []);
    Ok(((te.0, name.0, parameter.0), Skip(ts, parameter.1)))
  }

  /** After the signature: `;` for a prototype with stack size 0, or a body whose stack size the function takes. */
  function ParseFunctionBody(ts: seq<TokenView>, st: State, returnType: DataType, name: string, parameter: seq<Variable>): (r: Outcome<Function>)
    requires Ready(ts, st)
    ensures r.Ok? ==> Evolves(st, r.value.1) && r.value.1.pos < |ts|
    ensures r.Ok? ==> r.value.0.name == name && r.value.0.parameter == parameter && r.value.0.returnType == returnType
    ensures r.Ok? ==> (r.value.0.statements.None? <==> Peek(ts, st) == Tokens.SEMIC)
    ensures r.Ok? && r.value.0.statements.None? ==> r.value.0.stackSize == 0
    ensures r.Ok? && r.value.0.statements.Some? ==> r.value.0.stackSize == r.value.0.statements.value.stackSize
  {
    if Peek(ts, st) == Tokens.SEMIC then Ok((Function(None, parameter, name, returnType, 0), Skip(ts, st)))
    else
      var body :- ParseStatementList(ts, st);
      Ok((Function(Some(body.0), parameter, name, returnType, body.0.stackSize), body.1))
  }

  /** The declaration loop of the program: until EOF, a statement on `typedef` or `struct`, else a function. */
  function ParseDeclarations(ts: seq<TokenView>, st: State, declarations: seq<Declaration>): (r: Outcome<seq<Declaration>>)
    requires Ready(ts, st)
    ensures r.Ok? ==> Reaches(st, r.value.1) && r.value.1.pos < |ts| && Peek(ts, r.value.1) == Tokens.EOF
    ensures r.Ok? ==> declarations <= r.value.0
    decreases |ts| - st.pos
  {
    var t := Peek(ts, st);
    if t == Tokens.EOF then Ok((declarations, st))
    else if t == Tokens.TYPEDEF || t == Tokens.STRUCT then
      var s :- ParseStatement(ts, st);
      ParseDeclarations(ts, s.1, declarations + [StatementDeclaration(s.0)])
    else
      var f :- ParseFunction(ts, st);
      ParseDeclarations(ts, f.1, declarations + [FunctionDeclaration(f.0)])
  }

  /** The program parser: a first frame, the declarations until EOF, and the EOF consumed. */
  function ParseProgram(ts: seq<TokenView>): (r: Result<Program, Failure>)
    requires Lexer.Terminated(ts)
  {
    var o :- ParseDeclarations(ts, NewState().(scope := Push(NewScope)), []);
    var eof := Lexer.ExpectAt(ts, o.1.pos, Tokens.EOF);
    if eof.result.Err? then Err(eof.result.error) else Ok(Program(o.0))
  }
}
