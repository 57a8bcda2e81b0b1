/**
 * The newer, syntax-only recursive-descent parser (the files under src/parser/ast).
 *
 * The parser is a cursor over the token views.  Each parsing function takes
 * the views and the cursor position and gives back a `Parsed` outcome: the
 * node or the error, and the position the cursor is left at, which is what
 * the source's `&mut self` parser carries from one call to the next.  Every
 * token read goes through the cursor primitives below; reading past the last
 * view is a panic of the source and the `Panic` error here.
 *
 * All parsing functions are mutually recursive.  Each one that succeeds has
 * consumed at least one token, and that is what makes the recursion
 * terminate: the measure is the number of views left, then a rank that
 * orders the calls made without consuming (a statement calls an expression,
 * an expression its binary levels, a level the next one, and so on).
 */
module SyntaxParser {
  import opened Util
  import opened Tokens
  import opened Syntax
  import Lexer

  type TokenView = Lexer.TokenView

  /** A parse outcome: the node or the error, and where the cursor stands afterwards. */
  datatype Parsed<+T> = Parsed(result: Result<T, SyntaxError>, pos: nat)

  /** The error of `r` with the cursor where `r` left it: what `?` passes on. */
  function Fail<T, U>(r: Parsed<T>): (f: Parsed<U>)
    requires r.result.Err?
    ensures f.result.Err? && f.result.error == r.result.error && f.pos == r.pos
  {
    Parsed(Err(r.result.error), r.pos)
  }

  /** `expect`: consume one token; its text if it is `t`, else an error naming what was found. */
  function Expect(ts: seq<TokenView>, pos: nat, t: Token): (r: Parsed<string>)
    requires pos <= |ts|
    ensures r.pos <= |ts| && (r.result.Ok? ==> r.pos == pos + 1)
    ensures r.result.Ok? <==> pos < |ts| && ts[pos].token == t
  {
    if pos == |ts| then Parsed(Err(Panic), pos)
    else if ts[pos].token == t then Parsed(Ok(ts[pos].str), pos + 1)
    else Parsed(Err(UnexpectedToken(t, ts[pos].token, pos)), pos + 1)
  }

  /** The tokens a unary operator is written with. */
  predicate IsUnaryOperator(t: Token) {
    t == SUB || t == LOGNEG || t == MUL || t == REF || t == COMPLEMENT
  }

  /** The operator `parse_unary` makes of its token. */
  function UnaryOpOf(t: Token): (op: UnaryOp)
    requires IsUnaryOperator(t)
    ensures !op.Cast?
  {
    if t == SUB then Neg
    else if t == LOGNEG then LogNeg
    else if t == REF then Ref
    else if t == MUL then Deref
    else Complement
  }

  /** The tokens on which a statement is first read as a declaration. */
  predicate IsTypeStart(t: Token) {
    t == INT || t == CHAR || t == LONG || t == VOID || t == STRUCT || t == TYPEOF || t == IDENT
  }

  /**
   * The value of an integer literal's text: trimmed, then read as an `i32`;
   * a value past the `i32` range makes the source's `expect` panic.
   */
  function IntValue(text: string): Option<int> {
    var s := Lexer.Trim(text);
    if 0 < |s| && AllDigits(s) && DigitsValue(s) < 0x8000_0000 then Some(DigitsValue(s)) else None
  }

  /**
   * The byte of a character literal's text (quotes included).  A text longer
   * than three characters is an escape: `\n` and `\t` decode, any other
   * escape gives the character after the backslash.  Otherwise the
   * character after the opening quote; a text too short for that panics.
   */
  function CharValue(text: string): Option<nat> {
    if |text| > 3 then
      var escape := text[1..3];
      if escape == "\\n" then Some(10)
      else if escape == "\\t" then Some(9)
      else Some(text[2] as nat)
    else if |text| >= 2 then Some(text[1] as nat)
    else None
  }

  // ---- expressions (src/parser/ast/expression.rs) ----

  /** `expression`/`parse_expressions`: the binary levels, then an assignment when `=` follows. */
  function ParseExpression(ts: seq<TokenView>, pos: nat): (r: Parsed<Expression>)
    requires pos <= |ts|
    ensures r.pos <= |ts| && (r.result.Ok? ==> pos < r.pos)
    decreases |ts| - pos, 11
  {
    var result := ParseBinary(ts, pos, 0);
    if result.result.Err? then result
    else if result.pos == |ts| then Parsed(Err(Panic), result.pos)
    else if ts[result.pos].token == ASSIGN then
      var assignment := ParseAssignment(ts, result.pos, result.result.value);
      if assignment.result.Err? then Fail(assignment)
      else Parsed(Ok(Assign(assignment.result.value)), assignment.pos)
    else result
  }

  /**
   * `parse_binary` at a level: an operand of the next tighter level, then
   * any number of this level's operators, each with its right operand.
   * Past the last level it is a factor.
   */
  function ParseBinary(ts: seq<TokenView>, pos: nat, level: nat): (r: Parsed<Expression>)
    requires pos <= |ts| && level <= |Levels|
    ensures r.pos <= |ts| && (r.result.Ok? ==> pos < r.pos)
    decreases |ts| - pos, 10 - level
  {
    if level == |Levels| then ParseFactor(ts, pos)
    else
      var first := ParseBinary(ts, pos, level + 1);
      if first.result.Err? then first
      else BinaryLoop(ts, first.pos, level, first.result.value)
  }

  /** The `while let` of `parse_binary`: fold this level's operators to the left. */
  function BinaryLoop(ts: seq<TokenView>, pos: nat, level: nat, lhs: Expression): (r: Parsed<Expression>)
    requires pos <= |ts| && level < |Levels|
    ensures r.pos <= |ts| && (r.result.Ok? ==> pos <= r.pos)
    decreases |ts| - pos, 10 - level
  {
    if pos == |ts| then Parsed(Err(Panic), pos)
    else if ts[pos].token !in Levels[level] then Parsed(Ok(lhs), pos)
    else
      LevelsHoldOperators(level, ts[pos].token);
      var op: BinaryOp := ts[pos].token;
      var rhs := ParseBinary(ts, pos + 1, level + 1);
      if rhs.result.Err? then rhs
      else BinaryLoop(ts, rhs.pos, level, BinaryExpression(lhs, rhs.result.value, op))
  }

  /**
   * `parse_factor`: a unary operation or a postfix expression.  When the
   * factor began with `(` and came out a type expression, it was a cast and
   * the factor it applies to follows.
   */
  function ParseFactor(ts: seq<TokenView>, pos: nat): (r: Parsed<Expression>)
    requires pos <= |ts|
    ensures r.pos <= |ts| && (r.result.Ok? ==> pos < r.pos)
    decreases |ts| - pos, 3
  {
    if pos == |ts| then Parsed(Err(Panic), pos)
    else
      var canBeCast := ts[pos].token == LPAREN;
      var result := if IsUnaryOperator(ts[pos].token) then ParseUnary(ts, pos) else ParsePostfix(ts, pos);
      if canBeCast && result.result.Ok? && result.result.value.Type? then
        var factor := ParseFactor(ts, result.pos);
        if factor.result.Err? then factor
        else Parsed(Ok(Unary(factor.result.value, Cast(result.result.value.typeExpression))), factor.pos)
      else result
  }

  /** `parse_unary`: the operator token, then the factor it applies to. */
  function ParseUnary(ts: seq<TokenView>, pos: nat): (r: Parsed<Expression>)
    requires pos < |ts| && IsUnaryOperator(ts[pos].token)
    ensures r.pos <= |ts| && (r.result.Ok? ==> pos < r.pos)
    decreases |ts| - pos, 2
  {
    var e := ParseFactor(ts, pos + 1);
    if e.result.Err? then e
    else Parsed(Ok(Unary(e.result.value, UnaryOpOf(ts[pos].token))), e.pos)
  }

  /** `parse_postfix`: a literal, then its `[…]`, `.f` and `->f` suffixes from left to right. */
  function ParsePostfix(ts: seq<TokenView>, pos: nat): (r: Parsed<Expression>)
    requires pos <= |ts|
    ensures r.pos <= |ts| && (r.result.Ok? ==> pos < r.pos)
    decreases |ts| - pos, 2
  {
    var literal := ParseLiteral(ts, pos);
    if literal.result.Err? then literal
    else PostfixLoop(ts, literal.pos, literal.result.value)
  }

  /** The loop of `parse_postfix`: a run of one kind of suffix at a time. */
  function PostfixLoop(ts: seq<TokenView>, pos: nat, result: Expression): (r: Parsed<Expression>)
    requires pos <= |ts|
    ensures r.pos <= |ts| && (r.result.Ok? ==> pos <= r.pos)
    decreases |ts| - pos, 2
  {
    if pos == |ts| then Parsed(Err(Panic), pos)
    else
      var t := ts[pos].token;
      if t != LBRACE && t != DOT && t != ARROW then Parsed(Ok(result), pos)
      else
        var run := if t == LBRACE then IndexingLoop(ts, pos, result)
          else if t == DOT then FieldLoop(ts, pos, result)
          else ArrowLoop(ts, pos, result);
        if run.result.Err? then run
        else PostfixLoop(ts, run.pos, run.result.value)
  }

  /** `parse_indexing`: each `[e]` wraps what came before. */
  function IndexingLoop(ts: seq<TokenView>, pos: nat, operand: Expression): (r: Parsed<Expression>)
    requires pos <= |ts|
    ensures r.pos <= |ts| && (r.result.Ok? ==> pos <= r.pos)
    ensures r.result.Ok? && pos < |ts| && ts[pos].token == LBRACE ==> pos < r.pos
    decreases |ts| - pos, 1
  {
    if pos == |ts| then Parsed(Err(Panic), pos)
    else if ts[pos].token != LBRACE then Parsed(Ok(operand), pos)
    else
      var index := ParseExpression(ts, pos + 1);
      if index.result.Err? then index
      else
        var close := Expect(ts, index.pos, RBRACE);
        if close.result.Err? then Fail(close)
        else IndexingLoop(ts, close.pos, Indexing(index.result.value, operand))
  }

  /** `parse_field_access`: each `.name` wraps what came before. */
  function FieldLoop(ts: seq<TokenView>, pos: nat, operand: Expression): (r: Parsed<Expression>)
    requires pos <= |ts|
    ensures r.pos <= |ts| && (r.result.Ok? ==> pos <= r.pos)
    ensures r.result.Ok? && pos < |ts| && ts[pos].token == DOT ==> pos < r.pos
    decreases |ts| - pos, 1
  {
    if pos == |ts| then Parsed(Err(Panic), pos)
    else if ts[pos].token != DOT then Parsed(Ok(operand), pos)
    else
      var name := Expect(ts, pos + 1, IDENT);
      if name.result.Err? then Fail(name)
      else FieldLoop(ts, name.pos, FieldAccess(name.result.value, operand))
  }

  /** `parse_arrow_access`: each `->name` wraps what came before. */
  function ArrowLoop(ts: seq<TokenView>, pos: nat, operand: Expression): (r: Parsed<Expression>)
    requires pos <= |ts|
    ensures r.pos <= |ts| && (r.result.Ok? ==> pos <= r.pos)
    ensures r.result.Ok? && pos < |ts| && ts[pos].token == ARROW ==> pos < r.pos
    decreases |ts| - pos, 1
  {
    if pos == |ts| then Parsed(Err(Panic), pos)
    else if ts[pos].token != ARROW then Parsed(Ok(operand), pos)
    else
      var name := Expect(ts, pos + 1, IDENT);
      if name.result.Err? then Fail(name)
      else ArrowLoop(ts, name.pos, ArrowAccess(name.result.value, operand))
  }

  /** `parse_literal`: what an operand starts with decides what it is. */
  function ParseLiteral(ts: seq<TokenView>, pos: nat): (r: Parsed<Expression>)
    requires pos <= |ts|
    ensures r.pos <= |ts| && (r.result.Ok? ==> pos < r.pos)
    decreases |ts| - pos, 1
  {
    if pos == |ts| then Parsed(Err(Panic), pos)
    else
      var t := ts[pos].token;
      if t == LCURL then
        if pos + 1 == |ts| then Parsed(Err(Panic), pos + 1)
        else if ts[pos + 1].token == DOT then
          var literal := ParseStructExpression(ts, pos + 1, []);
          if literal.result.Err? then Fail(literal) else Parsed(Ok(StructLiteral(literal.result.value)), literal.pos)
        else
          var parsed := ParseArray(ts, pos + 1);
          if parsed.result.Err? then Fail(parsed) else Parsed(Ok(Array(parsed.result.value)), parsed.pos)
      else if t == STRINGLIT then
        match ParseArray(ts, pos)
        case Parsed(Ok(a), p) => Parsed(Ok(Array(a)), p)
        case Parsed(Err(e), p) => Parsed(Err(e), p)
      else if t == INTLITERAL then
        match IntValue(ts[pos].str)
        case Some(value) => Parsed(Ok(IntLiteral(value)), pos + 1)
        case None => Parsed(Err(Panic), pos + 1)
      else if t == CHARLITERAL then
        match CharValue(ts[pos].str)
        case Some(value) => Parsed(Ok(CharLiteral(value)), pos + 1)
        case None => Parsed(Err(Panic), pos + 1)
      else if t == IDENT then
        if pos + 1 == |ts| then Parsed(Err(Panic), pos + 1)
        else if ts[pos + 1].token == LPAREN then
          var call := ParseFunctionCall(ts, pos + 1);
          if call.result.Err? then Fail(call) else Parsed(Ok(Call(call.result.value)), call.pos)
        else Parsed(Ok(NamedVariable(ts[pos].str)), pos + 1)
      else if t == LPAREN then
        var inner := ParseExpression(ts, pos + 1);
        var close := Expect(ts, inner.pos, RPAREN);
        if close.result.Err? then Fail(close) else Parsed(inner.result, close.pos)
      else if t == SIZEOF then
        var open := Expect(ts, pos + 1, LPAREN);
        if open.result.Err? then Fail(open)
        else
          var measured := ParseExpression(ts, open.pos);
          if measured.result.Err? then measured
          else
            var close := Expect(ts, measured.pos, RPAREN);
            if close.result.Err? then Fail(close) else Parsed(Ok(SizeOf(measured.result.value)), close.pos)
      else
        var t := ParseTypeExpression(ts, pos);
        if t.result.Err? then Fail(t) else Parsed(Ok(Type(t.result.value)), t.pos)
  }

  // ---- assignment (src/parser/ast/assignment.rs) ----

  /** The targets an assignment can write to: a variable, an element, a dereference, a field. */
  predicate Assignable(target: Expression) {
    target.NamedVariable? || target.Indexing? || (target.Unary? && target.operation == Deref)
    || target.FieldAccess? || target.ArrowAccess?
  }

  /** The assignment node for an assignable target and the value written to it. */
  function Target(target: Expression, value: Expression): Assignment
    requires Assignable(target)
  {
    if target.NamedVariable? then VariableAssignment(target.name, value)
    else if target.Indexing? then ArrayAssignment(target.index, value, target.operand)
    else if target.Unary? then PtrAssignment(value, target.expression)
    else if target.FieldAccess? then FieldAssignment(target.name, value, target.operand)
    else FieldAssignment(target.name, value, target.operand)
  }

  /**
   * `assignment`: `=`, then the target decides the node; a target that is not
   * assignable is `UnableToAssign` at the token after `=`, and the value is
   * then not read.
   */
  function ParseAssignment(ts: seq<TokenView>, pos: nat, assignee: Expression): (r: Parsed<Assignment>)
    requires pos <= |ts|
    ensures r.pos <= |ts| && (r.result.Ok? ==> pos < r.pos)
    decreases |ts| - pos, 11
  {
    var equals := Expect(ts, pos, ASSIGN);
    if equals.result.Err? then Fail(equals)
    else if !Assignable(assignee) then Parsed(Err(UnableToAssign(equals.pos)), equals.pos)
    else
      var value := ParseExpression(ts, equals.pos);
      if value.result.Err? then Fail(value)
      else Parsed(Ok(Target(assignee, value.result.value)), value.pos)
  }

  // ---- literals (array_expression.rs, struct_expression.rs, function_call.rs) ----

  /** `array_expression`: a string literal, or elements up to `}` with optional commas. */
  function ParseArray(ts: seq<TokenView>, pos: nat): (r: Parsed<ArrayExpression>)
    requires pos <= |ts|
    ensures r.pos <= |ts| && (r.result.Ok? ==> pos < r.pos)
    decreases |ts| - pos, if pos < |ts| && ts[pos].token == STRINGLIT then 0 else 13
  {
    if pos == |ts| then Parsed(Err(Panic), pos)
    else if ts[pos].token == STRINGLIT then Parsed(Ok(StringLiteral(ts[pos].str)), pos + 1)
    else
      var elements := ArrayLoop(ts, pos, []);
      if elements.result.Err? then Fail(elements)
      else if elements.pos == |ts| then Parsed(Err(Panic), elements.pos)
      else Parsed(Ok(StackArray(elements.result.value)), elements.pos + 1)
  }

  /** The element loop of `array_expression`; it stops at `}` without consuming it. */
  function ArrayLoop(ts: seq<TokenView>, pos: nat, elements: seq<Expression>): (r: Parsed<seq<Expression>>)
    requires pos <= |ts|
    ensures r.pos <= |ts| && (r.result.Ok? ==> pos <= r.pos)
    decreases |ts| - pos, 12
  {
    if pos == |ts| then Parsed(Err(Panic), pos)
    else if ts[pos].token == RCURL then Parsed(Ok(elements), pos)
    else
      var e := ParseExpression(ts, pos);
      if e.result.Err? then Fail(e)
      else if e.pos == |ts| then Parsed(Err(Panic), e.pos)
      else ArrayLoop(ts, if ts[e.pos].token == COMMA then e.pos + 1 else e.pos, elements + [e.result.value])
  }

  /**
   * `struct_expression`, after the `{`: `.name = e` fields, a comma between
   * two of them, up to the `}`, which it consumes.
   */
  function ParseStructExpression(ts: seq<TokenView>, pos: nat, fields: seq<(string, Expression)>): (r: Parsed<StructExpression>)
    requires pos <= |ts|
    ensures r.pos <= |ts| && (r.result.Ok? ==> pos < r.pos)
    decreases |ts| - pos, 12
  {
    if pos == |ts| then Parsed(Err(Panic), pos)
    else if ts[pos].token == RCURL then Parsed(Ok(StructExpression(fields)), pos + 1)
    else
      var dot := Expect(ts, pos, DOT);
      if dot.result.Err? then Fail(dot)
      else
        var name := Expect(ts, dot.pos, IDENT);
        if name.result.Err? then Fail(name)
        else
          var equals := Expect(ts, name.pos, ASSIGN);
          if equals.result.Err? then Fail(equals)
          else
            var value := ParseExpression(ts, equals.pos);
            if value.result.Err? then Fail(value)
            else if value.pos == |ts| then Parsed(Err(Panic), value.pos)
            else
              var more := fields + [(name.result.value, value.result.value)];
              if ts[value.pos].token == RCURL then ParseStructExpression(ts, value.pos, more)
              else
                var comma := Expect(ts, value.pos, COMMA);
                if comma.result.Err? then Fail(comma)
                else ParseStructExpression(ts, comma.pos, more)
  }

  /** `function_call`, on the `(` after the callee's name: arguments up to `)`, optional commas. */
  function ParseFunctionCall(ts: seq<TokenView>, pos: nat): (r: Parsed<FunctionCall>)
    requires 0 < pos <= |ts|
    ensures r.pos <= |ts| && (r.result.Ok? ==> pos < r.pos)
    decreases |ts| - pos, 12
  {
    var name := ts[pos - 1].str;
    var open := Expect(ts, pos, LPAREN);
    if open.result.Err? then Fail(open)
    else
      var arguments := ArgumentLoop(ts, open.pos, []);
      if arguments.result.Err? then Fail(arguments)
      else if arguments.pos == |ts| then Parsed(Err(Panic), arguments.pos)
      else Parsed(Ok(FunctionCall(name, arguments.result.value)), arguments.pos + 1)
  }

  /** The argument loop of `function_call`; it stops at `)` without consuming it. */
  function ArgumentLoop(ts: seq<TokenView>, pos: nat, arguments: seq<Expression>): (r: Parsed<seq<Expression>>)
    requires pos <= |ts|
    ensures r.pos <= |ts| && (r.result.Ok? ==> pos <= r.pos)
    decreases |ts| - pos, 12
  {
    if pos == |ts| then Parsed(Err(Panic), pos)
    else if ts[pos].token == RPAREN then Parsed(Ok(arguments), pos)
    else
      var e := ParseExpression(ts, pos);
      if e.result.Err? then Fail(e)
      else if e.pos == |ts| then Parsed(Err(Panic), e.pos)
      else ArgumentLoop(ts, if ts[e.pos].token == COMMA then e.pos + 1 else e.pos, arguments + [e.result.value])
  }

  // ---- types (src/parser/ast/type_expression.rs, type_definition.rs) ----

  /**
   * `type_expression`: the first token, consumed, decides; then each `*`
   * adds a pointer.  Any token that is not `struct`, an identifier or
   * `typeof` is taken as a primitive without a check.
   */
  function ParseTypeExpression(ts: seq<TokenView>, pos: nat): (r: Parsed<TypeExpression>)
    requires pos <= |ts|
    ensures r.pos <= |ts| && (r.result.Ok? ==> pos < r.pos)
    decreases |ts| - pos, 0
  {
    if pos == |ts| then Parsed(Err(Panic), pos)
    else
      var t := ts[pos].token;
      var base :=
        if t == STRUCT then ParseStructType(ts, pos + 1)
        else if t == IDENT then Parsed(Ok(Named(ts[pos].str)), pos + 1)
        else if t == TYPEOF then ParseTypeof(ts, pos + 1)
        else Parsed(Ok(Primitive(t)), pos + 1);
      if base.result.Err? then base
      else PointerLoop(ts, base.pos, base.result.value)
  }

  /** The `typeof` arm, after the keyword: `(`, an expression, `)`. */
  function ParseTypeof(ts: seq<TokenView>, pos: nat): (r: Parsed<TypeExpression>)
    requires pos <= |ts|
    ensures r.pos <= |ts| && (r.result.Ok? ==> pos < r.pos)
    decreases |ts| - pos, 0
  {
    var open := Expect(ts, pos, LPAREN);
    if open.result.Err? then Fail(open)
    else
      var e := ParseExpression(ts, open.pos);
      if e.result.Err? then Fail(e)
      else
        var close := Expect(ts, e.pos, RPAREN);
        if close.result.Err? then Fail(close) else Parsed(Ok(Typeof(e.result.value)), close.pos)
  }

  /** The `struct` arm, after the keyword: the name, then a body in braces or none. */
  function ParseStructType(ts: seq<TokenView>, pos: nat): (r: Parsed<TypeExpression>)
    requires pos <= |ts|
    ensures r.pos <= |ts| && (r.result.Ok? ==> pos < r.pos)
    decreases |ts| - pos, 0
  {
    var name := Expect(ts, pos, IDENT);
    if name.result.Err? then Fail(name)
    else if name.pos == |ts| then Parsed(Err(Panic), name.pos)
    else
      var fullName := "struct " + name.result.value;
      if ts[name.pos].token != LCURL then Parsed(Ok(NamedStruct(fullName)), name.pos)
      else
        var fields := FieldLines(ts, name.pos + 1, []);
        if fields.result.Err? then Fail(fields)
        else if fields.pos == |ts| then Parsed(Err(Panic), fields.pos)
        else Parsed(Ok(Struct(fullName, fields.result.value)), fields.pos + 1)
  }

  /** The field loop of a struct body: `type name ;` lines up to `}`, which it leaves. */
  function FieldLines(ts: seq<TokenView>, pos: nat, fields: seq<(string, TypeExpression)>): (r: Parsed<seq<(string, TypeExpression)>>)
    requires pos <= |ts|
    ensures r.pos <= |ts| && (r.result.Ok? ==> pos <= r.pos)
    decreases |ts| - pos, 1
  {
    if pos == |ts| then Parsed(Err(Panic), pos)
    else if ts[pos].token == RCURL then Parsed(Ok(fields), pos)
    else
      var t := ParseTypeExpression(ts, pos);
      if t.result.Err? then Fail(t)
      else
        var name := Expect(ts, t.pos, IDENT);
        if name.result.Err? then Fail(name)
        else
          var semicolon := Expect(ts, name.pos, SEMIC);
          if semicolon.result.Err? then Fail(semicolon)
          else FieldLines(ts, semicolon.pos, fields + [(name.result.value, t.result.value)])
  }

  /** The `*` loop of `type_expression`. */
  function PointerLoop(ts: seq<TokenView>, pos: nat, t: TypeExpression): (r: Parsed<TypeExpression>)
    requires pos <= |ts|
    ensures r.pos <= |ts| && (r.result.Ok? ==> pos <= r.pos)
    decreases |ts| - pos, 0
  {
    if pos == |ts| then Parsed(Err(Panic), pos)
    else if ts[pos].token == MUL then PointerLoop(ts, pos + 1, Pointer(t))
    else Parsed(Ok(t), pos)
  }

  /** `type_def`: `typedef`, a type expression, a name; the `;` is left to the statement. */
  function ParseTypeDefinition(ts: seq<TokenView>, pos: nat): (r: Parsed<TypeDefinition>)
    requires pos <= |ts|
    ensures r.pos <= |ts| && (r.result.Ok? ==> pos < r.pos)
    decreases |ts| - pos, 12
  {
    var keyword := Expect(ts, pos, TYPEDEF);
    if keyword.result.Err? then Fail(keyword)
    else
      var t := ParseTypeExpression(ts, keyword.pos);
      if t.result.Err? then Fail(t)
      else
        var name := Expect(ts, t.pos, IDENT);
        if name.result.Err? then Fail(name)
        else Parsed(Ok(TypeDefinition(name.result.value, t.result.value)), name.pos)
  }

  // ---- statements (statement.rs, compound_statement.rs, if/for/while) ----

  /** The `;` a simple statement ends with, consumed after it. */
  function Semicolon(ts: seq<TokenView>, s: Parsed<Statement>): (r: Parsed<Statement>)
    requires s.pos <= |ts|
    ensures r.pos <= |ts| && (r.result.Ok? ==> r.result == s.result && r.pos == s.pos + 1)
    ensures r.result.Ok? ==> s.pos < |ts| && ts[s.pos].token == SEMIC
  {
    if s.result.Err? then s
    else
      var semicolon := Expect(ts, s.pos, SEMIC);
      if semicolon.result.Err? then Fail(semicolon) else Parsed(s.result, semicolon.pos)
  }

  /** `statement`. */
  function ParseStatement(ts: seq<TokenView>, pos: nat): (r: Parsed<Statement>)
    requires pos <= |ts|
    ensures r.pos <= |ts| && (r.result.Ok? ==> pos < r.pos)
    decreases |ts| - pos, 20
  {
    if pos == |ts| then Parsed(Err(Panic), pos)
    else
      var t := ts[pos].token;
      if t == CONTINUE then Semicolon(ts, Parsed(Ok(Continue), pos + 1))
      else if t == BREAK then Semicolon(ts, Parsed(Ok(Break), pos + 1))
      else if t == RETURN then
        if pos + 1 == |ts| then Parsed(Err(Panic), pos + 1)
        else if ts[pos + 1].token == SEMIC then Parsed(Ok(Return(None)), pos + 2)
        else
          var e := ParseExpression(ts, pos + 1);
          if e.result.Err? then Fail(e) else Semicolon(ts, Parsed(Ok(Return(Some(e.result.value))), e.pos))
      else if t == IF then
        var s := ParseIf(ts, pos);
        if s.result.Err? then Fail(s) else Parsed(Ok(If(s.result.value)), s.pos)
      else if t == FOR then
        var s := ParseFor(ts, pos);
        if s.result.Err? then Fail(s) else Parsed(Ok(For(s.result.value)), s.pos)
      else if t == WHILE then
        var s := ParseWhile(ts, pos);
        if s.result.Err? then Fail(s) else Parsed(Ok(While(s.result.value)), s.pos)
      else if IsTypeStart(t) then Semicolon(ts, ParseDeclaration(ts, pos))
      else if t == TYPEDEF then
        var d := ParseTypeDefinition(ts, pos);
        if d.result.Err? then Fail(d) else Semicolon(ts, Parsed(Ok(Typedef(d.result.value)), d.pos))
      else if t == SEMIC then Semicolon(ts, Parsed(Ok(Empty), pos))
      else if t == LCURL then
        var c := ParseCompound(ts, pos);
        if c.result.Err? then Fail(c) else Parsed(Ok(Block(c.result.value)), c.pos)
      else
        var e := ParseExpression(ts, pos);
        if e.result.Err? then Fail(e) else Semicolon(ts, Parsed(Ok(SingleExpression(e.result.value)), e.pos))
  }

  /**
   * The type-start arm of `statement`, without its `;`.  A type expression
   * is read, then the name is expected; `[]` after it makes the type a
   * pointer whether or not the name was there.  With a name it is a
   * declaration, with `= e` an initialised one; without, the cursor goes
   * back to the anchor and the statement is an expression.
   */
  function ParseDeclaration(ts: seq<TokenView>, pos: nat): (r: Parsed<Statement>)
    requires pos <= |ts|
    ensures r.pos <= |ts| && (r.result.Ok? ==> pos < r.pos)
    decreases |ts| - pos, 19
  {
    var anchor := pos;
    var t := ParseTypeExpression(ts, pos);
    if t.result.Err? then Fail(t)
    else
      var name := Expect(ts, t.pos, IDENT);
      var p := name.pos;
      if p == |ts| then Parsed(Err(Panic), p)
      else
        var typed: Parsed<TypeExpression> :=
          if ts[p].token == LBRACE then
            var close := Expect(ts, p + 1, RBRACE);
            if close.result.Err? then Fail(close) else Parsed(Ok(Pointer(t.result.value)), close.pos)
          else Parsed(Ok(t.result.value), p);
        if typed.result.Err? then Fail(typed)
        else if name.result.Ok? then
          var q := typed.pos;
          if q == |ts| then Parsed(Err(Panic), q)
          else if ts[q].token == ASSIGN then
            var e := ParseExpression(ts, q + 1);
            if e.result.Err? then Fail(e)
            else
              var assignment := VariableAssignment(name.result.value, e.result.value);
              Parsed(Ok(VariableDeclaration(name.result.value, typed.result.value, Some(assignment))), e.pos)
          else Parsed(Ok(VariableDeclaration(name.result.value, typed.result.value, None)), q)
        else
          var e := ParseExpression(ts, anchor);
          if e.result.Err? then Fail(e) else Parsed(Ok(SingleExpression(e.result.value)), e.pos)
  }

  /** `compound_statement`: a braced list up to `}`, or a single statement wrapped as one. */
  function ParseCompound(ts: seq<TokenView>, pos: nat): (r: Parsed<Compound>)
    requires pos <= |ts|
    ensures r.pos <= |ts| && (r.result.Ok? ==> pos < r.pos)
    decreases |ts| - pos, if pos < |ts| && ts[pos].token == LCURL then 0 else 22
  {
    if pos == |ts| then Parsed(Err(Panic), pos)
    else if ts[pos].token != LCURL then
      var s := ParseStatement(ts, pos);
      if s.result.Err? then Fail(s) else Parsed(Ok(Compound([s.result.value])), s.pos)
    else
      var body := StatementLoop(ts, pos + 1, []);
      if body.result.Err? then Fail(body)
      else if body.pos == |ts| then Parsed(Err(Panic), body.pos)
      else Parsed(Ok(Compound(body.result.value)), body.pos + 1)
  }

  /** The statement loop of a braced compound; it stops at `}` without consuming it. */
  function StatementLoop(ts: seq<TokenView>, pos: nat, statements: seq<Statement>): (r: Parsed<seq<Statement>>)
    requires pos <= |ts|
    ensures r.pos <= |ts| && (r.result.Ok? ==> pos <= r.pos)
    decreases |ts| - pos, 21
  {
    if pos == |ts| then Parsed(Err(Panic), pos)
    else if ts[pos].token == RCURL then Parsed(Ok(statements), pos)
    else
      var s := ParseStatement(ts, pos);
      if s.result.Err? then Fail(s)
      else StatementLoop(ts, s.pos, statements + [s.result.value])
  }

  /** `if_statement`: `if ( condition )`, the then-part, and an optional `else`. */
  function ParseIf(ts: seq<TokenView>, pos: nat): (r: Parsed<IfStatement>)
    requires pos <= |ts|
    ensures r.pos <= |ts| && (r.result.Ok? ==> pos < r.pos)
    decreases |ts| - pos, 12
  {
    var keyword := Expect(ts, pos, IF);
    if keyword.result.Err? then Fail(keyword)
    else
      var condition := ParseParenthesised(ts, keyword.pos);
      if condition.result.Err? then Fail(condition)
      else
        var statements := ParseCompound(ts, condition.pos);
        if statements.result.Err? then Fail(statements)
        else if statements.pos == |ts| then Parsed(Err(Panic), statements.pos)
        else if ts[statements.pos].token != ELSE then
          Parsed(Ok(IfStatement(statements.result.value, condition.result.value, NoElse)), statements.pos)
        else
          var q := statements.pos + 1;
          if q == |ts| then Parsed(Err(Panic), q)
          else if ts[q].token == IF then
            var nested := ParseIf(ts, q);
            if nested.result.Err? then Fail(nested)
            else Parsed(Ok(IfStatement(statements.result.value, condition.result.value, ElseIf(nested.result.value))), nested.pos)
          else
            var other := ParseCompound(ts, q);
            if other.result.Err? then Fail(other)
            else Parsed(Ok(IfStatement(statements.result.value, condition.result.value, ElseCompound(other.result.value))), other.pos)
  }

  /** `( expression )`, as `if` and `while` read their condition. */
  function ParseParenthesised(ts: seq<TokenView>, pos: nat): (r: Parsed<Expression>)
    requires pos <= |ts|
    ensures r.pos <= |ts| && (r.result.Ok? ==> pos < r.pos)
    decreases |ts| - pos, 12
  {
    var open := Expect(ts, pos, LPAREN);
    if open.result.Err? then Fail(open)
    else
      var e := ParseExpression(ts, open.pos);
      if e.result.Err? then e
      else
        var close := Expect(ts, e.pos, RPAREN);
        if close.result.Err? then Fail(close) else Parsed(e.result, close.pos)
  }

  /** `while_statement`: `while ( condition )` and the body. */
  function ParseWhile(ts: seq<TokenView>, pos: nat): (r: Parsed<WhileStatement>)
    requires pos <= |ts|
    ensures r.pos <= |ts| && (r.result.Ok? ==> pos < r.pos)
    decreases |ts| - pos, 12
  {
    var keyword := Expect(ts, pos, WHILE);
    if keyword.result.Err? then Fail(keyword)
    else
      var condition := ParseParenthesised(ts, keyword.pos);
      if condition.result.Err? then Fail(condition)
      else
        var body := ParseCompound(ts, condition.pos);
        if body.result.Err? then Fail(body)
        else Parsed(Ok(WhileStatement(condition.result.value, body.result.value)), body.pos)
  }

  /**
   * `for_statement`: `for (`, an init statement with its own `;`, an
   * optional condition and `;`, an optional post expression and `)`, then
   * the body.
   */
  function ParseFor(ts: seq<TokenView>, pos: nat): (r: Parsed<ForStatement>)
    requires pos <= |ts|
    ensures r.pos <= |ts| && (r.result.Ok? ==> pos < r.pos)
    decreases |ts| - pos, 12
  {
    var keyword := Expect(ts, pos, FOR);
    if keyword.result.Err? then Fail(keyword)
    else
      var open := Expect(ts, keyword.pos, LPAREN);
      if open.result.Err? then Fail(open)
      else
        var init := ParseStatement(ts, open.pos);
        if init.result.Err? then Fail(init)
        else if init.pos == |ts| then Parsed(Err(Panic), init.pos)
        else
          var condition := if ts[init.pos].token != SEMIC then ParseExpression(ts, init.pos) else Parsed(Ok(IntLiteral(1)), init.pos);
          if condition.result.Err? then Fail(condition)
          else
            var semicolon := Expect(ts, condition.pos, SEMIC);
            if semicolon.result.Err? then Fail(semicolon)
            else if semicolon.pos == |ts| then Parsed(Err(Panic), semicolon.pos)
            else
              var post := if ts[semicolon.pos].token != RPAREN then ParseOptional(ts, semicolon.pos) else Parsed(Ok(None), semicolon.pos);
              if post.result.Err? then Fail(post)
              else
                var close := Expect(ts, post.pos, RPAREN);
                if close.result.Err? then Fail(close)
                else
                  var body := ParseCompound(ts, close.pos);
                  if body.result.Err? then Fail(body)
                  else Parsed(Ok(ForStatement(init.result.value, condition.result.value, post.result.value, body.result.value)), body.pos)
  }

  /** An expression that is there, as `Some`. */
  function ParseOptional(ts: seq<TokenView>, pos: nat): (r: Parsed<Option<Expression>>)
    requires pos <= |ts|
    ensures r.pos <= |ts| && (r.result.Ok? ==> pos < r.pos)
    decreases |ts| - pos, 12
  {
    var e := ParseExpression(ts, pos);
    if e.result.Err? then Fail(e) else Parsed(Ok(Some(e.result.value)), e.pos)
  }

  // ---- functions and programs (function.rs, program.rs) ----

  /**
   * `function`: return type, name, `(`, parameters, `)`; then `;` for a
   * prototype or the body.
   */
  function ParseFunction(ts: seq<TokenView>, pos: nat): (r: Parsed<Function>)
    requires pos <= |ts|
    ensures r.pos <= |ts| && (r.result.Ok? ==> pos < r.pos)
    decreases |ts| - pos, 1
  {
    var returnType := ParseTypeExpression(ts, pos);
    if returnType.result.Err? then Fail(returnType)
    else
      var name := Expect(ts, returnType.pos, IDENT);
      if name.result.Err? then Fail(name)
      else
        var open := Expect(ts, name.pos, LPAREN);
        if open.result.Err? then Fail(open)
        else
          var parameters := ParameterLoop(ts, open.pos, []);
          if parameters.result.Err? then Fail(parameters)
          else if parameters.pos + 1 >= |ts| then Parsed(Err(Panic), |ts|)
          else
            var q := parameters.pos + 1;
            if ts[q].token == SEMIC then
              Parsed(Ok(Function(name.result.value, None, parameters.result.value, returnType.result.value)), q + 1)
            else
              var body := ParseCompound(ts, q);
              if body.result.Err? then Fail(body)
              else Parsed(Ok(Function(name.result.value, Some(body.result.value), parameters.result.value, returnType.result.value)), body.pos)
  }

  /**
   * The parameter loop of `function`: `type name` pairs up to `)`, which it
   * leaves; a comma must follow a parameter unless `)` does.
   */
  function ParameterLoop(ts: seq<TokenView>, pos: nat, parameters: seq<(TypeExpression, string)>): (r: Parsed<seq<(TypeExpression, string)>>)
    requires pos <= |ts|
    ensures r.pos <= |ts| && (r.result.Ok? ==> pos <= r.pos)
    decreases |ts| - pos, 1
  {
    if pos == |ts| then Parsed(Err(Panic), pos)
    else if ts[pos].token == RPAREN then Parsed(Ok(parameters), pos)
    else
      var t := ParseTypeExpression(ts, pos);
      if t.result.Err? then Fail(t)
      else
        var name := Expect(ts, t.pos, IDENT);
        if name.result.Err? then Fail(name)
        else if name.pos == |ts| then Parsed(Err(Panic), name.pos)
        else
          var more := parameters + [(t.result.value, name.result.value)];
          if ts[name.pos].token == RPAREN then Parsed(Ok(more), name.pos)
          else
            var comma := Expect(ts, name.pos, COMMA);
            if comma.result.Err? then Fail(comma)
            else ParameterLoop(ts, comma.pos, more)
  }

  /** The declaration loop of `program`: `typedef` and `struct` start a statement, anything else a function. */
  function DeclarationLoop(ts: seq<TokenView>, pos: nat, declarations: seq<Declaration>): (r: Parsed<seq<Declaration>>)
    requires pos <= |ts|
    ensures r.pos <= |ts| && (r.result.Ok? ==> pos <= r.pos)
    decreases |ts| - pos, 24
  {
    if pos == |ts| then Parsed(Err(Panic), pos)
    else if ts[pos].token == EOF then Parsed(Ok(declarations), pos)
    else if ts[pos].token == TYPEDEF || ts[pos].token == STRUCT then
      var s := ParseStatement(ts, pos);
      if s.result.Err? then Fail(s)
      else DeclarationLoop(ts, s.pos, declarations + [StatementDeclaration(s.result.value)])
    else
      var f := ParseFunction(ts, pos);
      if f.result.Err? then Fail(f)
      else DeclarationLoop(ts, f.pos, declarations + [FunctionDeclaration(f.result.value)])
  }

  /** `program`: declarations up to EOF, then the EOF itself. */
  function ParseProgram(ts: seq<TokenView>): (r: Parsed<Program>)
    ensures r.pos <= |ts|
  {
    var declarations := DeclarationLoop(ts, 0, []);
    if declarations.result.Err? then Fail(declarations)
    else
      var eof := Expect(ts, declarations.pos, EOF);
      if eof.result.Err? then Fail(eof) else Parsed(Ok(Program(declarations.result.value)), eof.pos)
  }
}
