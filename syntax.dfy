/**
 * The syntax tree of the newer, syntax-only parser (the files under src/parser/ast).  Every
 * node is a plain value; what the source allocates in an arena and links by
 * reference is held by value here.
 */
module Syntax {
  import opened Util
  import opened Tokens

  /**
   * `BinaryOps`.  Each of the thirteen operators has the name of the token it
   * is written with (`BinaryOps::ADD` is written `ADD`, and so on), so an
   * operator is that token.
   */
  type BinaryOp = t: Token | IsBinaryOperator(t) witness ADD

  predicate IsBinaryOperator(t: Token) {
    t == ADD || t == SUB || t == MUL || t == DIV || t == MOD || t == AND || t == OR
    || t == EQ || t == NE || t == LT || t == GT || t == LE || t == GE
  }

  /**
   * The precedence levels of `parse_expressions`, loosest first: `||`, `&&`,
   * equality, relations, additive, multiplicative.
   */
  const Levels: seq<seq<Token>> := [[OR], [AND], [EQ, NE], [GT, GE, LT, LE], [ADD, SUB], [MUL, DIV, MOD]]

  /** The level an operator belongs to. */
  function LevelOf(op: BinaryOp): (level: nat)
    ensures level < |Levels| && op in Levels[level]
  {
    if op == OR then 0
    else if op == AND then 1
    else if op == EQ || op == NE then 2
    else if op == GT || op == GE || op == LT || op == LE then 3
    else if op == ADD || op == SUB then 4
    else assert IsBinaryOperator(op); assert op == MUL || op == DIV || op == MOD; 5
  }

  /** Every token of the table is an operator, on exactly one level. */
  lemma LevelsHoldOperators(level: nat, t: Token)
    requires level < |Levels| && t in Levels[level]
    ensures IsBinaryOperator(t) && LevelOf(t) == level
  {
  }

  /** `UnaryOps`: the five prefix operators and a cast to a type. */
  datatype UnaryOp = Neg | LogNeg | Ref | Deref | Complement | Cast(target: TypeExpression)

  /** `Expression`. */
  datatype Expression =
    | IntLiteral(value: int)
    | CharLiteral(byte: nat)
    | Call(call: FunctionCall)
    | Array(elements: ArrayExpression)
    | StructLiteral(literal: StructExpression)
    | Assign(assignment: Assignment)
    | Type(typeExpression: TypeExpression)
    | SizeOf(measured: Expression)
    | FieldAccess(name: string, operand: Expression)
    | ArrowAccess(name: string, operand: Expression)
    | Indexing(index: Expression, operand: Expression)
    | NamedVariable(name: string)
    | Unary(expression: Expression, operation: UnaryOp)
    | BinaryExpression(lhs: Expression, rhs: Expression, op: BinaryOp)

  /** `FunctionCall`: the callee and the arguments in order. */
  datatype FunctionCall = FunctionCall(name: string, parameter: seq<Expression>)

  /** `ArrayExpression`: a brace list of elements, or a string literal's raw text. */
  datatype ArrayExpression = StackArray(expressions: seq<Expression>) | StringLiteral(text: string)

  /** `StructExpression`: designated initialisers in source order. */
  datatype StructExpression = StructExpression(fields: seq<(string, Expression)>)

  /** `Assignment`: the four targets an assignment can write to. */
  datatype Assignment =
    | VariableAssignment(name: string, expression: Expression)
    | PtrAssignment(value: Expression, address: Expression)
    | ArrayAssignment(index: Expression, value: Expression, address: Expression)
    | FieldAssignment(name: string, value: Expression, address: Expression)

  /** `TypeExpression`: a type as written. */
  datatype TypeExpression =
    | Primitive(token: Token)
    | Typeof(expression: Expression)
    | Named(name: string)
    | Struct(name: string, fields: seq<(string, TypeExpression)>)
    | NamedStruct(name: string)
    | Pointer(pointee: TypeExpression)

  /** `Statement`. */
  datatype Statement =
    | Return(value: Option<Expression>)
    | SingleExpression(expression: Expression)
    | Block(compound: Compound)
    | If(ifStatement: IfStatement)
    | For(forStatement: ForStatement)
    | While(whileStatement: WhileStatement)
    | Typedef(definition: TypeDefinition)
    | VariableDeclaration(name: string, typeExpression: TypeExpression, assignment: Option<Assignment>)
    | Continue
    | Break
    | Empty

  /** `Compound`: statements in source order. */
  datatype Compound = Compound(statements: seq<Statement>)

  /** `IfStatement` and its `ElsePart`. */
  datatype IfStatement = IfStatement(statements: Compound, condition: Expression, elsePart: ElsePart)

  datatype ElsePart = ElseIf(nested: IfStatement) | ElseCompound(compound: Compound) | NoElse

  /** `ForStatement`. */
  datatype ForStatement = ForStatement(init: Statement, condition: Expression, post: Option<Expression>, body: Compound)

  /** `WhileStatement`: exactly a condition and a body. */
  datatype WhileStatement = WhileStatement(condition: Expression, body: Compound)

  /** `TypeDefinition`. */
  datatype TypeDefinition = TypeDefinition(name: string, expression: TypeExpression)

  /** `Function`: a prototype has no statements. */
  datatype Function = Function(name: string, statements: Option<Compound>, parameter: seq<(TypeExpression, string)>, returnType: TypeExpression)

  /** `Decalrations` and `Program`. */
  datatype Declaration = StatementDeclaration(statement: Statement) | FunctionDeclaration(declared: Function)

  datatype Program = Program(declarations: seq<Declaration>)

  /**
   * `Error`: an unexpected token (the kind wanted, the kind found and the
   * index of the token found), a target that cannot be assigned to (the
   * index of the current token), or a panic (a read past the end of the
   * tokens).
   */
  datatype SyntaxError = UnexpectedToken(expected: Token, found: Token, at: nat) | UnableToAssign(at: nat) | Panic
}
