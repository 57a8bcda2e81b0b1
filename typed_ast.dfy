/**
 * The nodes of the type-checking parser (the files under src/ast): typed
 * expressions, assignments, statements, functions and the program, and the
 * data type each expression has (`Expression::data_type`,
 * `Assignment::data_type`, `ArrayExpression::data_type`).
 *
 * The source shares sub-expressions through `Rc` and `Box`; here every node
 * holds its parts by value.
 */
module TypedAst {
  import opened Util
  import opened AstTypes

  /** `BinaryOps`. */
  datatype BinaryOp = Add | Sub | Mul | Div | Mod | And | Or | Eq | Ne | Lt | Gt | Le | Ge

  /** `UnaryOps`; a cast carries its target type. */
  datatype UnaryOp = Neg | LogNeg | Ref | Deref | Complement | Cast(to: DataType)

  /**
   * `Expression`.  The variants holding a call, an array literal, a struct
   * literal and an assignment are `Call`, `Array`, `StructLiteral` and
   * `Assign` here.  A field access records where the field starts inside
   * its struct; a named variable the stack offset of its slot.
   */
  datatype Expression =
    | LongLiteral(long: int)
    | IntLiteral(int32: int)
    | CharLiteral(byte: nat)
    | Call(call: FunctionCall)
    | Array(array: ArrayExpression)
    | StructLiteral(literal: StructExpression)
    | Assign(assignment: Assignment)
    | TypeExpression(dataType: DataType)
    | FieldAccess(offset: int, dataType: DataType, operand: Expression)
    | Indexing(index: Expression, operand: Expression)
    | NamedVariable(stackOffset: nat, dataType: DataType)
    | Unary(expression: Expression, operation: UnaryOp)
    | BinaryExpression(first: Expression, second: Expression, binaryOp: BinaryOp)

  /** `FunctionCall`: the callee, the arguments, their types and the callee's return type. */
  datatype FunctionCall = FunctionCall(name: string, parameter: seq<Expression>, dataTypes: seq<DataType>, returnType: DataType)

  /** `ArrayExpression`: an array on the stack, or a string literal with its label. */
  datatype ArrayExpression =
    | StackArray(dataType: DataType, expressions: seq<Expression>, offset: nat, baseType: DataType)
    | StringLiteral(labelIndex: nat, text: string)

  /** `StructExpression`: one store per field, the literal's stack offset and its struct type. */
  datatype StructExpression = StructExpression(assignments: seq<Assignment>, offset: nat, dataType: DataType)

  /**
   * `Assignment`.  A field assignment records the field's start; the stores
   * of a struct literal are variable assignments at decreasing offsets.
   */
  datatype Assignment =
    | VariableAssignment(stackOffset: int, dataType: DataType, expression: Expression)
    | PtrAssignment(value: Expression, address: Expression)
    | ArrayAssignment(index: Expression, value: Expression, address: Expression)
    | FieldAssignment(offset: int, address: Expression, value: Expression)

  /** `Statement`; the variant holding a `StatementList` is `Block` here. */
  datatype Statement =
    | Return(result: Option<Expression>)
    | SingleExpression(expression: Expression)
    | Block(list: StatementList)
    | If(ifStatement: IfStatement)
    | For(forStatement: ForStatement)
    | While(whileStatement: WhileStatement)
    | Typedef(definition: TypeDefinition)
    | VariableDeclaration(variable: Variable, initializer: Option<Assignment>)
    | Continue(labelIndex: nat)
    | Break(labelIndex: nat)
    | Empty

  /** `StatementList`: the statements and the scope's stack size when the block closed. */
  datatype StatementList = StatementList(statements: seq<Statement>, stackSize: nat)

  /** `IfStatement` and its `ElsePart`. */
  datatype IfStatement = IfStatement(statements: StatementList, condition: Expression, elsePart: ElsePart)
  datatype ElsePart = ElseIf(ifStatement: IfStatement) | ElseList(list: StatementList) | NoElse

  /** `ForStatement`: a missing condition is stored as the literal 1. */
  datatype ForStatement = ForStatement(init: Statement, condition: Expression, post: Option<Expression>, body: StatementList, labelIndex: nat)

  /** `WhileStatement`. */
  datatype WhileStatement = WhileStatement(condition: Expression, body: StatementList, labelIndex: nat)

  /** `TypeDefinition`: a name for a type. */
  datatype TypeDefinition = TypeDefinition(name: string, dataType: DataType)

  /** `Function`: a prototype has no statements and a stack size of 0. */
  datatype Function = Function(statements: Option<StatementList>, parameter: seq<Variable>, name: string, returnType: DataType, stackSize: nat)

  /** `Decalrations`: a top-level statement or a function. */
  datatype Declaration = StatementDeclaration(statement: Statement) | FunctionDeclaration(definition: Function)

  /** `Program`. */
  datatype Program = Program(declarations: seq<Declaration>)

  /** The type a pointer points to; dereferencing anything else panics (`None`). */
  function Pointee(t: Option<DataType>): (r: Option<DataType>)
    ensures r.Some? <==> t.Some? && t.value.PTR?
    ensures r.Some? ==> t.value == PTR(r.value)
  {
    if t.Some? && t.value.PTR? then Some(t.value.base) else None
  }

  /**
   * `Expression::data_type`; `None` where the source panics, which is
   * dereferencing or indexing an expression whose type is not a pointer.
   */
  function TypeOf(e: Expression): Option<DataType>
  {
    match e
    case LongLiteral(_) => Some(LONG)
    case IntLiteral(_) => Some(INT)
    case CharLiteral(_) => Some(CHAR)
    case NamedVariable(_, t) => Some(t)
    case Unary(x, op) =>
      (match op
       case Neg => TypeOf(x)
       case LogNeg => TypeOf(x)
       case Complement => TypeOf(x)
       case Ref => (if TypeOf(x).Some? then Some(PTR(TypeOf(x).value)) else None)
       case Deref => Pointee(TypeOf(x))
       case Cast(t) => Some(t))
    case BinaryExpression(a, b, _) =>
      (if TypeOf(a).None? || TypeOf(b).None? then None
       else if Size(TypeOf(a).value) > Size(TypeOf(b).value) then TypeOf(a)
       else TypeOf(b))
    case Call(c) => Some(c.returnType)
    case Array(arr) => Some(ArrayType(arr))
    case Indexing(_, operand) => Pointee(TypeOf(operand))
    case Assign(a) =>
      (match a
       case VariableAssignment(_, t, _) => Some(t)
       case PtrAssignment(_, address) => StoreType(TypeOf(address))
       case ArrayAssignment(_, _, address) => StoreType(TypeOf(address))
       case FieldAssignment(_, _, value) => TypeOf(value))
    case TypeExpression(t) => Some(t)
    case FieldAccess(_, t, _) => Some(t)
    case StructLiteral(s) => Some(s.dataType)
  }

  /** The type a pointer or array store has: the pointee of its address, or the address type itself. */
  function StoreType(address: Option<DataType>): (r: Option<DataType>)
    ensures r.Some? <==> address.Some?
    ensures r.Some? && address.value.PTR? ==> r.value == address.value.base
    ensures r.Some? && !address.value.PTR? ==> r.value == address.value
  {
    if address.None? then None
    else if address.value.PTR? then Some(address.value.base)
    else address
  }

  /** `Assignment::data_type`. */
  function AssignmentType(a: Assignment): (r: Option<DataType>)
    ensures r == TypeOf(Assign(a))
  {
    match a
    case VariableAssignment(_, t, _) => Some(t)
    case PtrAssignment(_, address) => StoreType(TypeOf(address))
    case ArrayAssignment(_, _, address) => StoreType(TypeOf(address))
    case FieldAssignment(_, _, value) => TypeOf(value)
  }

  /** `ArrayExpression::data_type`: a stack array's stored type; a string is a `char` pointer. */
  function ArrayType(arr: ArrayExpression): (t: DataType)
    ensures arr.StringLiteral? ==> t == PTR(CHAR)
  {
    match arr
    case StackArray(t, _, _, _) => t
    case StringLiteral(_, _) => PTR(CHAR)
  }

  /**
   * A binary expression has the type of its larger operand, the right one
   * when both have the same size; it has a type exactly when both operands do.
   */
  lemma BinaryTakesLargerOperand(a: Expression, b: Expression, op: BinaryOp)
    ensures TypeOf(BinaryExpression(a, b, op)).Some? <==> TypeOf(a).Some? && TypeOf(b).Some?
    ensures TypeOf(a).Some? && TypeOf(b).Some? ==>
      var t := TypeOf(BinaryExpression(a, b, op)).value;
      && (t == TypeOf(a).value || t == TypeOf(b).value)
      && Size(t) >= Size(TypeOf(a).value) && Size(t) >= Size(TypeOf(b).value)
      && (Size(TypeOf(a).value) == Size(TypeOf(b).value) ==> t == TypeOf(b).value)
  {
  }

  /** Taking the address and dereferencing it again gives back the operand's type. */
  lemma DerefOfRef(x: Expression)
    ensures TypeOf(Unary(Unary(x, Ref), Deref)) == TypeOf(x)
  {
  }

  /** Dereferencing or indexing has a type exactly when the operand is a pointer; it is the pointee. */
  lemma DerefNeedsPointer(x: Expression, index: Expression)
    ensures TypeOf(Unary(x, Deref)).Some? <==> TypeOf(x).Some? && TypeOf(x).value.PTR?
    ensures TypeOf(Indexing(index, x)) == TypeOf(Unary(x, Deref))
    ensures TypeOf(Unary(x, Deref)).Some? ==> TypeOf(x) == Some(PTR(TypeOf(Unary(x, Deref)).value))
  {
  }

  /** A cast has its target type whatever the operand; the other unary operators keep the operand's type. */
  lemma UnaryTypes(x: Expression, t: DataType)
    ensures TypeOf(Unary(x, Cast(t))) == Some(t)
    ensures TypeOf(Unary(x, Neg)) == TypeOf(x) && TypeOf(Unary(x, LogNeg)) == TypeOf(x)
    ensures TypeOf(Unary(x, Complement)) == TypeOf(x)
    ensures TypeOf(x).Some? ==> TypeOf(Unary(x, Ref)) == Some(PTR(TypeOf(x).value))
  {
  }

  /**
   * The loop labels inside a statement lie in `(lo, hi]`, and the loops
   * nested in a loop's head or body have larger labels than it; a `break`
   * or `continue` names a label from 1 to `hi`.
   */
  predicate LabelsIn(s: Statement, lo: int, hi: int)
    decreases s
  {
    match s
    case Block(l) => ListLabelsIn(l, lo, hi)
    case If(i) => IfLabelsIn(i, lo, hi)
    case For(f) => lo < f.labelIndex <= hi && LabelsIn(f.init, f.labelIndex, hi) && ListLabelsIn(f.body, f.labelIndex, hi)
    case While(w) => lo < w.labelIndex <= hi && ListLabelsIn(w.body, w.labelIndex, hi)
    case Continue(l) => 0 < l <= hi
    case Break(l) => 0 < l <= hi
    case _ => true
  }

  /** `LabelsIn` for every statement of a list. */
  predicate ListLabelsIn(l: StatementList, lo: int, hi: int)
    decreases l
  {
    forall k :: 0 <= k < |l.statements| ==> LabelsIn(l.statements[k], lo, hi)
  }

  /** `LabelsIn` for both branches of an `if`. */
  predicate IfLabelsIn(i: IfStatement, lo: int, hi: int)
    decreases i
  {
    ListLabelsIn(i.statements, lo, hi) && ElseLabelsIn(i.elsePart, lo, hi)
  }

  /** `LabelsIn` for an else part. */
  predicate ElseLabelsIn(e: ElsePart, lo: int, hi: int)
    decreases e
  {
    match e
    case ElseIf(i) => IfLabelsIn(i, lo, hi)
    case ElseList(l) => ListLabelsIn(l, lo, hi)
    case NoElse => true
  }

  /** Labels within an interval are within any interval around it. */
  lemma {:induction false} WidenLabels(s: Statement, lo: int, hi: int, lo': int, hi': int)
    requires LabelsIn(s, lo, hi) && lo' <= lo && hi <= hi'
    ensures LabelsIn(s, lo', hi')
    decreases s
  {
    match s
    case Block(l) => WidenListLabels(l, lo, hi, lo', hi');
    case If(i) => WidenIfLabels(i, lo, hi, lo', hi');
    case For(f) =>
      WidenLabels(f.init, f.labelIndex, hi, f.labelIndex, hi');
      WidenListLabels(f.body, f.labelIndex, hi, f.labelIndex, hi');
    case While(w) => WidenListLabels(w.body, w.labelIndex, hi, w.labelIndex, hi');
    case _ =>
  }

  lemma {:induction false} WidenListLabels(l: StatementList, lo: int, hi: int, lo': int, hi': int)
    requires ListLabelsIn(l, lo, hi) && lo' <= lo && hi <= hi'
    ensures ListLabelsIn(l, lo', hi')
    decreases l
  {
    forall k | 0 <= k < |l.statements|
      ensures LabelsIn(l.statements[k], lo', hi')
    {
      WidenLabels(l.statements[k], lo, hi, lo', hi');
    }
  }

  lemma {:induction false} WidenIfLabels(i: IfStatement, lo: int, hi: int, lo': int, hi': int)
    requires IfLabelsIn(i, lo, hi) && lo' <= lo && hi <= hi'
    ensures IfLabelsIn(i, lo', hi')
    decreases i
  {
    WidenListLabels(i.statements, lo, hi, lo', hi');
    WidenElseLabels(i.elsePart, lo, hi, lo', hi');
  }

  lemma {:induction false} WidenElseLabels(e: ElsePart, lo: int, hi: int, lo': int, hi': int)
    requires ElseLabelsIn(e, lo, hi) && lo' <= lo && hi <= hi'
    ensures ElseLabelsIn(e, lo', hi')
    decreases e
  {
    match e
    case ElseIf(j) => WidenIfLabels(j, lo, hi, lo', hi');
    case ElseList(l) => WidenListLabels(l, lo, hi, lo', hi');
    case NoElse =>
  }

  /** `WidenLabels` for the statements of `ss` from index `from` on. */
  lemma WidenAllLabels(ss: seq<Statement>, from: nat, lo: int, hi: int, lo': int, hi': int)
    requires forall k :: from <= k < |ss| ==> LabelsIn(ss[k], lo, hi)
    requires lo' <= lo && hi <= hi'
    ensures forall k :: from <= k < |ss| ==> LabelsIn(ss[k], lo', hi')
  {
    forall k | from <= k < |ss|
      ensures LabelsIn(ss[k], lo', hi')
    {
      WidenLabels(ss[k], lo, hi, lo', hi');
    }
  }
}
