/**
 * The types and the resolved tree of the scope builder (the files under
 * src/scope_builder/ast): what a name resolves to once its type is known,
 * and the size and field rules the resolver checks against.  Every node is a
 * plain value; what the source allocates in an arena is held by value.
 */
module ResolvedTypes {
  import opened Util
  import Syntax

  /** `DataType`: an `EmptyStruct` is a struct that is declared but not yet defined. */
  datatype DataType = LONG | INT | CHAR | VOID | PTR(base: DataType) | STRUCT(s: Struct) | EmptyStruct

  /** `Struct`: named fields in declaration order. */
  datatype Struct = Struct(fields: seq<(string, DataType)>)

  /** `Variable`: where on the stack the slot ends, and its type. */
  datatype Variable = Variable(stackOffset: nat, dataType: DataType)

  /** `DataType::size`: the size in bytes of a value of the type. */
  function Size(t: DataType): nat
    decreases t, 0
  {
    match t
    case INT => 4
    case CHAR => 1
    case LONG => 8
    case PTR(_) => 8
    case STRUCT(s) => FieldsSize(s, |s.fields|)
    case VOID => 0
    case EmptyStruct => 0
  }

  /** The sizes of the types of the first `n` fields, summed front to back. */
  function FieldsSize(s: Struct, n: nat): nat
    requires n <= |s.fields|
    decreases s, n
  {
    if n == 0 then 0 else FieldsSize(s, n - 1) + Size(s.fields[n - 1].1)
  }

  /** `is_number`. */
  predicate IsNumber(t: DataType) {
    match t
    case INT => true
    case LONG => true
    case CHAR => true
    case _ => false
  }

  /** `Struct::new`. */
  function NewStruct(fields: seq<(string, DataType)>): (s: Struct)
    ensures s.fields == fields
  {
    Struct(fields)
  }

  /** `Struct::field`: the type of the first field with the name. */
  function Field(s: Struct, name: string): (r: Option<DataType>) {
    FirstField(s.fields, name)
  }

  /** The type of the first of `fields` called `name`. */
  function FirstField(fields: seq<(string, DataType)>, name: string): Option<DataType> {
    if fields == [] then None
    else if fields[0].0 == name then Some(fields[0].1)
    else FirstField(fields[1..], name)
  }

  /** `ResolvedExpression`: an expression with its names resolved and its type attached. */
  datatype ResolvedExpression =
    | IntLiteral(value: int)
    | CharLiteral(byte: nat)
    | FunctionCall(call: ResolvedFunctionCall)
    | ArrayExpression(arrayValue: ResolvedArrayExpression)
    | StructExpression(literal: ResolvedStructExpression)
    | Assignment(assignment: ResolvedAssignment)
    | TypeExpression(dataType: DataType)
    | SizeOf(size: nat)
    | FieldAccess(fieldOffset: nat, dataType: DataType, operand: ResolvedExpression)
    | ArrowAccess(fieldOffset: nat, dataType: DataType, operand: ResolvedExpression)
    | Indexing(dataType: DataType, index: ResolvedExpression, operand: ResolvedExpression)
    | NamedVariable(variable: Variable)
    | Unary(expression: ResolvedExpression, operation: Syntax.UnaryOp, resultingType: DataType)
    | Cast(expression: ResolvedExpression, dataType: DataType)
    | BinaryExpression(lhs: ResolvedExpression, rhs: ResolvedExpression, op: Syntax.BinaryOp, resultingType: DataType)

  /** `ResolvedFunctionCall`: the callee, the resolved arguments and the callee's return type. */
  datatype ResolvedFunctionCall = ResolvedFunctionCall(name: string, parameter: seq<ResolvedExpression>, returnType: DataType)

  /** `ResolvedArrayExpression`: a stack array of stores, or a string literal with its label number. */
  datatype ResolvedArrayExpression =
    | StackArray(expressions: seq<ResolvedAssignment>, dataType: DataType, stackOffset: nat)
    | StringLiteral(text: string, dataType: DataType, stringLabelIndex: int)

  /** `ResolvedStructExpression`: one store per field, the struct type, and the offset after the last field. */
  datatype ResolvedStructExpression = ResolvedStructExpression(fields: seq<ResolvedAssignment>, dataType: DataType, stackOffset: nat)

  /** `ResolvedAssignment`: a store into a stack slot, through a pointer, into an array element or into a field. */
  datatype ResolvedAssignment =
    | StackAssignment(variable: Variable, expression: ResolvedExpression)
    | PtrAssignment(dataType: DataType, value: ResolvedExpression, address: ResolvedExpression)
    | ArrayAssignment(dataType: DataType, index: ResolvedExpression, value: ResolvedExpression, address: ResolvedExpression)
    | FieldAssignment(fieldOffset: nat, dataType: DataType, value: ResolvedExpression, address: ResolvedExpression)

  /** `ResolvedStatement`; `Continue` and `Break` carry the loop label they jump to. */
  datatype ResolvedStatement =
    | Return(value: Option<ResolvedExpression>)
    | SingleExpression(expression: ResolvedExpression)
    | Compound(compound: ResolvedCompound)
    | IfStatement(ifStatement: ResolvedIfStatement)
    | ForStatement(forStatement: ResolvedForStatement)
    | WhileStatement(whileStatement: ResolvedWhileStatement)
    | VariableDeclaration(stackOffset: nat, initial: Option<ResolvedExpression>)
    | Continue(target: int)
    | Break(target: int)
    | Empty

  datatype ResolvedCompound = ResolvedCompound(statements: seq<ResolvedStatement>)

  datatype ResolvedIfStatement = ResolvedIfStatement(statements: ResolvedCompound, condition: ResolvedExpression, elsePart: ResolvedElsePart)

  datatype ResolvedElsePart = ElseIf(nested: ResolvedIfStatement) | ElseCompound(compound: ResolvedCompound) | NoElse

  datatype ResolvedForStatement = ResolvedForStatement(init: ResolvedStatement, condition: ResolvedExpression, post: Option<ResolvedExpression>, body: ResolvedCompound, labelIndex: int)

  datatype ResolvedWhileStatement = ResolvedWhileStatement(condition: ResolvedExpression, body: ResolvedCompound, labelIndex: int)

  /** `ResolvedFunction`: a prototype has no statements; `frameSize` is the deepest stack use. */
  datatype ResolvedFunction = ResolvedFunction(name: string, statements: Option<ResolvedCompound>, parameter: seq<(DataType, string)>, frameSize: nat)

  datatype ResolvedProgram = ResolvedProgram(functions: seq<ResolvedFunction>)

  /** `ResolvedArrayExpression::data_type`. */
  function ArrayType(a: ResolvedArrayExpression): DataType {
    a.dataType
  }

  /** `ResolvedAssignment::data_type`: a stack store has its variable's type. */
  function AssignmentType(a: ResolvedAssignment): DataType {
    match a
    case StackAssignment(v, _) => v.dataType
    case _ => a.dataType
  }

  /** `ResolvedExpression::data_type`. */
  function TypeOf(e: ResolvedExpression): DataType {
    match e
    case IntLiteral(_) => INT
    case CharLiteral(_) => CHAR
    case FunctionCall(x) => x.returnType
    case ArrayExpression(a) => ArrayType(a)
    case StructExpression(s) => s.dataType
    case Assignment(a) => AssignmentType(a)
    case TypeExpression(t) => t
    case SizeOf(_) => INT
    case FieldAccess(_, t, _) => t
    case ArrowAccess(_, t, _) => t
    case Indexing(t, _, _) => t
    case NamedVariable(v) => v.dataType
    case Unary(_, _, t) => t
    case Cast(_, t) => t
    case BinaryExpression(_, _, _, t) => t
  }

  /** The size table; a struct's size is the sum of its fields' sizes. */
  lemma SizeTable(t: DataType, s: Struct)
    ensures Size(INT) == 4 && Size(CHAR) == 1 && Size(LONG) == 8 && Size(PTR(t)) == 8
    ensures Size(VOID) == 0 && Size(EmptyStruct) == 0
    ensures Size(STRUCT(s)) == FieldsSize(s, |s.fields|)
  {
  }

  /** The size of the first `n` fields depends on those fields only. */
  lemma {:induction false} FieldsSizePrefix(a: Struct, b: Struct, n: nat)
    requires n <= |a.fields| && n <= |b.fields| && a.fields[..n] == b.fields[..n]
    ensures FieldsSize(a, n) == FieldsSize(b, n)
  {
    if n > 0 {
      assert a.fields[n - 1] == a.fields[..n][n - 1] == b.fields[n - 1];
      assert a.fields[..n - 1] == a.fields[..n][..n - 1];
      assert b.fields[..n - 1] == b.fields[..n][..n - 1];
      FieldsSizePrefix(a, b, n - 1);
    }
  }

  /** A struct built from a field list grows by the size of each field appended to it. */
  lemma NewStructSize(fields: seq<(string, DataType)>, name: string, t: DataType)
    ensures Size(STRUCT(NewStruct([]))) == 0
    ensures Size(STRUCT(NewStruct(fields + [(name, t)]))) == Size(STRUCT(NewStruct(fields))) + Size(t)
  {
    var longer := NewStruct(fields + [(name, t)]);
    assert longer.fields[..|fields|] == NewStruct(fields).fields[..|fields|];
    FieldsSizePrefix(longer, NewStruct(fields), |fields|);
  }

  /** `is_number` holds exactly for INT, LONG and CHAR, and a number has a positive size. */
  lemma IsNumberCases(t: DataType)
    ensures IsNumber(t) <==> t == INT || t == LONG || t == CHAR
    ensures IsNumber(t) ==> Size(t) > 0
  {
  }

  /**
   * `field` finds a field exactly when one has the name, and then it gives
   * the type of the first such field.
   */
  lemma {:induction false} FieldIsFirst(s: Struct, name: string)
    ensures Field(s, name).Some? <==> exists i :: 0 <= i < |s.fields| && s.fields[i].0 == name
    ensures Field(s, name).Some? ==>
      exists i ::
        && 0 <= i < |s.fields|
        && s.fields[i] == (name, Field(s, name).value)
        && forall j :: 0 <= j < i ==> s.fields[j].0 != name
  {
    FirstFieldIsFirst(s.fields, name);
  }

  /** `FirstField` finds a field exactly when one has the name, and it is the first one that does. */
  lemma {:induction false} FirstFieldIsFirst(fields: seq<(string, DataType)>, name: string)
    ensures FirstField(fields, name).Some? <==> exists i :: 0 <= i < |fields| && fields[i].0 == name
    ensures FirstField(fields, name).Some? ==>
      exists i ::
        && 0 <= i < |fields|
        && fields[i] == (name, FirstField(fields, name).value)
        && forall j :: 0 <= j < i ==> fields[j].0 != name
  {
    if fields != [] && fields[0].0 != name {
      var rest := fields[1..];
      FirstFieldIsFirst(rest, name);
      if exists i :: 0 <= i < |fields| && fields[i].0 == name {
        var i :| 0 <= i < |fields| && fields[i].0 == name;
        assert rest[i - 1].0 == name;
      }
      if FirstField(fields, name).Some? {
        var i :|
          && 0 <= i < |rest|
          && rest[i] == (name, FirstField(rest, name).value)
          && forall j :: 0 <= j < i ==> rest[j].0 != name;
        assert fields[i + 1] == rest[i];
        forall j | 0 <= j < i + 1 ensures fields[j].0 != name {
          if j > 0 {
            assert fields[j] == rest[j - 1];
          }
        }
      }
    } else if fields != [] {
      assert fields[0] == (name, FirstField(fields, name).value);
    }
  }

  /**
   * The type of each kind of resolved expression: literals and `sizeof` have
   * a fixed type whatever they hold, every other kind the type recorded in it.
   */
  lemma TypeOfTable(e: ResolvedExpression, v: int, b: nat, n: nat)
    ensures TypeOf(IntLiteral(v)) == INT && TypeOf(SizeOf(n)) == INT && TypeOf(CharLiteral(b)) == CHAR
    ensures e.FunctionCall? ==> TypeOf(e) == e.call.returnType
    ensures e.ArrayExpression? ==> TypeOf(e) == e.arrayValue.dataType
    ensures e.StructExpression? ==> TypeOf(e) == e.literal.dataType
    ensures e.Assignment? && e.assignment.StackAssignment? ==> TypeOf(e) == e.assignment.variable.dataType
    ensures e.Assignment? && !e.assignment.StackAssignment? ==> TypeOf(e) == e.assignment.dataType
    ensures e.NamedVariable? ==> TypeOf(e) == e.variable.dataType
    ensures e.Unary? || e.BinaryExpression? ==> TypeOf(e) == e.resultingType
    ensures e.TypeExpression? || e.FieldAccess? || e.ArrowAccess? || e.Indexing? || e.Cast? ==> TypeOf(e) == e.dataType
  {
  }
}
