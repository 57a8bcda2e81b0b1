/**
 * The visitors of the scope builder (src/scope_builder.rs:184-983): they
 * resolve every name of a syntax tree against the scopes, attach a type to
 * every expression, give every local a stack slot and every loop a label,
 * and reject what does not type.
 *
 * A visit here takes the builder's value and gives back the resolved node
 * with the builder's new value, or the error that the source returns with `?`.
 */
module Resolver {
  import opened Util
  import Tokens
  import Syntax
  import opened ResolvedTypes
  import opened Scopes

  /** The errors the visitors return, by the names they use. */
  datatype ResolveError =
    | RedeclarationOfFunction(name: string)
    | FunctionDefinitionNotSameAsDeclaration(name: string)
    | ReturnTypeIncorrect(expected: DataType, found: DataType)
    | ReturnWithoutFunction
    | VariableRedefinition(name: string)
    | VariableDeclarationOutsideOfFunction(name: string)
    | VariableOfUnknownSize(name: string, dataType: DataType)
    | VariableInitWrong(expected: DataType, found: DataType, name: string)
    | ContinueNotInLoop
    | BreakNotInLoop
    | SingleStatementMayNotBeDeclaration(name: string)
    | UnknownType(name: string)
    | StructRedefinition(name: string)
    | StructFieldRedefinition(structName: string, fieldName: string)
    | StructFieldUnknownSize(structName: string, fieldName: string)
    | UnknownField(expression: Syntax.Expression, name: string)
    | AccessNonStruct(expression: Syntax.Expression)
    | DerefOfNonPointer(expression: Syntax.Expression)
    | ArrayIndexNotANumber(index: Syntax.Expression)
    | UnknownVariable(name: string)
    | UnaryOperandNotNumber(expression: Syntax.Expression, operation: Syntax.UnaryOp)
    | OperandsDifferentDatatypes(lhs: Syntax.Expression, rhs: Syntax.Expression)
    | CannotAssignVariable(assignment: Syntax.Expression, name: string, variable: Variable)
    | CannotAssign(value: Syntax.Expression, address: Syntax.Expression)
    | EmptyArray
    | ArrayOfDifferentTypes
    | ParameterCountMismatch(name: string, expectedCount: nat, foundCount: nat)
    | ParameterTypeMismatch(name: string, expected: DataType, found: DataType, parameterName: string)
    | UnknownFunction(name: string)
    | Panic
    | Overflow

  /**
   * The two typing rules the visitors call but the source does not define:
   * whether a value of one type may stand for another (`can_convert`), and
   * the offset of a named field in a struct (the first half of `field`).
   */
  datatype Rules = Rules(canConvert: (DataType, DataType) -> bool, fieldOffset: (Struct, string) -> nat)

  /** What a visit gives: the resolved node and the builder after it, or an error. */
  type Outcome<T> = Result<(T, Builder), ResolveError>

  /**
   * What every visit below the function level keeps: the frame depth, every
   * frame below the top one, the saved offsets and the current function.
   * Offsets, the frame size and the label counters only grow, and the loop
   * labels only lose entries from the top.
   */
  predicate Evolves(b: Builder, c: Builder) {
    && |c.scope.types| == |b.scope.types| && Below(c.scope.types) == Below(b.scope.types)
    && |c.scope.variables| == |b.scope.variables| && Below(c.scope.variables) == Below(b.scope.variables)
    && |c.scope.functions| >= |b.scope.functions|
    && c.stackScope == b.stackScope
    && c.currentFunction == b.currentFunction
    && c.loopLabels <= b.loopLabels
    && c.labelIndex >= b.labelIndex && c.stringIndex >= b.stringIndex
    && c.stackOffset >= b.stackOffset && c.frameSize >= b.frameSize
  }

  /** Dropping the top of a prefix of `labels + [l]` leaves a prefix of `labels`. */
  lemma BelowPrefix(p: seq<int>, labels: seq<int>, l: int)
    requires p <= labels + [l]
    ensures Below(p) <= labels
  {
    if |p| == |labels| + 1 {
      assert p[..|p| - 1] == (labels + [l])[..|labels|] == labels;
    }
  }

  /** The number of entries of `fields` with the name. */
  function Occurrences<T>(fields: seq<(string, T)>, name: string): nat {
    if fields == [] then 0 else (if fields[0].0 == name then 1 else 0) + Occurrences(fields[1..], name)
  }

  // ---------------------------------------------------------------------
  // Types (src/scope_builder.rs:473-545)
  // ---------------------------------------------------------------------

  /**
   * The type-expression visitor.  A struct with a body is a definition: a
   * new name is bound to `EmptyStruct` while its fields resolve, every field
   * name must occur once and every field type must have a size, and then the
   * name is bound to the struct.  A name already bound to `EmptyStruct` (a
   * forward declaration) takes the fields without those checks and without
   * rebinding the name.  `struct S` alone declares `S` when it is unknown.
   */
  function ResolveType(b: Builder, t: Syntax.TypeExpression, rules: Rules, fuel: nat): (r: Outcome<DataType>)
    requires b.Valid()
    ensures r.Ok? ==> Evolves(b, r.value.1)
    decreases fuel, t, 2, 0
  {
    match t
    case Primitive(x) =>
      if x == Tokens.INT then Ok((INT, b))
      else if x == Tokens.CHAR then Ok((CHAR, b))
      else if x == Tokens.LONG then Ok((LONG, b))
      else if x == Tokens.VOID then Ok((VOID, b))
      else Err(Panic)
    case Typeof(e) =>
      var o :- ResolveExpression(b, e, rules, fuel);
      Ok((TypeOf(o.0), o.1))
    case Named(name) =>
      (match b.GetType(name)
       case Some(x) => Ok((x, b))
       case None => Err(UnknownType(name)))
    case Struct(name, _) =>
      (match b.GetType(name)
       case Some(x) =>
         if x == EmptyStruct then
           var o :- ResolveFields(b, t, 0, rules, fuel);
           Ok((STRUCT(NewStruct(o.0)), o.1))
         else Err(StructRedefinition(name))
       case None =>
         var o :- ResolveCheckedFields(b.PushType(name, EmptyStruct), t, 0, rules, fuel);
         var defined := STRUCT(NewStruct(o.0));
         Ok((defined, o.1.PushType(name, defined))))
    case NamedStruct(name) =>
      (match b.GetType(name)
       case Some(x) => Ok((x, b))
       case None => Ok((EmptyStruct, b.PushType(name, EmptyStruct))))
    case Pointer(pointee) =>
      var o :- ResolveType(b, pointee, rules, fuel);
      Ok((PTR(o.0), o.1))
  }

  /** The fields of a struct from the `i`-th on, resolved in order without checks. */
  function ResolveFields(b: Builder, t: Syntax.TypeExpression, i: nat, rules: Rules, fuel: nat): (r: Outcome<seq<(string, DataType)>>)
    requires b.Valid() && t.Struct? && i <= |t.fields|
    ensures r.Ok? ==> Evolves(b, r.value.1) && |r.value.0| == |t.fields| - i
    decreases fuel, t, 1, |t.fields| - i
  {
    if i == |t.fields| then Ok(([], b))
    else
      var o :- ResolveType(b, t.fields[i].1, rules, fuel);
      var rest :- ResolveFields(o.1, t, i + 1, rules, fuel);
      Ok(([(t.fields[i].0, o.0)] + rest.0, rest.1))
  }

  /**
   * The fields of a new struct from the `i`-th on: a name that occurs more
   * than once in the whole list is rejected when its first occurrence is
   * reached, before its type resolves; a type of size 0 after it resolves.
   */
  function ResolveCheckedFields(b: Builder, t: Syntax.TypeExpression, i: nat, rules: Rules, fuel: nat): (r: Outcome<seq<(string, DataType)>>)
    requires b.Valid() && t.Struct? && i <= |t.fields|
    ensures r.Ok? ==> Evolves(b, r.value.1) && |r.value.0| == |t.fields| - i
    decreases fuel, t, 1, |t.fields| - i
  {
    if i == |t.fields| then Ok(([], b))
    else
      var fieldName := t.fields[i].0;
      if Occurrences(t.fields, fieldName) != 1 then Err(StructFieldRedefinition(t.name, fieldName))
      else
        var o :- ResolveType(b, t.fields[i].1, rules, fuel);
        if Size(o.0) == 0 then Err(StructFieldUnknownSize(t.name, fieldName))
        else
          var rest :- ResolveCheckedFields(o.1, t, i + 1, rules, fuel);
          Ok(([(fieldName, o.0)] + rest.0, rest.1))
  }

  // ---------------------------------------------------------------------
  // Expressions (src/scope_builder.rs:547-706)
  // ---------------------------------------------------------------------

  /** The expression visitor. */
  function ResolveExpression(b: Builder, e: Syntax.Expression, rules: Rules, fuel: nat): (r: Outcome<ResolvedExpression>)
    requires b.Valid()
    ensures r.Ok? ==> Evolves(b, r.value.1)
    decreases fuel, e, 3, 0
  {
    match e
    case IntLiteral(i) => Ok((IntLiteral(i), b))
    case CharLiteral(c) => Ok((CharLiteral(c), b))
    case Call(_) =>
      var o :- ResolveCall(b, e, rules, fuel);
      Ok((FunctionCall(o.0), o.1))
    case Array(_) =>
      var o :- ResolveArray(b, e, rules, fuel);
      Ok((ArrayExpression(o.0), o.1))
    case StructLiteral(_) =>
      var o :- ResolveStructLiteral(b, e, rules, fuel);
      Ok((StructExpression(o.0), o.1))
    case Assign(a) =>
      var o :- ResolveAssignment(b, a, rules, fuel);
      Ok((Assignment(o.0), o.1))
    case Type(t) =>
      var o :- ResolveType(b, t, rules, fuel);
      Ok((TypeExpression(o.0), o.1))
    case SizeOf(x) =>
      var o :- ResolveExpression(b, x, rules, fuel);
      Ok((SizeOf(Size(TypeOf(o.0))), o.1))
    case FieldAccess(name, operand) =>
      var o :- ResolveExpression(b, operand, rules, fuel);
      (match TypeOf(o.0)
       case STRUCT(x) =>
         (match Field(x, name)
          case Some(t) => Ok((FieldAccess(rules.fieldOffset(x, name), t, o.0), o.1))
          case None => Err(UnknownField(operand, name)))
       case _ => Err(AccessNonStruct(operand)))
    case ArrowAccess(name, operand) =>
      var o :- ResolveExpression(b, operand, rules, fuel);
      (match TypeOf(o.0)
       case PTR(base) =>
         (match base
          case STRUCT(x) =>
            (match Field(x, name)
             case Some(t) => Ok((ArrowAccess(rules.fieldOffset(x, name), t, o.0), o.1))
             case None => Err(UnknownField(operand, name)))
          case _ => Err(AccessNonStruct(operand)))
       case _ => Err(DerefOfNonPointer(operand)))
    case Indexing(index, operand) =>
      var o :- ResolveExpression(b, operand, rules, fuel);
      var i :- ResolveExpression(o.1, index, rules, fuel);
      if !IsNumber(TypeOf(i.0)) then Err(ArrayIndexNotANumber(index))
      else
        (match TypeOf(o.0)
         case PTR(x) => Ok((Indexing(x, i.0, o.0), i.1))
         case _ => Err(DerefOfNonPointer(operand)))
    case NamedVariable(name) =>
      (match b.GetVariable(name)
       case Some(v) => Ok((NamedVariable(v), b))
       case None => Err(UnknownVariable(name)))
    case Unary(_, _) => ResolveUnary(b, e, rules, fuel)
    case BinaryExpression(_, _, _) => ResolveBinary(b, e, rules, fuel)
  }

  /**
   * A prefix operator: `&` gives a pointer to the operand's type, `*` needs a
   * pointer and gives its base, a cast resolves its target type before its
   * operand, and the other three need a number and keep its type.
   */
  function ResolveUnary(b: Builder, e: Syntax.Expression, rules: Rules, fuel: nat): (r: Outcome<ResolvedExpression>)
    requires b.Valid() && e.Unary?
    ensures r.Ok? ==> Evolves(b, r.value.1)
    decreases fuel, e, 2, 0
  {
    var x := e.expression;
    match e.operation
    case Ref =>
      var o :- ResolveExpression(b, x, rules, fuel);
      Ok((Unary(o.0, e.operation, PTR(TypeOf(o.0))), o.1))
    case Deref =>
      var o :- ResolveExpression(b, x, rules, fuel);
      (match TypeOf(o.0)
       case PTR(t) => Ok((Unary(o.0, e.operation, t), o.1))
       case _ => Err(DerefOfNonPointer(x)))
    case Cast(target) =>
      var t :- ResolveType(b, target, rules, fuel);
      var o :- ResolveExpression(t.1, x, rules, fuel);
      Ok((Cast(o.0, t.0), o.1))
    case _ =>
      var o :- ResolveExpression(b, x, rules, fuel);
      if !IsNumber(TypeOf(o.0)) then Err(UnaryOperandNotNumber(x, e.operation))
      else Ok((Unary(o.0, e.operation, TypeOf(o.0)), o.1))
  }

  /**
   * A binary operator: the operands must have one type or the left must
   * convert to the right, and the result has the left operand's type.
   */
  function ResolveBinary(b: Builder, e: Syntax.Expression, rules: Rules, fuel: nat): (r: Outcome<ResolvedExpression>)
    requires b.Valid() && e.BinaryExpression?
    ensures r.Ok? ==> Evolves(b, r.value.1)
    decreases fuel, e, 2, 0
  {
    var l :- ResolveExpression(b, e.lhs, rules, fuel);
    var o :- ResolveExpression(l.1, e.rhs, rules, fuel);
    var lt := TypeOf(l.0);
    var rt := TypeOf(o.0);
    if lt != rt && !rules.canConvert(lt, rt) then Err(OperandsDifferentDatatypes(e.lhs, e.rhs))
    else Ok((BinaryExpression(l.0, o.0, e.op, lt), o.1))
  }

  // ---------------------------------------------------------------------
  // Assignments (src/scope_builder.rs:708-859)
  // ---------------------------------------------------------------------

  /**
   * The store `*address = value` resolves to.  In the source the address
   * slot receives the resolved value (src/scope_builder.rs:747-751); this
   * is the evidently intended node, with the resolved address in it.
   */
  function PtrStore(value: ResolvedExpression, address: ResolvedExpression, base: DataType): (a: ResolvedAssignment)
    ensures a.PtrAssignment? && a.value == value && a.address == address
    ensures AssignmentType(a) == base
  {
    PtrAssignment(base, value, address)
  }

  /** The store as src/scope_builder.rs:747-751 builds it: the value twice. */
  function PtrStoreAsWritten(value: ResolvedExpression, address: ResolvedExpression, base: DataType): ResolvedAssignment {
    PtrAssignment(base, value, value)
  }

  /**
   * A store into field `name` of struct `x` (both arms of the field
   * assignment visitor do the same): the field must exist and the value's
   * type must be its type or convert to it.
   */
  function FieldStore(
    c: Builder, x: Struct, name: string, value: Syntax.Expression, address: Syntax.Expression,
    resolvedValue: ResolvedExpression, resolvedAddress: ResolvedExpression, rules: Rules): (r: Outcome<ResolvedAssignment>)
    ensures r.Ok? ==> r.value.1 == c
  {
    match Field(x, name)
    case Some(t) =>
      if t != TypeOf(resolvedValue) && !rules.canConvert(TypeOf(resolvedValue), t) then Err(CannotAssign(value, address))
      else Ok((FieldAssignment(rules.fieldOffset(x, name), t, resolvedValue, resolvedAddress), c))
    case None => Err(UnknownField(address, name))
  }

  /** The assignment visitor. */
  function ResolveAssignment(b: Builder, a: Syntax.Assignment, rules: Rules, fuel: nat): (r: Outcome<ResolvedAssignment>)
    requires b.Valid()
    ensures r.Ok? ==> Evolves(b, r.value.1)
    decreases fuel, a, 3, 0
  {
    match a
    case VariableAssignment(name, x) =>
      (match b.GetVariable(name)
       case Some(v) =>
         var o :- ResolveExpression(b, x, rules, fuel);
         if TypeOf(o.0) != v.dataType && !rules.canConvert(TypeOf(o.0), v.dataType) then Err(CannotAssignVariable(x, name, v))
         else Ok((StackAssignment(v, o.0), o.1))
       case None => Err(UnknownVariable(name)))
    case PtrAssignment(value, address) =>
      var ad :- ResolveExpression(b, address, rules, fuel);
      var va :- ResolveExpression(ad.1, value, rules, fuel);
      (match TypeOf(ad.0)
       case PTR(base) =>
         if base != TypeOf(va.0) && !rules.canConvert(TypeOf(va.0), base) then Err(CannotAssign(value, address))
         else Ok((PtrStore(va.0, ad.0, base), va.1))
       case _ => Err(DerefOfNonPointer(address)))
    case ArrayAssignment(index, value, address) =>
      var ix :- ResolveExpression(b, index, rules, fuel);
      if !IsNumber(TypeOf(ix.0)) then Err(ArrayIndexNotANumber(index))
      else
        var va :- ResolveExpression(ix.1, value, rules, fuel);
        var ad :- ResolveExpression(va.1, address, rules, fuel);
        (match TypeOf(ad.0)
         case PTR(base) =>
           if base != TypeOf(va.0) && !rules.canConvert(TypeOf(va.0), base) then Err(CannotAssign(value, address))
           else Ok((ArrayAssignment(base, ix.0, va.0, ad.0), ad.1))
         case _ => Err(DerefOfNonPointer(address)))
    case FieldAssignment(name, value, address) =>
      var ad :- ResolveExpression(b, address, rules, fuel);
      var va :- ResolveExpression(ad.1, value, rules, fuel);
      (match TypeOf(ad.0)
       case STRUCT(x) => FieldStore(va.1, x, name, value, address, va.0, ad.0, rules)
       case PTR(p) =>
         if p.STRUCT? then FieldStore(va.1, p.s, name, value, address, va.0, ad.0, rules)
         else Err(AccessNonStruct(address))
       case _ => Err(AccessNonStruct(address)))
  }

  // ---------------------------------------------------------------------
  // Literals and calls (src/scope_builder.rs:861-983)
  // ---------------------------------------------------------------------

  /**
   * The struct-literal visitor: the fields resolve last to first, each is
   * stored in a new slot above the stack offset, and the literal's type is
   * the struct of the fields' names and types in source order.
   */
  function ResolveStructLiteral(b: Builder, e: Syntax.Expression, rules: Rules, fuel: nat): (r: Outcome<ResolvedStructExpression>)
    requires b.Valid() && e.StructLiteral?
    ensures r.Ok? ==> Evolves(b, r.value.1)
    decreases fuel, e, 2, 0
  {
    var o :- ResolveLiteralFields(b, e, |e.literal.fields|, rules, fuel);
    Ok((ResolvedStructExpression(o.0.0, STRUCT(NewStruct(o.0.1)), o.1.stackOffset), o.1))
  }

  /**
   * The first `n` fields of a struct literal, the `n`-th first: the stores
   * in the order they were made and the fields' names and types in source
   * order.
   */
  function ResolveLiteralFields(b: Builder, e: Syntax.Expression, n: nat, rules: Rules, fuel: nat): (r: Outcome<(seq<ResolvedAssignment>, seq<(string, DataType)>)>)
    requires b.Valid() && e.StructLiteral? && n <= |e.literal.fields|
    ensures r.Ok? ==> Evolves(b, r.value.1) && |r.value.0.0| == n && |r.value.0.1| == n
    decreases fuel, e, 1, n
  {
    if n == 0 then Ok((([], []), b))
    else
      var name := e.literal.fields[n - 1].0;
      var o :- ResolveExpression(b, e.literal.fields[n - 1].1, rules, fuel);
      var t := TypeOf(o.0);
      var offset := o.1.stackOffset + Size(t);
      var rest :- ResolveLiteralFields(o.1.(stackOffset := offset), e, n - 1, rules, fuel);
      Ok((([StackAssignment(Variable(offset, t), o.0)] + rest.0.0, rest.0.1 + [(name, t)]), rest.1))
  }

  /**
   * The array-expression visitor.  A string literal takes the next string
   * label.  A brace list must not be empty; its first element resolves once
   * for the element type, and then every element, the first again among
   * them, resolves last to first into a new slot and must have that type.
   */
  function ResolveArray(b: Builder, e: Syntax.Expression, rules: Rules, fuel: nat): (r: Outcome<ResolvedArrayExpression>)
    requires b.Valid() && e.Array?
    ensures r.Ok? ==> Evolves(b, r.value.1)
    decreases fuel, e, 2, 0
  {
    match e.elements
    case StringLiteral(text) =>
      var l := b.GetStringLabel();
      Ok((StringLiteral(text, PTR(CHAR), l.0), l.1))
    case StackArray(expressions) =>
      if expressions == [] then Err(EmptyArray)
      else
        var first :- ResolveExpression(b, expressions[0], rules, fuel);
        var items :- ResolveElements(first.1, e, TypeOf(first.0), |expressions|, rules, fuel);
        Ok((StackArray(items.0, PTR(TypeOf(first.0)), items.1.stackOffset), items.1))
  }

  /** The first `n` elements of a brace list, the `n`-th first, each of type `elementType`. */
  function ResolveElements(b: Builder, e: Syntax.Expression, elementType: DataType, n: nat, rules: Rules, fuel: nat): (r: Outcome<seq<ResolvedAssignment>>)
    requires b.Valid() && e.Array? && e.elements.StackArray? && n <= |e.elements.expressions|
    ensures r.Ok? ==> Evolves(b, r.value.1) && |r.value.0| == n
    decreases fuel, e, 1, n
  {
    if n == 0 then Ok(([], b))
    else
      var o :- ResolveExpression(b, e.elements.expressions[n - 1], rules, fuel);
      var t := TypeOf(o.0);
      var offset := o.1.stackOffset + Size(t);
      if t != elementType then Err(ArrayOfDifferentTypes)
      else
        var rest :- ResolveElements(o.1.(stackOffset := offset), e, elementType, n - 1, rules, fuel);
        Ok(([StackAssignment(Variable(offset, t), o.0)] + rest.0, rest.1))
  }

  /**
   * The call visitor: the callee must be bound and take as many parameters
   * as the call passes.  Each declared parameter type resolves again, then
   * the argument, which must have that type or convert to it; last the
   * declared return type resolves.  The callee's declared types are not part
   * of the call, so resolving them spends one unit of `fuel`: a parameter
   * type that calls its own function (`typeof(f(0))` in `f`'s parameter
   * list) resolves that call again without end, and answers `Overflow` here.
   */
  function ResolveCall(b: Builder, e: Syntax.Expression, rules: Rules, fuel: nat): (r: Outcome<ResolvedFunctionCall>)
    requires b.Valid() && e.Call?
    ensures r.Ok? ==> Evolves(b, r.value.1)
    decreases fuel, e, 2, 0
  {
    var call := e.call;
    match b.GetFunction(call.name)
    case None => Err(UnknownFunction(call.name))
    case Some(f) =>
      if |f.parameter| != |call.parameter| then Err(ParameterCountMismatch(call.name, |f.parameter|, |call.parameter|))
      else if fuel == 0 then Err(Overflow)
      else
        var arguments :- ResolveArguments(b, e, f, 0, rules, fuel);
        var returned :- ResolveType(arguments.1, f.returnType, rules, fuel - 1);
        Ok((ResolvedFunctionCall(call.name, arguments.0, returned.0), returned.1))
  }

  /** The arguments of a call from the `i`-th on, paired with the callee's parameters. */
  function ResolveArguments(b: Builder, e: Syntax.Expression, f: Syntax.Function, i: nat, rules: Rules, fuel: nat): (r: Outcome<seq<ResolvedExpression>>)
    requires b.Valid() && e.Call? && |f.parameter| == |e.call.parameter| && i <= |f.parameter| && fuel > 0
    ensures r.Ok? ==> Evolves(b, r.value.1) && |r.value.0| == |f.parameter| - i
    decreases fuel, e, 1, |f.parameter| - i
  {
    if i == |f.parameter| then Ok(([], b))
    else
      var expected :- ResolveType(b, f.parameter[i].0, rules, fuel - 1);
      var found :- ResolveExpression(expected.1, e.call.parameter[i], rules, fuel);
      if expected.0 != TypeOf(found.0) && !rules.canConvert(TypeOf(found.0), expected.0) then
        Err(ParameterTypeMismatch(e.call.name, expected.0, TypeOf(found.0), f.parameter[i].1))
      else
        var rest :- ResolveArguments(found.1, e, f, i + 1, rules, fuel);
        Ok(([found.0] + rest.0, rest.1))
  }

  // ---------------------------------------------------------------------
  // Statements (src/scope_builder.rs:258-471)
  // ---------------------------------------------------------------------

  /** The statement visitor. */
  function ResolveStatement(b: Builder, s: Syntax.Statement, rules: Rules, fuel: nat): (r: Outcome<ResolvedStatement>)
    requires b.Valid()
    ensures r.Ok? ==> Evolves(b, r.value.1)
    decreases s, 3, 0
  {
    match s
    case Return(_) => ResolveReturn(b, s, rules, fuel)
    case SingleExpression(x) =>
      (match ResolveExpression(b, x, rules, fuel)
       case Ok((y, c)) => Ok((SingleExpression(y), c))
       case Err(err) => Err(err))
    case Block(k) =>
      (match ResolveCompound(b, k, rules, fuel)
       case Ok((y, c)) => Ok((Compound(y), c))
       case Err(err) => Err(err))
    case If(i) =>
      (match ResolveIf(b, i, rules, fuel)
       case Ok((y, c)) => Ok((IfStatement(y), c))
       case Err(err) => Err(err))
    case For(f) =>
      (match ResolveFor(b, f, rules, fuel)
       case Ok((y, c)) => Ok((ForStatement(y), c))
       case Err(err) => Err(err))
    case While(w) =>
      (match ResolveWhile(b, w, rules, fuel)
       case Ok((y, c)) => Ok((WhileStatement(y), c))
       case Err(err) => Err(err))
    case Typedef(d) =>
      (match ResolveTypeDefinition(b, d, rules, fuel)
       case Ok((_, c)) => Ok((Empty, c))
       case Err(err) => Err(err))
    case VariableDeclaration(_, _, _) => ResolveDeclaration(b, s, rules, fuel)
    case Continue =>
      if b.loopLabels == [] then Err(ContinueNotInLoop)
      else Ok((Continue(b.loopLabels[|b.loopLabels| - 1]), b.(loopLabels := Below(b.loopLabels))))
    case Break =>
      if b.loopLabels == [] then Err(BreakNotInLoop)
      else Ok((Break(b.loopLabels[|b.loopLabels| - 1]), b.(loopLabels := Below(b.loopLabels))))
    case Empty => Ok((Empty, b))
  }

  /**
   * `return`: outside a function it is an error; with a value, the value's
   * type must be the function's return type exactly, and without one the
   * function must return `void`.
   */
  function ResolveReturn(b: Builder, s: Syntax.Statement, rules: Rules, fuel: nat): (r: Outcome<ResolvedStatement>)
    requires b.Valid() && s.Return?
    ensures r.Ok? ==> Evolves(b, r.value.1)
    decreases s, 2, 0
  {
    match s.value
    case Some(x) =>
      var o :- ResolveExpression(b, x, rules, fuel);
      (match o.1.currentFunction
       case Some(f) =>
         if f == TypeOf(o.0) then Ok((Return(Some(o.0)), o.1))
         else Err(ReturnTypeIncorrect(f, TypeOf(o.0)))
       case None => Err(ReturnWithoutFunction))
    case None =>
      (match b.currentFunction
       case Some(f) =>
         if f == VOID then Ok((Return(None), b))
         else Err(ReturnTypeIncorrect(f, VOID))
       case None => Err(ReturnWithoutFunction))
  }

  /**
   * A variable declaration: the name must be unbound in every frame, a
   * function must be active and the type must have a size.  The variable
   * is bound before its initialiser resolves, and the initialiser's type
   * must be the declared type exactly.  The resolved initialiser is kept
   * as an assignment expression.
   */
  function ResolveDeclaration(b: Builder, s: Syntax.Statement, rules: Rules, fuel: nat): (r: Outcome<ResolvedStatement>)
    requires b.Valid() && s.VariableDeclaration?
    ensures r.Ok? ==> Evolves(b, r.value.1)
    decreases s, 2, 0
  {
    match b.GetVariable(s.name)
    case Some(_) => Err(VariableRedefinition(s.name))
    case None =>
      if b.currentFunction.None? then Err(VariableDeclarationOutsideOfFunction(s.name))
      else
        var t :- ResolveType(b, s.typeExpression, rules, fuel);
        if Size(t.0) == 0 then Err(VariableOfUnknownSize(s.name, t.0))
        else
          var slot := t.1.PushVariable(s.name, t.0);
          match s.assignment
          case Some(a) =>
            var o :- ResolveAssignment(slot.1, a, rules, fuel);
            if AssignmentType(o.0) != t.0 then Err(VariableInitWrong(t.0, AssignmentType(o.0), s.name))
            else Ok((VariableDeclaration(slot.0, Some(Assignment(o.0))), o.1))
          case None => Ok((VariableDeclaration(slot.0, None), slot.1))
  }

  /** `typedef`: the name is bound to the resolved type in the top frame. */
  function ResolveTypeDefinition(b: Builder, d: Syntax.TypeDefinition, rules: Rules, fuel: nat): (r: Outcome<DataType>)
    requires b.Valid()
    ensures r.Ok? ==> Evolves(b, r.value.1)
    decreases d, 2, 0
  {
    var o :- ResolveType(b, d.expression, rules, fuel);
    Ok((o.0, o.1.PushType(d.name, o.0)))
  }

  /**
   * A `while` loop: a new label is pushed for the loop, and after the body
   * the top label is popped, whatever the body left there.
   */
  function ResolveWhile(b: Builder, w: Syntax.WhileStatement, rules: Rules, fuel: nat): (r: Outcome<ResolvedWhileStatement>)
    requires b.Valid()
    ensures r.Ok? ==> Evolves(b, r.value.1)
    ensures r.Ok? ==> r.value.0.labelIndex == b.labelIndex + 1 <= r.value.1.labelIndex
    decreases w, 2, 0
  {
    var l := b.NextLabelIndex();
    var inLoop := l.1.(loopLabels := l.1.loopLabels + [l.0]);
    var condition :- ResolveExpression(inLoop, w.condition, rules, fuel);
    var body :- ResolveCompound(condition.1, w.body, rules, fuel);
    BelowPrefix(body.1.loopLabels, b.loopLabels, l.0);
    Ok((ResolvedWhileStatement(condition.0, body.0, l.0), body.1.(loopLabels := Below(body.1.loopLabels))))
  }

  /**
   * A `for` loop: a frame for the header's declarations, a new label, then
   * the header and the body in order; the label and the frame go at the end.
   */
  function ResolveFor(b: Builder, f: Syntax.ForStatement, rules: Rules, fuel: nat): (r: Outcome<ResolvedForStatement>)
    requires b.Valid()
    ensures r.Ok? ==> Evolves(b, r.value.1)
    ensures r.Ok? ==> r.value.0.labelIndex == b.labelIndex + 1 <= r.value.1.labelIndex
    ensures r.Ok? ==>
      && r.value.1.scope.types == b.scope.types
      && r.value.1.scope.variables == b.scope.variables
      && r.value.1.stackOffset == b.stackOffset
    decreases f, 2, 0
  {
    var pushed := b.Push();
    var l := pushed.NextLabelIndex();
    var inLoop := l.1.(loopLabels := l.1.loopLabels + [l.0]);
    var init :- ResolveStatement(inLoop, f.init, rules, fuel);
    var condition :- ResolveExpression(init.1, f.condition, rules, fuel);
    var post :- ResolvePost(condition.1, f.post, rules, fuel);
    var body :- ResolveCompound(post.1, f.body, rules, fuel);
    BelowPrefix(body.1.loopLabels, b.loopLabels, l.0);
    var left := body.1.(loopLabels := Below(body.1.loopLabels));
    Ok((ResolvedForStatement(init.0, condition.0, post.0, body.0, l.0), left.Pop()))
  }

  /** The optional step expression of a `for` header. */
  function ResolvePost(b: Builder, post: Option<Syntax.Expression>, rules: Rules, fuel: nat): (r: Outcome<Option<ResolvedExpression>>)
    requires b.Valid()
    ensures r.Ok? ==> Evolves(b, r.value.1)
  {
    match post
    case Some(x) =>
      var o :- ResolveExpression(b, x, rules, fuel);
      Ok((Some(o.0), o.1))
    case None => Ok((None, b))
  }

  /** An `if` statement: condition, then branch, then the else part. */
  function ResolveIf(b: Builder, i: Syntax.IfStatement, rules: Rules, fuel: nat): (r: Outcome<ResolvedIfStatement>)
    requires b.Valid()
    ensures r.Ok? ==> Evolves(b, r.value.1)
    decreases i, 2, 0
  {
    var condition :- ResolveExpression(b, i.condition, rules, fuel);
    var statements :- ResolveCompound(condition.1, i.statements, rules, fuel);
    match i.elsePart
    case ElseIf(nested) =>
      var o :- ResolveIf(statements.1, nested, rules, fuel);
      Ok((ResolvedIfStatement(statements.0, condition.0, ElseIf(o.0)), o.1))
    case ElseCompound(c) =>
      var o :- ResolveCompound(statements.1, c, rules, fuel);
      Ok((ResolvedIfStatement(statements.0, condition.0, ElseCompound(o.0)), o.1))
    case NoElse => Ok((ResolvedIfStatement(statements.0, condition.0, NoElse), statements.1))
  }

  /**
   * A block: it runs in a frame of its own, so the types, variables and
   * stack offset it leaves behind are those it found.  A block of exactly
   * one statement must not be a declaration.
   */
  function ResolveCompound(b: Builder, c: Syntax.Compound, rules: Rules, fuel: nat): (r: Outcome<ResolvedCompound>)
    requires b.Valid()
    ensures r.Ok? ==> Evolves(b, r.value.1)
    ensures r.Ok? ==>
      && r.value.1.scope.types == b.scope.types
      && r.value.1.scope.variables == b.scope.variables
      && r.value.1.stackOffset == b.stackOffset
    decreases c, 2, 0
  {
    var pushed := b.Push();
    if |c.statements| == 1 && c.statements[0].VariableDeclaration? then
      Err(SingleStatementMayNotBeDeclaration(c.statements[0].name))
    else
      var o :- ResolveStatements(pushed, c, 0, rules, fuel);
      assert o.1.stackScope == b.stackScope + [b.stackOffset];
      Ok((ResolvedCompound(o.0), o.1.Pop()))
  }

  /** The statements of a block from the `i`-th on, in order. */
  function ResolveStatements(b: Builder, c: Syntax.Compound, i: nat, rules: Rules, fuel: nat): (r: Outcome<seq<ResolvedStatement>>)
    requires b.Valid() && i <= |c.statements|
    ensures r.Ok? ==> Evolves(b, r.value.1) && |r.value.0| == |c.statements| - i
    decreases c, 1, |c.statements| - i
  {
    if i == |c.statements| then Ok(([], b))
    else
      var o :- ResolveStatement(b, c.statements[i], rules, fuel);
      var rest :- ResolveStatements(o.1, c, i + 1, rules, fuel);
      Ok(([o.0] + rest.0, rest.1))
  }

  // ---------------------------------------------------------------------
  // Functions and the program (src/scope_builder.rs:184-256)
  // ---------------------------------------------------------------------

  /**
   * A second declaration of a bound function: it must be the definition of
   * a prototype or the other way round, with the same return type and the
   * same parameter types.
   */
  function CheckAgainstDeclaration(b: Builder, f: Syntax.Function, returnType: DataType, rules: Rules, fuel: nat): (r: Outcome<()>)
    requires b.Valid()
    ensures r.Ok? ==> Evolves(b, r.value.1)
  {
    match b.GetFunction(f.name)
    case None => Ok(((), b))
    case Some(x) =>
      if x.statements.Some? == f.statements.Some? then Err(RedeclarationOfFunction(f.name))
      else
        var defined :- ResolveType(b, x.returnType, rules, fuel);
        if defined.0 != returnType then Err(FunctionDefinitionNotSameAsDeclaration(x.name))
        else if |x.parameter| != |f.parameter| then Err(FunctionDefinitionNotSameAsDeclaration(x.name))
        else ParametersAgree(defined.1, x, f, 0, rules, fuel)
  }

  /** The parameter types of the earlier declaration `x` and of `f` from the `i`-th on, pairwise equal. */
  function ParametersAgree(b: Builder, x: Syntax.Function, f: Syntax.Function, i: nat, rules: Rules, fuel: nat): (r: Outcome<()>)
    requires b.Valid() && |x.parameter| == |f.parameter| && i <= |f.parameter|
    ensures r.Ok? ==> Evolves(b, r.value.1)
    decreases |f.parameter| - i
  {
    if i == |f.parameter| then Ok(((), b))
    else
      var expected :- ResolveType(b, x.parameter[i].0, rules, fuel);
      var found :- ResolveType(expected.1, f.parameter[i].0, rules, fuel);
      if expected.0 != found.0 then Err(FunctionDefinitionNotSameAsDeclaration(x.name))
      else ParametersAgree(found.1, x, f, i + 1, rules, fuel)
  }

  /** The parameters of `f` from the `i`-th on, each resolved and bound to a new slot in order. */
  function ResolveParameters(b: Builder, f: Syntax.Function, i: nat, rules: Rules, fuel: nat): (r: Outcome<seq<(DataType, string)>>)
    requires b.Valid() && i <= |f.parameter|
    ensures r.Ok? ==> Evolves(b, r.value.1) && |r.value.0| == |f.parameter| - i
    decreases |f.parameter| - i
  {
    if i == |f.parameter| then Ok(([], b))
    else
      var t :- ResolveType(b, f.parameter[i].0, rules, fuel);
      var slot := t.1.PushVariable(f.parameter[i].1, t.0);
      var rest :- ResolveParameters(slot.1, f, i + 1, rules, fuel);
      Ok(([(t.0, f.parameter[i].1)] + rest.0, rest.1))
  }

  /** A function's body, when it has one. */
  function ResolveBody(b: Builder, statements: Option<Syntax.Compound>, rules: Rules, fuel: nat): (r: Outcome<Option<ResolvedCompound>>)
    requires b.Valid()
    ensures r.Ok? ==> Evolves(b, r.value.1)
  {
    match statements
    case Some(c) =>
      var o :- ResolveCompound(b, c, rules, fuel);
      Ok((Some(o.0), o.1))
    case None => Ok((None, b))
  }

  /** Entering a function: it is bound, becomes current, and a frame opens. */
  function Enter(b: Builder, f: Syntax.Function, returnType: DataType): (r: Builder)
    requires b.Valid()
    ensures r.Valid() && |r.scope.types| == |b.scope.types| + 1 && |r.scope.variables| == |b.scope.variables| + 1
    ensures Below(r.stackScope) == b.stackScope && r.currentFunction == Some(returnType)
    ensures r.GetFunction(f.name) == Some(f)
  {
    var r := b.PushFunction(f.name, f).(currentFunction := Some(returnType)).Push();
    assert r.stackScope[..|r.stackScope| - 1] == b.stackScope;
    BindShadows(b.scope.functions, f.name, f, f.name);
    EmptyFrameHidesNothing(Bind(b.scope.functions, f.name, f), f.name);
    r
  }

  /** Leaving a function: the frame `Enter` opened closes. */
  function Leave(entered: Builder, c: Builder): (r: Builder)
    requires entered.Valid() && |entered.scope.types| >= 2 && |entered.scope.variables| >= 2 && entered.stackScope != []
    requires Evolves(entered, c)
    ensures r.Valid() && r.stackScope == Below(entered.stackScope) && r.currentFunction == entered.currentFunction
    ensures r.frameSize >= c.stackOffset && r.frameSize >= c.frameSize
  {
    c.Pop()
  }

  /**
   * The function visitor.  The stack offset and the frame size start again
   * from 0; the function is bound before its parameters resolve, becomes the
   * current function (and stays current after it), and its parameters and
   * body run in a frame of their own.  The frame size it reports is the
   * deepest offset reached.
   */
  function ResolveFunction(b: Builder, f: Syntax.Function, rules: Rules, fuel: nat): (r: Outcome<ResolvedFunction>)
    requires b.Valid()
    ensures r.Ok? ==> r.value.1.Valid() && r.value.1.stackScope == b.stackScope && r.value.1.currentFunction.Some?
    ensures r.Ok? ==> r.value.0.frameSize == r.value.1.frameSize && r.value.0.name == f.name
  {
    var start := b.(stackOffset := 0, frameSize := 0);
    var returned :- ResolveType(start, f.returnType, rules, fuel);
    var checked :- CheckAgainstDeclaration(returned.1, f, returned.0, rules, fuel);
    var entered := Enter(checked.1, f, returned.0);
    var parameters :- ResolveParameters(entered, f, 0, rules, fuel);
    var body :- ResolveBody(parameters.1, f.statements, rules, fuel);
    var left := Leave(entered, body.1);
    Ok((ResolvedFunction(f.name, body.0, parameters.0, left.frameSize), left))
  }

  /**
   * The program visitor: declarations in order; a statement's result is
   * dropped, a function's is kept.
   */
  function ResolveDeclarations(b: Builder, p: Syntax.Program, i: nat, rules: Rules, fuel: nat): (r: Outcome<seq<ResolvedFunction>>)
    requires b.Valid() && i <= |p.declarations|
    ensures r.Ok? ==> r.value.1.Valid()
    decreases |p.declarations| - i
  {
    if i == |p.declarations| then Ok(([], b))
    else
      match p.declarations[i]
      case StatementDeclaration(s) =>
        var o :- ResolveStatement(b, s, rules, fuel);
        ResolveDeclarations(o.1, p, i + 1, rules, fuel)
      case FunctionDeclaration(f) =>
        var o :- ResolveFunction(b, f, rules, fuel);
        var rest :- ResolveDeclarations(o.1, p, i + 1, rules, fuel);
        Ok(([o.0] + rest.0, rest.1))
  }

  /** A whole program from a new builder: the resolved functions in order. */
  function Resolve(p: Syntax.Program, rules: Rules, fuel: nat): Result<ResolvedProgram, ResolveError> {
    var o :- ResolveDeclarations(InitialBuilder, p, 0, rules, fuel);
    Ok(ResolvedProgram(o.0))
  }
}
