/**
 * What the scope builder's visitors promise, stated over the model in
 * resolver.dfy: the declaration and block checks, the loop labels that
 * `break` and `continue` take, the return checks, the call checks, the
 * struct forward declarations and the layout a function gets.
 */
module ResolverProperties {
  import opened Util
  import Tokens
  import Syntax
  import opened ResolvedTypes
  import opened Scopes
  import opened Resolver

  // ---------------------------------------------------------------------
  // Declarations (src/scope_builder.rs:308-347)
  // ---------------------------------------------------------------------

  /**
   * A declaration is rejected when its name is bound in any frame, when no
   * function is active, and when its type has size 0; the checks run in
   * that order.
   */
  lemma DeclarationRejections(b: Builder, name: string, t: Syntax.TypeExpression, a: Option<Syntax.Assignment>, rules: Rules, fuel: nat)
    requires b.Valid()
    ensures b.GetVariable(name).Some? ==>
      ResolveStatement(b, Syntax.VariableDeclaration(name, t, a), rules, fuel) == Err(VariableRedefinition(name))
    ensures b.GetVariable(name).None? && b.currentFunction.None? ==>
      ResolveStatement(b, Syntax.VariableDeclaration(name, t, a), rules, fuel) == Err(VariableDeclarationOutsideOfFunction(name))
    ensures b.GetVariable(name).None? && b.currentFunction.Some? && ResolveType(b, t, rules, fuel).Ok? && Size(ResolveType(b, t, rules, fuel).value.0) == 0 ==>
      ResolveStatement(b, Syntax.VariableDeclaration(name, t, a), rules, fuel) == Err(VariableOfUnknownSize(name, ResolveType(b, t, rules, fuel).value.0))
  {
  }

  /**
   * A declaration that resolves without an initialiser binds its name, in
   * the top frame, to a slot that ends at the new stack offset and whose
   * type has a size: the offset grew by that size.
   */
  lemma DeclarationBindsSlot(b: Builder, name: string, t: Syntax.TypeExpression, rules: Rules, fuel: nat)
    requires b.Valid()
    requires ResolveStatement(b, Syntax.VariableDeclaration(name, t, None), rules, fuel).Ok?
    ensures var (s, c) := ResolveStatement(b, Syntax.VariableDeclaration(name, t, None), rules, fuel).value;
      && b.GetVariable(name).None?
      && s == VariableDeclaration(c.stackOffset, None)
      && c.GetVariable(name).Some?
      && c.GetVariable(name).value.stackOffset == c.stackOffset
      && Size(c.GetVariable(name).value.dataType) > 0
      && c.stackOffset == ResolveType(b, t, rules, fuel).value.1.stackOffset + Size(c.GetVariable(name).value.dataType)
  {
    var o := ResolveType(b, t, rules, fuel).value;
    PushVariableSlot(o.1, name, o.0);
  }

  /** A block of exactly one statement that is a declaration is rejected, whatever the declaration. */
  lemma SingleDeclarationBlock(b: Builder, name: string, t: Syntax.TypeExpression, a: Option<Syntax.Assignment>, rules: Rules, fuel: nat)
    requires b.Valid()
    ensures ResolveStatement(b, Syntax.Block(Syntax.Compound([Syntax.VariableDeclaration(name, t, a)])), rules, fuel)
      == Err(SingleStatementMayNotBeDeclaration(name))
  {
    assert ResolveCompound(b, Syntax.Compound([Syntax.VariableDeclaration(name, t, a)]), rules, fuel)
      == Err(SingleStatementMayNotBeDeclaration(name));
  }

  /**
   * A name declared inside a block is gone after it: the block leaves the
   * lookup of every type and variable as it found it, and the stack offset.
   */
  lemma BlockScoping(b: Builder, c: Syntax.Compound, rules: Rules, fuel: nat, name: string)
    requires b.Valid() && ResolveCompound(b, c, rules, fuel).Ok?
    ensures ResolveCompound(b, c, rules, fuel).value.1.GetVariable(name) == b.GetVariable(name)
    ensures ResolveCompound(b, c, rules, fuel).value.1.GetType(name) == b.GetType(name)
    ensures ResolveCompound(b, c, rules, fuel).value.1.stackOffset == b.stackOffset
  {
  }

  // ---------------------------------------------------------------------
  // Loop labels (src/scope_builder.rs:348-361, 375-429)
  // ---------------------------------------------------------------------

  const One := Syntax.IntLiteral(1)

  /** `while (1) { break; break; }` */
  const TwoBreaks := Syntax.While(Syntax.WhileStatement(One, Syntax.Compound([Syntax.Break, Syntax.Break])))

  /** `while (1) { while (1) { break; } break; }` */
  const BreakAfterInnerLoop :=
    Syntax.WhileStatement(One, Syntax.Compound([
      Syntax.While(Syntax.WhileStatement(One, Syntax.Compound([Syntax.Break]))),
      Syntax.Break]))

  /** `break` and `continue` with no loop label left are rejected. */
  lemma LoopControlOutsideLoop(b: Builder, rules: Rules, fuel: nat)
    requires b.Valid() && b.loopLabels == []
    ensures ResolveStatement(b, Syntax.Break, rules, fuel) == Err(BreakNotInLoop)
    ensures ResolveStatement(b, Syntax.Continue, rules, fuel) == Err(ContinueNotInLoop)
  {
  }

  /**
   * `break` and `continue` take the innermost label and remove it, so the
   * next one takes the label below.
   */
  lemma LoopControlPops(b: Builder, rules: Rules, fuel: nat, s: Syntax.Statement)
    requires b.Valid() && b.loopLabels != [] && (s == Syntax.Break || s == Syntax.Continue)
    ensures ResolveStatement(b, s, rules, fuel).Ok?
    ensures ResolveStatement(b, s, rules, fuel).value.1 == b.(loopLabels := Below(b.loopLabels))
    ensures var top := b.loopLabels[|b.loopLabels| - 1];
      ResolveStatement(b, s, rules, fuel).value.0 == (if s == Syntax.Break then Break(top) else Continue(top))
  {
  }

  /**
   * Inside a loop nested in one other loop, the first `break` takes the
   * inner loop's label and the second the outer loop's label; the inner
   * loop then pops the last label, the outer one's.
   */
  lemma SecondBreakTakesEnclosingLabel(b: Builder, rules: Rules, fuel: nat)
    requires b.Valid() && |b.loopLabels| == 1
    ensures ResolveStatement(b, TwoBreaks, rules, fuel).Ok?
    ensures var (s, c) := ResolveStatement(b, TwoBreaks, rules, fuel).value;
      && s == WhileStatement(ResolvedWhileStatement(IntLiteral(1), ResolvedCompound([Break(b.labelIndex + 1), Break(b.loopLabels[0])]), b.labelIndex + 1))
      && c.loopLabels == []
  {
    var l := b.labelIndex + 1;
    var inLoop := b.(labelIndex := l, loopLabels := b.loopLabels + [l]);
    var pushed := inLoop.Push();
    var body := Syntax.Compound([Syntax.Break, Syntax.Break]);
    var once := pushed.(loopLabels := b.loopLabels);
    var twice := pushed.(loopLabels := []);
    assert Below(pushed.loopLabels) == b.loopLabels;
    assert ResolveStatement(pushed, Syntax.Break, rules, fuel) == Ok((Break(l), once));
    assert ResolveStatement(once, Syntax.Break, rules, fuel) == Ok((Break(b.loopLabels[0]), twice));
    assert ResolveStatements(twice, body, 2, rules, fuel) == Ok(([], twice));
    assert body.statements[0] == body.statements[1] == Syntax.Break;
    var x := ResolveStatements(once, body, 1, rules, fuel);
    assert x.Ok? && x.value.1 == twice && x.value.0 == [Break(b.loopLabels[0])];
    var y := ResolveStatements(pushed, body, 0, rules, fuel);
    assert y.Ok? && y.value.1 == twice && y.value.0 == [Break(l), Break(b.loopLabels[0])];
  }

  /**
   * A `break` after an inner loop in a loop that is not itself nested is
   * rejected: the inner loop's `break` took its label and the inner loop's
   * end then took the outer loop's.
   */
  lemma BreakAfterInnerLoopFails(b: Builder, rules: Rules, fuel: nat)
    requires b.Valid() && b.loopLabels == []
    ensures ResolveWhile(b, BreakAfterInnerLoop, rules, fuel) == Err(BreakNotInLoop)
  {
    var outer := b.NextLabelIndex().1.(loopLabels := b.loopLabels + [b.labelIndex + 1]);
    OuterBodyFails(outer.Push(), rules, fuel);
    assert ResolveCompound(outer, BreakAfterInnerLoop.body, rules, fuel) == Err(BreakNotInLoop);
    assert ResolveExpression(outer, BreakAfterInnerLoop.condition, rules, fuel) == Ok((IntLiteral(1), outer));
    WhileBodyFails(b, BreakAfterInnerLoop, rules, fuel, outer, BreakNotInLoop);
  }

  /** A loop whose condition resolves to itself fails with its body's error. */
  lemma WhileBodyFails(b: Builder, w: Syntax.WhileStatement, rules: Rules, fuel: nat, inLoop: Builder, e: ResolveError)
    requires b.Valid()
    requires inLoop == b.NextLabelIndex().1.(loopLabels := b.loopLabels + [b.labelIndex + 1])
    requires ResolveExpression(inLoop, w.condition, rules, fuel) == Ok((IntLiteral(1), inLoop))
    requires ResolveCompound(inLoop, w.body, rules, fuel) == Err(e)
    ensures ResolveWhile(b, w, rules, fuel) == Err(e)
  {
  }

  /** The body of the outer loop, in that loop's frame. */
  lemma OuterBodyFails(pushed: Builder, rules: Rules, fuel: nat)
    requires pushed.Valid() && |pushed.loopLabels| == 1
    ensures ResolveStatements(pushed, BreakAfterInnerLoop.body, 0, rules, fuel) == Err(BreakNotInLoop)
  {
    var inner := Syntax.WhileStatement(One, Syntax.Compound([Syntax.Break]));
    var body := BreakAfterInnerLoop.body;
    InnerLoopTakesLastLabel(pushed, rules, fuel);
    var o := ResolveWhile(pushed, inner, rules, fuel);
    assert body.statements[0] == Syntax.While(inner) && body.statements[1] == Syntax.Break;
    WhileStatementResolves(pushed, inner, rules, fuel, o.value.0, o.value.1);
    LoopControlOutsideLoop(o.value.1, rules, fuel);
    assert ResolveStatements(o.value.1, body, 1, rules, fuel) == Err(BreakNotInLoop);
  }

  /** A `while` statement resolves as its loop does. */
  lemma WhileStatementResolves(b: Builder, w: Syntax.WhileStatement, rules: Rules, fuel: nat, x: ResolvedWhileStatement, c: Builder)
    requires b.Valid() && ResolveWhile(b, w, rules, fuel) == Ok((x, c))
    ensures ResolveStatement(b, Syntax.While(w), rules, fuel) == Ok((WhileStatement(x), c))
  {
  }

  /** `while (1) { break; }` inside one loop leaves no loop label. */
  lemma InnerLoopTakesLastLabel(b: Builder, rules: Rules, fuel: nat)
    requires b.Valid() && |b.loopLabels| == 1
    ensures ResolveWhile(b, Syntax.WhileStatement(One, Syntax.Compound([Syntax.Break])), rules, fuel).Ok?
    ensures ResolveWhile(b, Syntax.WhileStatement(One, Syntax.Compound([Syntax.Break])), rules, fuel).value.1.loopLabels == []
  {
    var inner := Syntax.WhileStatement(One, Syntax.Compound([Syntax.Break]));
    var l := b.labelIndex + 1;
    var inLoop := b.(labelIndex := l, loopLabels := b.loopLabels + [l]);
    var innerPushed := inLoop.Push();
    var after := innerPushed.(loopLabels := b.loopLabels);
    assert Below(innerPushed.loopLabels) == b.loopLabels;
    assert ResolveStatement(innerPushed, Syntax.Break, rules, fuel) == Ok((Break(l), after));
    assert inner.body.statements[0] == Syntax.Break;
    assert ResolveStatements(after, inner.body, 1, rules, fuel) == Ok(([], after));
    var x := ResolveStatements(innerPushed, inner.body, 0, rules, fuel);
    assert x.Ok? && x.value.1 == after;
  }

  /** Two loops in a row get different labels, the later one the larger. */
  lemma SequentialLoopsDistinctLabels(b: Builder, w1: Syntax.WhileStatement, w2: Syntax.WhileStatement, rules: Rules, fuel: nat)
    requires b.Valid()
    requires ResolveWhile(b, w1, rules, fuel).Ok?
    ensures var c := ResolveWhile(b, w1, rules, fuel).value.1;
      ResolveWhile(c, w2, rules, fuel).Ok? ==>
        ResolveWhile(c, w2, rules, fuel).value.0.labelIndex > ResolveWhile(b, w1, rules, fuel).value.0.labelIndex
  {
  }

  // ---------------------------------------------------------------------
  // Returns (src/scope_builder.rs:263-292)
  // ---------------------------------------------------------------------

  /**
   * `return;` is accepted exactly in a `void` function, and a `return`
   * outside every function is rejected.
   */
  lemma ReturnWithoutValue(b: Builder, rules: Rules, fuel: nat)
    requires b.Valid()
    ensures ResolveStatement(b, Syntax.Return(None), rules, fuel).Ok? <==> b.currentFunction == Some(VOID)
    ensures b.currentFunction.None? ==> ResolveStatement(b, Syntax.Return(None), rules, fuel) == Err(ReturnWithoutFunction)
  {
  }

  /**
   * `return e;` is accepted exactly when `e` resolves and its type is the
   * function's return type, with no conversion; it then returns the
   * resolved `e`.  A mismatch names both types, and outside every function
   * the `return` is rejected.
   */
  lemma ReturnWithValue(b: Builder, e: Syntax.Expression, rules: Rules, fuel: nat)
    requires b.Valid()
    ensures var r := ResolveStatement(b, Syntax.Return(Some(e)), rules, fuel);
      r.Ok? ==>
        && r.value.0.Return? && r.value.0.value.Some?
        && b.currentFunction == Some(TypeOf(r.value.0.value.value))
    ensures var r, o := ResolveStatement(b, Syntax.Return(Some(e)), rules, fuel), ResolveExpression(b, e, rules, fuel);
      && (r.Ok? <==> o.Ok? && b.currentFunction == Some(TypeOf(o.value.0)))
      && (r.Ok? ==> r.value == (Return(Some(o.value.0)), o.value.1))
      && (o.Ok? && b.currentFunction.Some? && b.currentFunction.value != TypeOf(o.value.0) ==>
            r == Err(ReturnTypeIncorrect(b.currentFunction.value, TypeOf(o.value.0))))
      && (o.Ok? && b.currentFunction.None? ==> r == Err(ReturnWithoutFunction))
  {
  }

  // ---------------------------------------------------------------------
  // Expressions and calls (src/scope_builder.rs:617-703, 943-983)
  // ---------------------------------------------------------------------

  /**
   * A binary expression resolves exactly when its operands have one type
   * or the left one converts to the right one, and then it has the left
   * operand's type.
   */
  lemma BinaryTakesLeftType(b: Builder, e: Syntax.Expression, rules: Rules, fuel: nat, l: ResolvedExpression, c: Builder, r: ResolvedExpression, d: Builder)
    requires b.Valid() && e.BinaryExpression?
    requires ResolveExpression(b, e.lhs, rules, fuel) == Ok((l, c))
    requires ResolveExpression(c, e.rhs, rules, fuel) == Ok((r, d))
    ensures ResolveBinary(b, e, rules, fuel).Ok? <==> TypeOf(l) == TypeOf(r) || rules.canConvert(TypeOf(l), TypeOf(r))
    ensures ResolveBinary(b, e, rules, fuel).Ok? ==>
      ResolveBinary(b, e, rules, fuel) == Ok((BinaryExpression(l, r, e.op, TypeOf(l)), d))
  {
  }

  /**
   * An index expression resolves exactly when its operand is a pointer and
   * its index a number, and then it has the pointer's base type.
   */
  lemma IndexingTypes(b: Builder, index: Syntax.Expression, operand: Syntax.Expression, rules: Rules, fuel: nat, x: ResolvedExpression, c: Builder, i: ResolvedExpression, d: Builder)
    requires b.Valid()
    requires ResolveExpression(b, operand, rules, fuel) == Ok((x, c))
    requires ResolveExpression(c, index, rules, fuel) == Ok((i, d))
    ensures ResolveExpression(b, Syntax.Indexing(index, operand), rules, fuel).Ok? <==> TypeOf(x).PTR? && IsNumber(TypeOf(i))
    ensures ResolveExpression(b, Syntax.Indexing(index, operand), rules, fuel).Ok? ==>
      ResolveExpression(b, Syntax.Indexing(index, operand), rules, fuel) == Ok((Indexing(TypeOf(x).base, i, x), d))
  {
  }

  /** A call to an unbound name, or with the wrong number of arguments, is rejected. */
  lemma CallChecks(b: Builder, call: Syntax.FunctionCall, rules: Rules, fuel: nat)
    requires b.Valid()
    ensures b.GetFunction(call.name).None? ==>
      ResolveExpression(b, Syntax.Call(call), rules, fuel) == Err(UnknownFunction(call.name))
    ensures b.GetFunction(call.name).Some? && |b.GetFunction(call.name).value.parameter| != |call.parameter| ==>
      ResolveExpression(b, Syntax.Call(call), rules, fuel)
        == Err(ParameterCountMismatch(call.name, |b.GetFunction(call.name).value.parameter|, |call.parameter|))
  {
  }

  /** A resolved call passes one argument per declared parameter. */
  lemma CallArity(b: Builder, call: Syntax.FunctionCall, rules: Rules, fuel: nat)
    requires b.Valid()
    requires ResolveExpression(b, Syntax.Call(call), rules, fuel).Ok?
    ensures var r := ResolveExpression(b, Syntax.Call(call), rules, fuel).value.0;
      && r.FunctionCall? && r.call.name == call.name && b.GetFunction(call.name).Some?
      && |r.call.parameter| == |call.parameter| == |b.GetFunction(call.name).value.parameter|
  {
  }

  /** `int f(typeof(f(0)) x);` makes a call to `f` resolve `f`'s own parameter type again, which runs out of fuel. */
  lemma SelfTypedParameter(b: Builder, rules: Rules, fuel: nat)
    requires b.Valid()
    ensures var selfCall := Syntax.Call(Syntax.FunctionCall("f", [Syntax.IntLiteral(0)]));
      var f := Syntax.Function("f", None, [(Syntax.Typeof(selfCall), "x")], Syntax.Primitive(Tokens.INT));
      b.GetFunction("f") == Some(f) ==> ResolveExpression(b, selfCall, rules, fuel) == Err(Overflow)
  {
    var selfCall := Syntax.Call(Syntax.FunctionCall("f", [Syntax.IntLiteral(0)]));
    var f := Syntax.Function("f", None, [(Syntax.Typeof(selfCall), "x")], Syntax.Primitive(Tokens.INT));
    if b.GetFunction("f") == Some(f) {
      SelfCallOverflows(b, selfCall, f, rules, fuel);
    }
  }

  /** Whatever the fuel, resolving the call `f(0)` to that `f` runs out of it. */
  lemma {:induction false} SelfCallOverflows(b: Builder, selfCall: Syntax.Expression, f: Syntax.Function, rules: Rules, fuel: nat)
    requires b.Valid()
    requires selfCall == Syntax.Call(Syntax.FunctionCall("f", [Syntax.IntLiteral(0)]))
    requires f == Syntax.Function("f", None, [(Syntax.Typeof(selfCall), "x")], Syntax.Primitive(Tokens.INT))
    requires b.GetFunction("f") == Some(f)
    ensures ResolveExpression(b, selfCall, rules, fuel) == Err(Overflow)
    decreases fuel
  {
    if fuel > 0 {
      SelfCallOverflows(b, selfCall, f, rules, fuel - 1);
      assert ResolveType(b, Syntax.Typeof(selfCall), rules, fuel - 1) == Err(Overflow);
      assert ResolveArguments(b, selfCall, f, 0, rules, fuel) == Err(Overflow);
    }
  }

  // ---------------------------------------------------------------------
  // Arrays and stores (src/scope_builder.rs:734-755, 899-938)
  // ---------------------------------------------------------------------

  /** `{"a", "b"}`: the first element takes a string label of its own before the list does. */
  const TwoStrings := Syntax.Array(Syntax.StackArray([Syntax.Array(Syntax.StringLiteral("a")), Syntax.Array(Syntax.StringLiteral("b"))]))

  /**
   * In a brace list of two string literals the first element is resolved
   * twice: three string labels are taken, and the stored elements carry
   * the second and third, the last element first.
   */
  lemma FirstElementResolvedTwice(b: Builder, rules: Rules, fuel: nat)
    requires b.Valid()
    ensures ResolveExpression(b, TwoStrings, rules, fuel).Ok?
    ensures var (e, c) := ResolveExpression(b, TwoStrings, rules, fuel).value;
      && c.stringIndex == b.stringIndex + 3
      && e.ArrayExpression? && e.arrayValue.StackArray?
      && |e.arrayValue.expressions| == 2
      && e.arrayValue.expressions[0].StackAssignment? && e.arrayValue.expressions[1].StackAssignment?
      && e.arrayValue.expressions[0].expression == ArrayExpression(StringLiteral("b", PTR(CHAR), b.stringIndex + 2))
      && e.arrayValue.expressions[1].expression == ArrayExpression(StringLiteral("a", PTR(CHAR), b.stringIndex + 3))
  {
    var a := Syntax.Array(Syntax.StringLiteral("a"));
    var s := Syntax.Array(Syntax.StringLiteral("b"));
    var b1 := b.(stringIndex := b.stringIndex + 1);
    assert ResolveExpression(b, a, rules, fuel) == Ok((ArrayExpression(StringLiteral("a", PTR(CHAR), b.stringIndex + 1)), b1));
    var b2 := b1.(stringIndex := b.stringIndex + 2);
    assert ResolveExpression(b1, s, rules, fuel) == Ok((ArrayExpression(StringLiteral("b", PTR(CHAR), b.stringIndex + 2)), b2));
    var b2s := b2.(stackOffset := b2.stackOffset + 8);
    var b3 := b2s.(stringIndex := b.stringIndex + 3);
    assert ResolveExpression(b2s, a, rules, fuel) == Ok((ArrayExpression(StringLiteral("a", PTR(CHAR), b.stringIndex + 3)), b3));
    assert TwoStrings.elements.expressions[0] == a && TwoStrings.elements.expressions[1] == s;
    var b3s := b3.(stackOffset := b3.stackOffset + 8);
    assert ResolveElements(b3s, TwoStrings, PTR(CHAR), 0, rules, fuel) == Ok(([], b3s));
    var one := ResolveElements(b2s, TwoStrings, PTR(CHAR), 1, rules, fuel);
    assert one.Ok? && one.value.1 == b3s && |one.value.0| == 1;
    assert one.value.0[0].expression == ArrayExpression(StringLiteral("a", PTR(CHAR), b.stringIndex + 3));
    var two := ResolveElements(b1, TwoStrings, PTR(CHAR), 2, rules, fuel);
    assert two.Ok? && two.value.1 == b3s && two.value.0 == [StackAssignment(Variable(b2s.stackOffset, PTR(CHAR)), ArrayExpression(StringLiteral("b", PTR(CHAR), b.stringIndex + 2)))] + one.value.0;
  }

  /**
   * The store `*p = v` as written records the value as the address, so
   * the address the store writes through is lost; the corrected store
   * keeps both.
   */
  lemma PtrStoreLosesAddress()
    ensures var value := IntLiteral(1);
      var address := NamedVariable(Variable(8, PTR(INT)));
      && PtrStoreAsWritten(value, address, INT).address == value != address
      && PtrStore(value, address, INT).address == address
  {
  }

  // ---------------------------------------------------------------------
  // Structs (src/scope_builder.rs:491-536)
  // ---------------------------------------------------------------------

  const StructA := Syntax.Struct("S", [("a", Syntax.Primitive(Tokens.INT))])

  /**
   * `struct S;` binds `S` to `EmptyStruct`, and a later `struct S { int a; }`
   * gives the defined struct but leaves `S` bound to `EmptyStruct`.
   */
  lemma ForwardDeclaredStructStaysEmpty(rules: Rules, fuel: nat)
    ensures ResolveType(InitialBuilder, Syntax.NamedStruct("S"), rules, fuel).Ok?
    ensures var c := ResolveType(InitialBuilder, Syntax.NamedStruct("S"), rules, fuel).value.1;
      && c.GetType("S") == Some(EmptyStruct)
      && ResolveType(c, StructA, rules, fuel).Ok?
      && ResolveType(c, StructA, rules, fuel).value.0 == STRUCT(Struct([("a", INT)]))
      && ResolveType(c, StructA, rules, fuel).value.1.GetType("S") == Some(EmptyStruct)
  {
    var c := InitialBuilder.PushType("S", EmptyStruct);
    assert c.GetType("S") == Some(EmptyStruct);
    assert ResolveFields(c, StructA, 1, rules, fuel) == Ok(([], c));
    assert StructA.fields[0] == ("a", Syntax.Primitive(Tokens.INT));
    assert ResolveType(c, Syntax.Primitive(Tokens.INT), rules, fuel) == Ok((INT, c));
    var x := ResolveFields(c, StructA, 0, rules, fuel);
    assert x.Ok? && x.value.1 == c && x.value.0 == [("a", INT)];
  }

  /** A struct defined from scratch is bound to its fields, and defining it again is rejected. */
  lemma StructDefinition(rules: Rules, fuel: nat)
    ensures ResolveType(InitialBuilder, StructA, rules, fuel).Ok?
    ensures var c := ResolveType(InitialBuilder, StructA, rules, fuel).value.1;
      && c.GetType("S") == Some(STRUCT(Struct([("a", INT)])))
      && ResolveType(c, StructA, rules, fuel) == Err(StructRedefinition("S"))
  {
    var c := InitialBuilder.PushType("S", EmptyStruct);
    assert ResolveCheckedFields(c, StructA, 1, rules, fuel) == Ok(([], c));
    assert StructA.fields[0] == ("a", Syntax.Primitive(Tokens.INT));
    assert StructA.fields[1..] == [];
    assert Occurrences(StructA.fields, "a") == 1;
    assert ResolveType(c, Syntax.Primitive(Tokens.INT), rules, fuel) == Ok((INT, c));
    var x := ResolveCheckedFields(c, StructA, 0, rules, fuel);
    assert x.Ok? && x.value.1 == c && x.value.0 == [("a", INT)];
    var d := c.PushType("S", STRUCT(Struct([("a", INT)])));
    assert d.GetType("S") == Some(STRUCT(Struct([("a", INT)])));
  }

  /** A new struct with a repeated field name, or with a field of size 0, is rejected. */
  lemma StructFieldChecks(b: Builder, rules: Rules, fuel: nat)
    requires b.Valid() && b.GetType("S").None?
    ensures ResolveType(b, Syntax.Struct("S", [("a", Syntax.Primitive(Tokens.INT)), ("a", Syntax.Primitive(Tokens.CHAR))]), rules, fuel)
      == Err(StructFieldRedefinition("S", "a"))
    ensures ResolveType(b, Syntax.Struct("S", [("a", Syntax.Primitive(Tokens.VOID))]), rules, fuel)
      == Err(StructFieldUnknownSize("S", "a"))
  {
    var t := Syntax.Struct("S", [("a", Syntax.Primitive(Tokens.INT)), ("a", Syntax.Primitive(Tokens.CHAR))]);
    assert t.fields[1..] == [("a", Syntax.Primitive(Tokens.CHAR))] && t.fields[1..][1..] == [];
    assert Occurrences(t.fields[1..][1..], "a") == 0;
    assert Occurrences(t.fields[1..], "a") == 1;
    assert Occurrences(t.fields, "a") == 2;
    assert ResolveCheckedFields(b.PushType("S", EmptyStruct), t, 0, rules, fuel) == Err(StructFieldRedefinition("S", "a"));
    var u := Syntax.Struct("S", [("a", Syntax.Primitive(Tokens.VOID))]);
    assert u.fields[1..] == [];
    assert Occurrences(u.fields, "a") == 1;
    assert ResolveCheckedFields(b.PushType("S", EmptyStruct), u, 0, rules, fuel) == Err(StructFieldUnknownSize("S", "a"));
  }

  // ---------------------------------------------------------------------
  // Functions and the program (src/scope_builder.rs:184-256)
  // ---------------------------------------------------------------------

  /** `int g;` */
  const GlobalInt := Syntax.StatementDeclaration(Syntax.VariableDeclaration("g", Syntax.Primitive(Tokens.INT), None))

  /** `long f(int a, char c);` */
  const Prototype := Syntax.Function("f", None, [(Syntax.Primitive(Tokens.INT), "a"), (Syntax.Primitive(Tokens.CHAR), "c")], Syntax.Primitive(Tokens.LONG))

  /**
   * The current function is never reset: a global declaration is rejected
   * before the first function and accepted after it.
   */
  lemma GlobalAfterFunction(rules: Rules, fuel: nat)
    ensures Resolve(Syntax.Program([GlobalInt]), rules, fuel) == Err(VariableDeclarationOutsideOfFunction("g"))
    ensures Resolve(Syntax.Program([Syntax.FunctionDeclaration(Prototype), GlobalInt]), rules, fuel).Ok?
  {
    GlobalFirst(rules, fuel);
    var p := Syntax.Program([Syntax.FunctionDeclaration(Prototype), GlobalInt]);
    PrototypeFrame(rules, fuel);
    var c := ResolveFunction(InitialBuilder, Prototype, rules, fuel).value.1;
    GlobalUnbound(rules, fuel);
    GlobalInFunction(c, rules, fuel);
    assert p.declarations[1] == GlobalInt;
    assert ResolveDeclarations(c, p, 1, rules, fuel).Ok?;
    assert p.declarations[0] == Syntax.FunctionDeclaration(Prototype);
    assert ResolveDeclarations(InitialBuilder, p, 0, rules, fuel).Ok?;
  }

  /** Before any function, `int g;` is a declaration outside of a function. */
  lemma GlobalFirst(rules: Rules, fuel: nat)
    ensures ResolveDeclarations(InitialBuilder, Syntax.Program([GlobalInt]), 0, rules, fuel) == Err(VariableDeclarationOutsideOfFunction("g"))
  {
    assert InitialBuilder.GetVariable("g").None?;
    DeclarationRejections(InitialBuilder, "g", Syntax.Primitive(Tokens.INT), None, rules, fuel);
    assert Syntax.Program([GlobalInt]).declarations[0] == GlobalInt;
  }

  /** With a function current and `g` unbound, `int g;` resolves. */
  lemma GlobalInFunction(c: Builder, rules: Rules, fuel: nat)
    requires c.Valid() && c.currentFunction.Some? && c.GetVariable("g").None?
    ensures ResolveStatement(c, GlobalInt.statement, rules, fuel).Ok?
  {
    assert ResolveType(c, Syntax.Primitive(Tokens.INT), rules, fuel) == Ok((INT, c));
    assert ResolveDeclaration(c, GlobalInt.statement, rules, fuel).Ok?;
  }

  /** After the prototype, `g` is bound in no frame. */
  lemma GlobalUnbound(rules: Rules, fuel: nat)
    ensures ResolveFunction(InitialBuilder, Prototype, rules, fuel).Ok?
    ensures ResolveFunction(InitialBuilder, Prototype, rules, fuel).value.1.GetVariable("g").None?
  {
    PrototypeFrame(rules, fuel);
  }

  /** The bytes a list of resolved parameters takes on the stack. */
  function ParameterBytes(ps: seq<(DataType, string)>): nat {
    if ps == [] then 0 else Size(ps[0].0) + ParameterBytes(ps[1..])
  }

  /** The names of a parameter list, in order. */
  function Names<T>(ps: seq<(T, string)>): seq<string> {
    if ps == [] then [] else [ps[0].1] + Names(ps[1..])
  }

  /**
   * One round of the parameter loop: the `i`-th parameter `x` resolved
   * under its declared name, its slot above the current offset, and the
   * rest of the loop from the builder `slot` that binds it.
   */
  lemma ParameterRound(b: Builder, f: Syntax.Function, i: nat, rules: Rules, fuel: nat) returns (x: (DataType, string), slot: Builder)
    requires b.Valid() && i < |f.parameter| && ResolveParameters(b, f, i, rules, fuel).Ok?
    ensures slot.Valid() && ResolveParameters(slot, f, i + 1, rules, fuel).Ok?
    ensures var o := ResolveParameters(slot, f, i + 1, rules, fuel).value;
      ResolveParameters(b, f, i, rules, fuel).value == ([x] + o.0, o.1)
    ensures x.1 == f.parameter[i].1 && slot.stackOffset >= b.stackOffset + Size(x.0)
  {
    var t := ResolveType(b, f.parameter[i].0, rules, fuel).value;
    x := (t.0, f.parameter[i].1);
    slot := t.1.PushVariable(f.parameter[i].1, t.0).1;
  }

  /** The parameter loop keeps the declared names, in order. */
  lemma {:induction false} ParametersNamed(b: Builder, f: Syntax.Function, i: nat, rules: Rules, fuel: nat)
    requires b.Valid() && i <= |f.parameter|
    ensures var r := ResolveParameters(b, f, i, rules, fuel);
      r.Ok? ==> Names(r.value.0) == Names(f.parameter[i..])
    decreases |f.parameter| - i
  {
    var r := ResolveParameters(b, f, i, rules, fuel);
    if i < |f.parameter| && r.Ok? {
      var x, slot := ParameterRound(b, f, i, rules, fuel);
      var o := ResolveParameters(slot, f, i + 1, rules, fuel).value;
      ParametersNamed(slot, f, i + 1, rules, fuel);
      assert r.value.0[1..] == o.0;
      assert f.parameter[i..][1..] == f.parameter[i + 1..];
    }
  }

  /**
   * Each parameter's slot sits above the previous one: the stack offset
   * rises by at least the parameters' sizes.
   */
  lemma {:induction false} ParametersReserve(b: Builder, f: Syntax.Function, i: nat, rules: Rules, fuel: nat)
    requires b.Valid() && i <= |f.parameter|
    ensures var r := ResolveParameters(b, f, i, rules, fuel);
      r.Ok? ==> r.value.1.stackOffset >= b.stackOffset + ParameterBytes(r.value.0)
    decreases |f.parameter| - i
  {
    var r := ResolveParameters(b, f, i, rules, fuel);
    if i < |f.parameter| && r.Ok? {
      var x, slot := ParameterRound(b, f, i, rules, fuel);
      var o := ResolveParameters(slot, f, i + 1, rules, fuel).value;
      ParametersReserve(slot, f, i + 1, rules, fuel);
      assert r.value.0[1..] == o.0;
    }
  }

  /**
   * Every function visit starts again from stack offset 0 and frame size 0,
   * so its result does not depend on the offset and frame size the builder
   * had before it.
   */
  lemma FunctionStartsFresh(b: Builder, f: Syntax.Function, x: nat, y: nat, rules: Rules, fuel: nat)
    requires b.Valid()
    ensures ResolveFunction(b, f, rules, fuel) == ResolveFunction(b.(stackOffset := x, frameSize := y), f, rules, fuel)
  {
    assert b.(stackOffset := x, frameSize := y).(stackOffset := 0, frameSize := 0) == b.(stackOffset := 0, frameSize := 0);
  }

  /**
   * A resolved function lists its parameters under their declared names, in
   * order, and its frame size covers all their slots.
   */
  lemma FrameCoversParameters(b: Builder, f: Syntax.Function, rules: Rules, fuel: nat)
    requires b.Valid()
    ensures var r := ResolveFunction(b, f, rules, fuel);
      r.Ok? ==>
        && |r.value.0.parameter| == |f.parameter| && Names(r.value.0.parameter) == Names(f.parameter)
        && r.value.0.frameSize >= ParameterBytes(r.value.0.parameter)
  {
    var r := ResolveFunction(b, f, rules, fuel);
    if r.Ok? {
      var start := b.(stackOffset := 0, frameSize := 0);
      var returned := ResolveType(start, f.returnType, rules, fuel).value;
      var checked := CheckAgainstDeclaration(returned.1, f, returned.0, rules, fuel).value;
      var entered := Enter(checked.1, f, returned.0);
      ParametersNamed(entered, f, 0, rules, fuel);
      assert f.parameter[0..] == f.parameter;
      ParametersReserve(entered, f, 0, rules, fuel);
    }
  }

  /**
   * A prototype's frame is its parameters: `long f(int a, char c);` has
   * frame size 4 + 1, and its frame is closed again after it.
   */
  lemma PrototypeFrame(rules: Rules, fuel: nat)
    ensures ResolveFunction(InitialBuilder, Prototype, rules, fuel).Ok?
    ensures var (f, c) := ResolveFunction(InitialBuilder, Prototype, rules, fuel).value;
      && f == ResolvedFunction("f", None, [(INT, "a"), (CHAR, "c")], 5)
      && c.scope.variables == InitialBuilder.scope.variables
      && c.currentFunction == Some(LONG)
  {
    var entered := Enter(InitialBuilder, Prototype, LONG);
    var one := entered.PushVariable("a", INT).1;
    var two := one.PushVariable("c", CHAR).1;
    assert ResolveParameters(two, Prototype, 2, rules, fuel) == Ok(([], two));
    assert Prototype.parameter[0] == (Syntax.Primitive(Tokens.INT), "a") && Prototype.parameter[1] == (Syntax.Primitive(Tokens.CHAR), "c");
    assert ResolveType(one, Syntax.Primitive(Tokens.CHAR), rules, fuel) == Ok((CHAR, one));
    var x := ResolveParameters(one, Prototype, 1, rules, fuel);
    assert x.Ok? && x.value.1 == two && x.value.0 == [(CHAR, "c")];
    assert ResolveType(entered, Syntax.Primitive(Tokens.INT), rules, fuel) == Ok((INT, entered));
    var y := ResolveParameters(entered, Prototype, 0, rules, fuel);
    assert y.Ok? && y.value.1 == two && y.value.0 == [(INT, "a"), (CHAR, "c")];
  }
}
