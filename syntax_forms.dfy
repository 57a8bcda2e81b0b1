/**
 * What the newer parser's literal, type and compound-statement functions
 * build, for every token sequence: brace lists, call arguments, struct
 * literal fields, struct fields and parameters keep their source order with
 * the separators the source allows; a type expression is its base with one
 * pointer per `*`; an `else` goes to the innermost `if`; a `for` fills in
 * its missing condition and post expression; a `while` is its condition and
 * body; and a function is a prototype exactly when `;` follows its `)`.
 */
module SyntaxForms {
  import opened Util
  import opened Tokens
  import opened Syntax
  import opened SyntaxParser

  /** Where the next element of a list whose commas are optional begins: past a comma, if one is there. */
  function PastComma(ts: seq<TokenView>, p: nat): (q: nat)
    requires p < |ts|
    ensures q == p || (q == p + 1 && ts[p].token == COMMA)
  {
    if ts[p].token == COMMA then p + 1 else p
  }

  // ---- brace lists (src/parser/ast/array_expression.rs) ----

  /**
   * The element loop reads the same elements whatever it already holds: its
   * result is what it held followed by what it reads from an empty start.
   */
  lemma {:induction false} ArrayLoopAppends(ts: seq<TokenView>, pos: nat, elements: seq<Expression>)
    requires pos <= |ts|
    ensures var r, s := ArrayLoop(ts, pos, elements), ArrayLoop(ts, pos, []);
      r.pos == s.pos && r.result == (if s.result.Ok? then Ok(elements + s.result.value) else s.result)
    decreases |ts| - pos
  {
    if pos < |ts| && ts[pos].token == RCURL {
      assert elements + [] == elements;
    } else if pos < |ts| {
      var e := ParseExpression(ts, pos);
      if e.result.Ok? && e.pos < |ts| {
        var next := PastComma(ts, e.pos);
        assert ArrayLoop(ts, pos, elements) == ArrayLoop(ts, next, elements + [e.result.value]);
        assert ArrayLoop(ts, pos, []) == ArrayLoop(ts, next, [] + [e.result.value]);
        assert [] + [e.result.value] == [e.result.value];
        ArrayLoopAppends(ts, next, elements + [e.result.value]);
        ArrayLoopAppends(ts, next, [e.result.value]);
        var rest := ArrayLoop(ts, next, []);
        if rest.result.Ok? {
          assert elements + [e.result.value] + rest.result.value == elements + ([e.result.value] + rest.result.value);
        }
      }
    }
  }

  /** The element loop stops only on the `}`, which it leaves. */
  lemma {:induction false} ArrayLoopStops(ts: seq<TokenView>, pos: nat, elements: seq<Expression>)
    requires pos <= |ts|
    ensures var r := ArrayLoop(ts, pos, elements);
      r.result.Ok? ==> r.pos < |ts| && ts[r.pos].token == RCURL
    decreases |ts| - pos
  {
    if pos < |ts| && ts[pos].token != RCURL {
      var e := ParseExpression(ts, pos);
      if e.result.Ok? && e.pos < |ts| {
        ArrayLoopStops(ts, PastComma(ts, e.pos), elements + [e.result.value]);
      }
    }
  }

  /**
   * The elements of a brace list in source order: none before `}`, else the
   * expression at the cursor, then the elements read after it and after the
   * comma that may follow it.
   */
  lemma ElementsInOrder(ts: seq<TokenView>, pos: nat)
    requires pos < |ts|
    ensures ts[pos].token == RCURL ==> ArrayLoop(ts, pos, []) == Parsed(Ok([]), pos)
    ensures var r := ArrayLoop(ts, pos, []);
      ts[pos].token != RCURL && r.result.Ok? ==>
        var e := ParseExpression(ts, pos);
        && e.result.Ok? && e.pos < |ts|
        && var rest := ArrayLoop(ts, PastComma(ts, e.pos), []);
        && rest.result.Ok? && r.result.value == [e.result.value] + rest.result.value && r.pos == rest.pos
  {
    if ts[pos].token != RCURL {
      var e := ParseExpression(ts, pos);
      if e.result.Ok? && e.pos < |ts| {
        assert ArrayLoop(ts, pos, []) == ArrayLoop(ts, PastComma(ts, e.pos), [] + [e.result.value]);
        assert [] + [e.result.value] == [e.result.value];
        ArrayLoopAppends(ts, PastComma(ts, e.pos), [e.result.value]);
      }
    }
  }

  /**
   * `array_expression`: a string literal is its text; otherwise the
   * elements up to the `}`, which is consumed, so `{}` has none.
   */
  lemma ArrayForms(ts: seq<TokenView>, pos: nat)
    requires pos < |ts|
    ensures ts[pos].token == STRINGLIT ==> ParseArray(ts, pos) == Parsed(Ok(StringLiteral(ts[pos].str)), pos + 1)
    ensures ts[pos].token == RCURL ==> ParseArray(ts, pos) == Parsed(Ok(StackArray([])), pos + 1)
    ensures var r, l := ParseArray(ts, pos), ArrayLoop(ts, pos, []);
      ts[pos].token != STRINGLIT ==>
        && (r.result.Ok? <==> l.result.Ok? && l.pos < |ts|)
        && (r.result.Ok? ==> r.result.value == StackArray(l.result.value) && ts[l.pos].token == RCURL && r.pos == l.pos + 1)
  {
    ArrayLoopStops(ts, pos, []);
  }

  // ---- call arguments (src/parser/ast/function_call.rs) ----

  /** The argument loop reads the same arguments whatever it already holds. */
  lemma {:induction false} ArgumentLoopAppends(ts: seq<TokenView>, pos: nat, arguments: seq<Expression>)
    requires pos <= |ts|
    ensures var r, s := ArgumentLoop(ts, pos, arguments), ArgumentLoop(ts, pos, []);
      r.pos == s.pos && r.result == (if s.result.Ok? then Ok(arguments + s.result.value) else s.result)
    decreases |ts| - pos
  {
    if pos < |ts| && ts[pos].token == RPAREN {
      assert arguments + [] == arguments;
    } else if pos < |ts| {
      var e := ParseExpression(ts, pos);
      if e.result.Ok? && e.pos < |ts| {
        var next := PastComma(ts, e.pos);
        assert ArgumentLoop(ts, pos, arguments) == ArgumentLoop(ts, next, arguments + [e.result.value]);
        assert ArgumentLoop(ts, pos, []) == ArgumentLoop(ts, next, [] + [e.result.value]);
        assert [] + [e.result.value] == [e.result.value];
        ArgumentLoopAppends(ts, next, arguments + [e.result.value]);
        ArgumentLoopAppends(ts, next, [e.result.value]);
        var rest := ArgumentLoop(ts, next, []);
        if rest.result.Ok? {
          assert arguments + [e.result.value] + rest.result.value == arguments + ([e.result.value] + rest.result.value);
        }
      }
    }
  }

  /** The argument loop stops only on the `)`, which it leaves. */
  lemma {:induction false} ArgumentLoopStops(ts: seq<TokenView>, pos: nat, arguments: seq<Expression>)
    requires pos <= |ts|
    ensures var r := ArgumentLoop(ts, pos, arguments);
      r.result.Ok? ==> r.pos < |ts| && ts[r.pos].token == RPAREN
    decreases |ts| - pos
  {
    if pos < |ts| && ts[pos].token != RPAREN {
      var e := ParseExpression(ts, pos);
      if e.result.Ok? && e.pos < |ts| {
        ArgumentLoopStops(ts, PastComma(ts, e.pos), arguments + [e.result.value]);
      }
    }
  }

  /**
   * The arguments of a call in source order: none before `)`, else the
   * expression at the cursor, then those after it and after its optional comma.
   */
  lemma ArgumentsInOrder(ts: seq<TokenView>, pos: nat)
    requires pos < |ts|
    ensures ts[pos].token == RPAREN ==> ArgumentLoop(ts, pos, []) == Parsed(Ok([]), pos)
    ensures var r := ArgumentLoop(ts, pos, []);
      ts[pos].token != RPAREN && r.result.Ok? ==>
        var e := ParseExpression(ts, pos);
        && e.result.Ok? && e.pos < |ts|
        && var rest := ArgumentLoop(ts, PastComma(ts, e.pos), []);
        && rest.result.Ok? && r.result.value == [e.result.value] + rest.result.value && r.pos == rest.pos
  {
    if ts[pos].token != RPAREN {
      var e := ParseExpression(ts, pos);
      if e.result.Ok? && e.pos < |ts| {
        assert ArgumentLoop(ts, pos, []) == ArgumentLoop(ts, PastComma(ts, e.pos), [] + [e.result.value]);
        assert [] + [e.result.value] == [e.result.value];
        ArgumentLoopAppends(ts, PastComma(ts, e.pos), [e.result.value]);
      }
    }
  }

  /**
   * `function_call`: the callee is the token before the `(`, the arguments
   * are those read up to the `)`, and the `)` is consumed.
   */
  lemma CallForms(ts: seq<TokenView>, pos: nat)
    requires 0 < pos <= |ts|
    ensures var r := ParseFunctionCall(ts, pos);
      r.result.Ok? ==>
        && pos < |ts| && ts[pos].token == LPAREN
        && var a := ArgumentLoop(ts, pos + 1, []);
        && a.result.Ok? && a.pos < |ts| && ts[a.pos].token == RPAREN
        && r.result.value == FunctionCall(ts[pos - 1].str, a.result.value) && r.pos == a.pos + 1
  {
    if pos < |ts| && ts[pos].token == LPAREN {
      ArgumentLoopStops(ts, pos + 1, []);
    }
  }

  /** An identifier followed by `(` is a call of that identifier. */
  lemma CallNamesIdentifier(ts: seq<TokenView>, pos: nat)
    requires pos + 1 < |ts| && ts[pos].token == IDENT && ts[pos + 1].token == LPAREN
    ensures var r, c := ParseLiteral(ts, pos), ParseFunctionCall(ts, pos + 1);
      r.result.Ok? ==> c.result.Ok? && r == Parsed(Ok(Call(c.result.value)), c.pos) && c.result.value.name == ts[pos].str
  {
    CallForms(ts, pos + 1);
  }

  // ---- struct literals (src/parser/ast/struct_expression.rs) ----

  /** The field loop of a struct literal reads the same fields whatever it already holds. */
  lemma {:induction false} LiteralFieldsAppend(ts: seq<TokenView>, pos: nat, fields: seq<(string, Expression)>)
    requires pos <= |ts|
    ensures var r, s := ParseStructExpression(ts, pos, fields), ParseStructExpression(ts, pos, []);
      r.pos == s.pos && r.result == (if s.result.Ok? then Ok(StructExpression(fields + s.result.value.fields)) else s.result)
    decreases |ts| - pos
  {
    if pos < |ts| && ts[pos].token == RCURL {
      assert fields + [] == fields;
    } else if pos + 3 <= |ts| && ts[pos].token == DOT && ts[pos + 1].token == IDENT && ts[pos + 2].token == ASSIGN {
      var v := ParseExpression(ts, pos + 3);
      if v.result.Ok? && v.pos < |ts| && (ts[v.pos].token == RCURL || ts[v.pos].token == COMMA) {
        var field := (ts[pos + 1].str, v.result.value);
        var next := PastComma(ts, v.pos);
        assert ParseStructExpression(ts, pos, fields) == ParseStructExpression(ts, next, fields + [field]);
        assert ParseStructExpression(ts, pos, []) == ParseStructExpression(ts, next, [] + [field]);
        assert [] + [field] == [field];
        LiteralFieldsAppend(ts, next, fields + [field]);
        LiteralFieldsAppend(ts, next, [field]);
        var rest := ParseStructExpression(ts, next, []);
        if rest.result.Ok? {
          assert fields + [field] + rest.result.value.fields == fields + ([field] + rest.result.value.fields);
        }
      }
    }
  }

  /**
   * The fields of a struct literal in source order, up to the `}` it
   * consumes: each is `. name = e`, and after each comes the `}` or a comma,
   * so a comma is required between two fields and allowed after the last.
   */
  lemma LiteralFieldsInOrder(ts: seq<TokenView>, pos: nat)
    requires pos < |ts|
    ensures ts[pos].token == RCURL ==> ParseStructExpression(ts, pos, []) == Parsed(Ok(StructExpression([])), pos + 1)
    ensures var r := ParseStructExpression(ts, pos, []);
      ts[pos].token != RCURL && r.result.Ok? ==>
        && pos + 3 < |ts| && ts[pos].token == DOT && ts[pos + 1].token == IDENT && ts[pos + 2].token == ASSIGN
        && var v := ParseExpression(ts, pos + 3);
        && v.result.Ok? && v.pos < |ts| && (ts[v.pos].token == RCURL || ts[v.pos].token == COMMA)
        && var rest := ParseStructExpression(ts, PastComma(ts, v.pos), []);
        && rest.result.Ok? && r.pos == rest.pos
        && r.result.value.fields == [(ts[pos + 1].str, v.result.value)] + rest.result.value.fields
  {
    if ts[pos].token != RCURL && pos + 3 <= |ts| && ts[pos].token == DOT && ts[pos + 1].token == IDENT && ts[pos + 2].token == ASSIGN {
      var v := ParseExpression(ts, pos + 3);
      if v.result.Ok? && v.pos < |ts| && (ts[v.pos].token == RCURL || ts[v.pos].token == COMMA) {
        var field := (ts[pos + 1].str, v.result.value);
        assert ParseStructExpression(ts, pos, []) == ParseStructExpression(ts, PastComma(ts, v.pos), [] + [field]);
        assert [] + [field] == [field];
        LiteralFieldsAppend(ts, PastComma(ts, v.pos), [field]);
      }
    }
  }

  /** A struct literal's loop always ends past a `}`. */
  lemma {:induction false} LiteralFieldsStop(ts: seq<TokenView>, pos: nat, fields: seq<(string, Expression)>)
    requires pos <= |ts|
    ensures var r := ParseStructExpression(ts, pos, fields);
      r.result.Ok? ==> 0 < r.pos && ts[r.pos - 1].token == RCURL
    decreases |ts| - pos
  {
    if pos < |ts| && ts[pos].token != RCURL && pos + 3 <= |ts| && ts[pos].token == DOT && ts[pos + 1].token == IDENT && ts[pos + 2].token == ASSIGN {
      var v := ParseExpression(ts, pos + 3);
      if v.result.Ok? && v.pos < |ts| && (ts[v.pos].token == RCURL || ts[v.pos].token == COMMA) {
        LiteralFieldsStop(ts, PastComma(ts, v.pos), fields + [(ts[pos + 1].str, v.result.value)]);
      }
    }
  }

  // ---- types (src/parser/ast/type_expression.rs, type_definition.rs) ----

  /** The number of `*` tokens in a row from `p` on. */
  function Stars(ts: seq<TokenView>, p: nat): (n: nat)
    requires p <= |ts|
    ensures p + n <= |ts|
    ensures forall k :: p <= k < p + n ==> ts[k].token == MUL
    ensures p + n < |ts| ==> ts[p + n].token != MUL
    decreases |ts| - p
  {
    if p < |ts| && ts[p].token == MUL then 1 + Stars(ts, p + 1) else 0
  }

  /** `t` under `n` layers of pointer. */
  function PointerTo(t: TypeExpression, n: nat): TypeExpression {
    if n == 0 then t else Pointer(PointerTo(t, n - 1))
  }

  /** The layers can be added from the inside as well as from the outside. */
  lemma {:induction false} PointerToInside(t: TypeExpression, n: nat)
    ensures PointerTo(Pointer(t), n) == PointerTo(t, n + 1)
  {
    if n > 0 {
      PointerToInside(t, n - 1);
    }
  }

  /**
   * The `*` loop adds one pointer layer per `*` and stops on the first other
   * token; running out of tokens is a panic.
   */
  lemma {:induction false} StarsAddPointers(ts: seq<TokenView>, p: nat, t: TypeExpression)
    requires p <= |ts|
    ensures var n := Stars(ts, p);
      PointerLoop(ts, p, t) == if p + n == |ts| then Parsed(Err(Panic), |ts|) else Parsed(Ok(PointerTo(t, n)), p + n)
    decreases |ts| - p
  {
    if p < |ts| && ts[p].token == MUL {
      StarsAddPointers(ts, p + 1, Pointer(t));
      PointerToInside(t, Stars(ts, p + 1));
    }
  }

  /**
   * `type_expression` by its first token: an identifier is a named type,
   * `typeof` and `struct` take their arms, and any other token is a
   * primitive; then one pointer layer for each `*` that follows.
   */
  lemma TypeExpressionForms(ts: seq<TokenView>, pos: nat)
    requires pos < |ts|
    ensures var t, r := ts[pos].token, ParseTypeExpression(ts, pos);
      var base :=
        if t == STRUCT then ParseStructType(ts, pos + 1)
        else if t == IDENT then Parsed(Ok(Named(ts[pos].str)), pos + 1)
        else if t == TYPEOF then ParseTypeof(ts, pos + 1)
        else Parsed(Ok(Primitive(t)), pos + 1);
      && (r.result.Ok? <==> base.result.Ok? && base.pos + Stars(ts, base.pos) < |ts|)
      && (r.result.Ok? ==> r.result.value == PointerTo(base.result.value, Stars(ts, base.pos)) && r.pos == base.pos + Stars(ts, base.pos))
  {
    var t := ts[pos].token;
    var base :=
      if t == STRUCT then ParseStructType(ts, pos + 1)
      else if t == IDENT then Parsed(Ok(Named(ts[pos].str)), pos + 1)
      else if t == TYPEOF then ParseTypeof(ts, pos + 1)
      else Parsed(Ok(Primitive(t)), pos + 1);
    if base.result.Ok? {
      StarsAddPointers(ts, base.pos, base.result.value);
    }
  }

  /** The `typeof` arm: `(`, an expression, `)`; the type is that of the expression. */
  lemma TypeofForm(ts: seq<TokenView>, pos: nat)
    requires pos <= |ts|
    ensures var r := ParseTypeof(ts, pos);
      r.result.Ok? ==>
        && pos < |ts| && ts[pos].token == LPAREN
        && var e := ParseExpression(ts, pos + 1);
        && e.result.Ok? && e.pos < |ts| && ts[e.pos].token == RPAREN
        && r == Parsed(Ok(Typeof(e.result.value)), e.pos + 1)
  {
  }

  /** One round of the field loop of a struct body: a type, a name and a `;`. */
  lemma FieldStep(ts: seq<TokenView>, pos: nat, fields: seq<(string, TypeExpression)>)
    requires pos < |ts| && ts[pos].token != RCURL
    requires var t := ParseTypeExpression(ts, pos);
      t.result.Ok? && t.pos + 1 < |ts| && ts[t.pos].token == IDENT && ts[t.pos + 1].token == SEMIC
    ensures var t := ParseTypeExpression(ts, pos);
      FieldLines(ts, pos, fields) == FieldLines(ts, t.pos + 2, fields + [(ts[t.pos].str, t.result.value)])
  {
  }

  /** The field loop of a struct body reads the same fields whatever it already holds. */
  lemma {:induction false} FieldLinesAppend(ts: seq<TokenView>, pos: nat, fields: seq<(string, TypeExpression)>)
    requires pos <= |ts|
    ensures var r, s := FieldLines(ts, pos, fields), FieldLines(ts, pos, []);
      r.pos == s.pos && r.result == (if s.result.Ok? then Ok(fields + s.result.value) else s.result)
    decreases |ts| - pos
  {
    if pos < |ts| && ts[pos].token == RCURL {
      assert fields + [] == fields;
    } else if pos < |ts| {
      var t := ParseTypeExpression(ts, pos);
      if t.result.Ok? && t.pos + 1 < |ts| && ts[t.pos].token == IDENT && ts[t.pos + 1].token == SEMIC {
        var field := (ts[t.pos].str, t.result.value);
        var next := t.pos + 2;
        FieldStep(ts, pos, fields);
        FieldStep(ts, pos, []);
        assert [] + [field] == [field];
        FieldLinesAppend(ts, next, fields + [field]);
        FieldLinesAppend(ts, next, [field]);
        var rest := FieldLines(ts, next, []);
        if rest.result.Ok? {
          assert fields + [field] + rest.result.value == fields + ([field] + rest.result.value);
        }
      }
    }
  }

  /** The field loop of a struct body stops only on the `}`, which it leaves. */
  lemma {:induction false} FieldLinesStop(ts: seq<TokenView>, pos: nat, fields: seq<(string, TypeExpression)>)
    requires pos <= |ts|
    ensures var r := FieldLines(ts, pos, fields);
      r.result.Ok? ==> r.pos < |ts| && ts[r.pos].token == RCURL
    decreases |ts| - pos
  {
    if pos < |ts| && ts[pos].token != RCURL {
      var t := ParseTypeExpression(ts, pos);
      if t.result.Ok? && t.pos + 1 < |ts| && ts[t.pos].token == IDENT && ts[t.pos + 1].token == SEMIC {
        FieldLinesStop(ts, t.pos + 2, fields + [(ts[t.pos].str, t.result.value)]);
      }
    }
  }

  /**
   * The fields of a struct body in source order: each is a type, a name and
   * a `;`, and is recorded as the name with its type.
   */
  lemma FieldsInOrder(ts: seq<TokenView>, pos: nat)
    requires pos < |ts|
    ensures ts[pos].token == RCURL ==> FieldLines(ts, pos, []) == Parsed(Ok([]), pos)
    ensures var r := FieldLines(ts, pos, []);
      ts[pos].token != RCURL && r.result.Ok? ==>
        var t := ParseTypeExpression(ts, pos);
        && t.result.Ok? && t.pos + 1 < |ts| && ts[t.pos].token == IDENT && ts[t.pos + 1].token == SEMIC
        && var rest := FieldLines(ts, t.pos + 2, []);
        && rest.result.Ok? && r.result.value == [(ts[t.pos].str, t.result.value)] + rest.result.value && r.pos == rest.pos
  {
    if ts[pos].token != RCURL {
      var t := ParseTypeExpression(ts, pos);
      if t.result.Ok? && t.pos + 1 < |ts| && ts[t.pos].token == IDENT && ts[t.pos + 1].token == SEMIC {
        var field := (ts[t.pos].str, t.result.value);
        FieldStep(ts, pos, []);
        assert [] + [field] == [field];
        FieldLinesAppend(ts, t.pos + 2, [field]);
      }
    }
  }

  /**
   * The `struct` arm, after the keyword: `struct N` is named `struct N`; it
   * is a reference without a body and a definition with the fields up to
   * the `}` it consumes.
   */
  lemma StructTypeForms(ts: seq<TokenView>, pos: nat)
    requires pos <= |ts|
    ensures var r := ParseStructType(ts, pos);
      r.result.Ok? ==>
        && pos + 1 < |ts| && ts[pos].token == IDENT
        && var name := "struct " + ts[pos].str;
        && (ts[pos + 1].token != LCURL ==> r == Parsed(Ok(NamedStruct(name)), pos + 1))
        && (ts[pos + 1].token == LCURL ==>
              var f := FieldLines(ts, pos + 2, []);
              && f.result.Ok? && f.pos < |ts| && ts[f.pos].token == RCURL
              && r == Parsed(Ok(Struct(name, f.result.value)), f.pos + 1))
  {
    if pos + 2 <= |ts| {
      FieldLinesStop(ts, pos + 2, []);
    }
  }

  /**
   * `type_def`: `typedef`, a type expression and a name, paired as the
   * definition; the cursor is left right after the name, so the `;` is the
   * statement's to consume.
   */
  lemma TypedefForms(ts: seq<TokenView>, pos: nat)
    requires pos <= |ts|
    ensures var r := ParseTypeDefinition(ts, pos);
      && (r.result.Ok? <==>
            && pos < |ts| && ts[pos].token == TYPEDEF
            && var t := ParseTypeExpression(ts, pos + 1);
            && t.result.Ok? && t.pos < |ts| && ts[t.pos].token == IDENT)
      && (r.result.Ok? ==>
            var t := ParseTypeExpression(ts, pos + 1);
            r == Parsed(Ok(TypeDefinition(ts[t.pos].str, t.result.value)), t.pos + 1))
  {
  }

  /** A `typedef` statement is the definition followed by the `;` it then consumes. */
  lemma TypedefStatement(ts: seq<TokenView>, pos: nat)
    requires pos < |ts| && ts[pos].token == TYPEDEF
    ensures var r, d := ParseStatement(ts, pos), ParseTypeDefinition(ts, pos);
      r.result.Ok? ==>
        d.result.Ok? && d.pos < |ts| && ts[d.pos].token == SEMIC && r == Parsed(Ok(Typedef(d.result.value)), d.pos + 1)
  {
  }

  // ---- conditions and loops (if_statement.rs, while_statement.rs, for_statement.rs) ----

  /** A condition is the expression between `(` and `)`, both consumed. */
  lemma ParenthesisedForm(ts: seq<TokenView>, pos: nat)
    requires pos <= |ts|
    ensures var r := ParseParenthesised(ts, pos);
      && (r.result.Ok? <==>
            && pos < |ts| && ts[pos].token == LPAREN
            && var e := ParseExpression(ts, pos + 1);
            && e.result.Ok? && e.pos < |ts| && ts[e.pos].token == RPAREN)
      && (r.result.Ok? ==> var e := ParseExpression(ts, pos + 1); r == Parsed(e.result, e.pos + 1))
  {
  }

  /** A `while` is exactly its condition and its body. */
  lemma WhileForm(ts: seq<TokenView>, pos: nat)
    requires pos <= |ts|
    ensures var r := ParseWhile(ts, pos);
      && (r.result.Ok? <==>
            && pos < |ts| && ts[pos].token == WHILE
            && var c := ParseParenthesised(ts, pos + 1);
            && c.result.Ok? && ParseCompound(ts, c.pos).result.Ok?)
      && (r.result.Ok? ==>
            var c := ParseParenthesised(ts, pos + 1);
            var b := ParseCompound(ts, c.pos);
            r == Parsed(Ok(WhileStatement(c.result.value, b.result.value)), b.pos))
  {
  }

  /**
   * An `if`: its condition and then-part, then an `else` part exactly when
   * `else` follows the then-part: a nested `if` when `if` comes next, and a
   * compound otherwise.
   */
  lemma IfForms(ts: seq<TokenView>, pos: nat)
    requires pos <= |ts|
    ensures var r := ParseIf(ts, pos);
      r.result.Ok? ==>
        && pos < |ts| && ts[pos].token == IF
        && var c := ParseParenthesised(ts, pos + 1);
        && c.result.Ok? && r.result.value.condition == c.result.value
        && var s := ParseCompound(ts, c.pos);
        && s.result.Ok? && s.pos < |ts| && r.result.value.statements == s.result.value
        && (r.result.value.elsePart.NoElse? <==> ts[s.pos].token != ELSE)
        && (ts[s.pos].token != ELSE ==> r.pos == s.pos)
        && (ts[s.pos].token == ELSE ==>
              && s.pos + 1 < |ts|
              && (ts[s.pos + 1].token == IF ==>
                    var n := ParseIf(ts, s.pos + 1);
                    n.result.Ok? && r.result.value.elsePart == ElseIf(n.result.value) && r.pos == n.pos)
              && (ts[s.pos + 1].token != IF ==>
                    var o := ParseCompound(ts, s.pos + 1);
                    o.result.Ok? && r.result.value.elsePart == ElseCompound(o.result.value) && r.pos == o.pos))
  {
  }

  /**
   * The dangling `else`: when the then-part of an `if` is an `if` without
   * braces, the inner `if` is the whole then-part, its parse ends where the
   * outer then-part ends, and so an `else` there is the inner one's: the
   * outer `if` has an `else` part only when the inner one has one too.
   */
  lemma ElseBindsInnermost(ts: seq<TokenView>, pos: nat)
    requires pos < |ts| && ts[pos].token == IF
    requires var c := ParseParenthesised(ts, pos + 1); c.result.Ok? && c.pos < |ts| && ts[c.pos].token == IF
    ensures var r, c := ParseIf(ts, pos), ParseParenthesised(ts, pos + 1);
      r.result.Ok? ==>
        var inner := ParseIf(ts, c.pos);
        && inner.result.Ok?
        && r.result.value.statements == Compound([If(inner.result.value)])
        && (!r.result.value.elsePart.NoElse? ==> !inner.result.value.elsePart.NoElse?)
  {
    var c := ParseParenthesised(ts, pos + 1);
    var inner := ParseIf(ts, c.pos);
    var s := ParseStatement(ts, c.pos);
    assert s == if inner.result.Ok? then Parsed(Ok(If(inner.result.value)), inner.pos) else Fail(inner);
    assert ParseCompound(ts, c.pos) == if s.result.Ok? then Parsed(Ok(Compound([s.result.value])), s.pos) else Fail(s);
    if inner.result.Ok? {
      IfForms(ts, c.pos);
      IfForms(ts, pos);
    }
  }

  /** The condition of a `for` read at `p`: the literal 1 when `;` is there at once, else an expression. */
  function Condition(ts: seq<TokenView>, p: nat): (c: Parsed<Expression>)
    requires p < |ts|
    ensures c.pos <= |ts|
  {
    if ts[p].token == SEMIC then Parsed(Ok(IntLiteral(1)), p) else ParseExpression(ts, p)
  }

  /** `for (`, the init statement and the condition have been read, and a token follows its `;`. */
  predicate HeadRead(ts: seq<TokenView>, pos: nat) {
    && pos + 1 < |ts| && ts[pos].token == FOR && ts[pos + 1].token == LPAREN
    && var init := ParseStatement(ts, pos + 2);
    && init.result.Ok? && init.pos < |ts|
    && var c := Condition(ts, init.pos);
    c.result.Ok? && c.pos + 1 < |ts| && ts[c.pos].token == SEMIC
  }

  /** Where the post expression of a `for` begins: after the `;` that ends its condition. */
  function PostStart(ts: seq<TokenView>, pos: nat): (q: nat)
    requires HeadRead(ts, pos)
    ensures q < |ts|
  {
    Condition(ts, ParseStatement(ts, pos + 2).pos).pos + 1
  }

  /** The loop a `for` head declares, with the post expression and body given. */
  function Loop(ts: seq<TokenView>, pos: nat, post: Option<Expression>, body: Compound): ForStatement
    requires HeadRead(ts, pos)
  {
    var init := ParseStatement(ts, pos + 2);
    ForStatement(init.result.value, Condition(ts, init.pos).result.value, post, body)
  }

  /**
   * The head of a `for`: `for (`, then the init statement with its own `;`;
   * a missing condition is the literal 1, which always holds; the
   * condition is followed by a `;` and a token after it.
   */
  lemma ForCondition(ts: seq<TokenView>, pos: nat)
    requires pos <= |ts|
    ensures var r := ParseFor(ts, pos);
      r.result.Ok? ==>
        && HeadRead(ts, pos)
        && var init := ParseStatement(ts, pos + 2);
        && r.result.value.init == init.result.value
        && (ts[init.pos].token == SEMIC ==> r.result.value.condition == IntLiteral(1))
        && (ts[init.pos].token != SEMIC ==> r.result.value.condition == ParseExpression(ts, init.pos).result.value)
  {
  }

  /** A `for` whose post expression is missing has none; the `)` and the body follow. */
  lemma ForMissingPost(ts: seq<TokenView>, pos: nat)
    requires HeadRead(ts, pos) && ts[PostStart(ts, pos)].token == RPAREN
    ensures var b := ParseCompound(ts, PostStart(ts, pos) + 1);
      ParseFor(ts, pos) == if b.result.Ok? then Parsed(Ok(Loop(ts, pos, None, b.result.value)), b.pos) else Fail(b)
  {
    assert Expect(ts, pos, FOR).pos == pos + 1;
    assert Expect(ts, pos + 1, LPAREN).pos == pos + 2;
  }

  /** A `for` with a post expression keeps it; the `)` and the body follow it. */
  lemma ForPresentPost(ts: seq<TokenView>, pos: nat)
    requires HeadRead(ts, pos) && ts[PostStart(ts, pos)].token != RPAREN
    ensures var e := ParseExpression(ts, PostStart(ts, pos));
      var r := ParseFor(ts, pos);
      r.result.Ok? ==>
        && e.result.Ok? && e.pos < |ts| && ts[e.pos].token == RPAREN
        && var b := ParseCompound(ts, e.pos + 1);
        && b.result.Ok? && r == Parsed(Ok(Loop(ts, pos, Some(e.result.value), b.result.value)), b.pos)
  {
    assert Expect(ts, pos, FOR).pos == pos + 1;
    assert Expect(ts, pos + 1, LPAREN).pos == pos + 2;
  }

  // ---- functions (src/parser/ast/function.rs) ----

  /** One round of the parameter loop that meets a comma after the name. */
  lemma ParameterStep(ts: seq<TokenView>, pos: nat, parameters: seq<(TypeExpression, string)>)
    requires pos < |ts| && ts[pos].token != RPAREN
    requires var t := ParseTypeExpression(ts, pos);
      t.result.Ok? && t.pos + 1 < |ts| && ts[t.pos].token == IDENT && ts[t.pos + 1].token == COMMA
    ensures var t := ParseTypeExpression(ts, pos);
      ParameterLoop(ts, pos, parameters) == ParameterLoop(ts, t.pos + 2, parameters + [(t.result.value, ts[t.pos].str)])
  {
  }

  /** The round of the parameter loop that meets the `)` after the name. */
  lemma LastParameter(ts: seq<TokenView>, pos: nat, parameters: seq<(TypeExpression, string)>)
    requires pos < |ts| && ts[pos].token != RPAREN
    requires var t := ParseTypeExpression(ts, pos);
      t.result.Ok? && t.pos + 1 < |ts| && ts[t.pos].token == IDENT && ts[t.pos + 1].token == RPAREN
    ensures var t := ParseTypeExpression(ts, pos);
      ParameterLoop(ts, pos, parameters) == Parsed(Ok(parameters + [(t.result.value, ts[t.pos].str)]), t.pos + 1)
  {
  }

  /** A round of the parameter loop that fails fails the same way whatever the loop holds. */
  lemma ParameterError(ts: seq<TokenView>, pos: nat, parameters: seq<(TypeExpression, string)>)
    requires pos <= |ts|
    requires var t := ParseTypeExpression(ts, pos);
      pos == |ts| || (ts[pos].token != RPAREN &&
        !(t.result.Ok? && t.pos + 1 < |ts| && ts[t.pos].token == IDENT && (ts[t.pos + 1].token == RPAREN || ts[t.pos + 1].token == COMMA)))
    ensures ParameterLoop(ts, pos, parameters) == ParameterLoop(ts, pos, [])
    ensures ParameterLoop(ts, pos, parameters).result.Err?
  {
  }

  /** The parameter loop reads the same parameters whatever it already holds. */
  lemma {:induction false} ParametersAppend(ts: seq<TokenView>, pos: nat, parameters: seq<(TypeExpression, string)>)
    requires pos <= |ts|
    ensures var r, s := ParameterLoop(ts, pos, parameters), ParameterLoop(ts, pos, []);
      r.pos == s.pos && r.result == (if s.result.Ok? then Ok(parameters + s.result.value) else s.result)
    decreases |ts| - pos
  {
    if pos < |ts| && ts[pos].token == RPAREN {
      assert parameters + [] == parameters;
    } else if pos == |ts| {
      ParameterError(ts, pos, parameters);
    } else {
      var t := ParseTypeExpression(ts, pos);
      if !(t.result.Ok? && t.pos + 1 < |ts| && ts[t.pos].token == IDENT && (ts[t.pos + 1].token == RPAREN || ts[t.pos + 1].token == COMMA)) {
        ParameterError(ts, pos, parameters);
      } else {
        var p := (t.result.value, ts[t.pos].str);
        var n := t.pos + 1;
        if ts[n].token == RPAREN {
          LastParameter(ts, pos, parameters);
          LastParameter(ts, pos, []);
          assert [] + [p] == [p];
        } else {
          ParameterStep(ts, pos, parameters);
          ParameterStep(ts, pos, []);
          assert [] + [p] == [p];
          ParametersAppend(ts, n + 1, parameters + [p]);
          ParametersAppend(ts, n + 1, [p]);
          var rest := ParameterLoop(ts, n + 1, []);
          if rest.result.Ok? {
            assert parameters + [p] + rest.result.value == parameters + ([p] + rest.result.value);
          }
        }
      }
    }
  }

  /** The parameter loop stops only on the `)`, which it leaves. */
  lemma {:induction false} ParametersStop(ts: seq<TokenView>, pos: nat, parameters: seq<(TypeExpression, string)>)
    requires pos <= |ts|
    ensures var r := ParameterLoop(ts, pos, parameters);
      r.result.Ok? ==> r.pos < |ts| && ts[r.pos].token == RPAREN
    decreases |ts| - pos
  {
    if pos < |ts| && ts[pos].token != RPAREN {
      var t := ParseTypeExpression(ts, pos);
      if t.result.Ok? && t.pos + 1 < |ts| && ts[t.pos].token == IDENT && ts[t.pos + 1].token == COMMA {
        ParametersStop(ts, t.pos + 2, parameters + [(t.result.value, ts[t.pos].str)]);
      }
    }
  }

  /**
   * The parameters in source order: each a type and a name, recorded as the
   * pair; after each comes `)`, which ends the list, or a comma; a comma
   * before the `)` is allowed.
   */
  lemma ParametersInOrder(ts: seq<TokenView>, pos: nat)
    requires pos < |ts|
    ensures ts[pos].token == RPAREN ==> ParameterLoop(ts, pos, []) == Parsed(Ok([]), pos)
    ensures var r := ParameterLoop(ts, pos, []);
      ts[pos].token != RPAREN && r.result.Ok? ==>
        var t := ParseTypeExpression(ts, pos);
        && t.result.Ok? && t.pos + 1 < |ts| && ts[t.pos].token == IDENT
        && var p, n := (t.result.value, ts[t.pos].str), t.pos + 1;
        && (ts[n].token == RPAREN ==> r == Parsed(Ok([p]), n))
        && (ts[n].token != RPAREN ==>
              && ts[n].token == COMMA
              && var rest := ParameterLoop(ts, n + 1, []);
              && rest.result.Ok? && r.result.value == [p] + rest.result.value && r.pos == rest.pos)
  {
    if ts[pos].token != RPAREN {
      var t := ParseTypeExpression(ts, pos);
      if t.result.Ok? && t.pos + 1 < |ts| && ts[t.pos].token == IDENT {
        var p, n := (t.result.value, ts[t.pos].str), t.pos + 1;
        assert [] + [p] == [p];
        if ts[n].token == RPAREN {
          LastParameter(ts, pos, []);
        } else if ts[n].token == COMMA {
          ParameterStep(ts, pos, []);
          ParametersAppend(ts, n + 1, [p]);
        }
      }
    }
  }

  /** `function`: the return type, the name and `(`, then the parameters up to the `)`. */
  lemma FunctionSignature(ts: seq<TokenView>, pos: nat)
    requires pos <= |ts|
    ensures var r := ParseFunction(ts, pos);
      r.result.Ok? ==>
        var t := ParseTypeExpression(ts, pos);
        && t.result.Ok? && t.pos + 1 < |ts| && ts[t.pos].token == IDENT && ts[t.pos + 1].token == LPAREN
        && var ps := ParameterLoop(ts, t.pos + 2, []);
        && ps.result.Ok? && ps.pos + 1 < |ts| && ts[ps.pos].token == RPAREN
        && r.result.value.name == ts[t.pos].str && r.result.value.returnType == t.result.value
        && r.result.value.parameter == ps.result.value
  {
    var t := ParseTypeExpression(ts, pos);
    if t.result.Ok? && t.pos + 1 < |ts| {
      ParametersStop(ts, t.pos + 2, []);
    }
  }

  /** Return type, name, `(` and parameters have been read, and a token follows the `)`. */
  predicate SignatureRead(ts: seq<TokenView>, pos: nat) {
    && pos <= |ts|
    && var t := ParseTypeExpression(ts, pos);
    && t.result.Ok? && t.pos + 1 < |ts| && ts[t.pos].token == IDENT && ts[t.pos + 1].token == LPAREN
    && var ps := ParameterLoop(ts, t.pos + 2, []);
    ps.result.Ok? && ps.pos + 1 < |ts|
  }

  /** The token after the `)` of the parameters. */
  function AfterParameters(ts: seq<TokenView>, pos: nat): (q: nat)
    requires SignatureRead(ts, pos)
    ensures q < |ts|
  {
    ParameterLoop(ts, ParseTypeExpression(ts, pos).pos + 2, []).pos + 1
  }

  /** The function a signature declares, with the statements given. */
  function Declared(ts: seq<TokenView>, pos: nat, statements: Option<Compound>): Function
    requires SignatureRead(ts, pos)
  {
    var t := ParseTypeExpression(ts, pos);
    Function(ts[t.pos].str, statements, ParameterLoop(ts, t.pos + 2, []).result.value, t.result.value)
  }

  /** `;` after the `)` makes the function a prototype, without statements, and ends it. */
  lemma Prototype(ts: seq<TokenView>, pos: nat)
    requires SignatureRead(ts, pos) && ts[AfterParameters(ts, pos)].token == SEMIC
    ensures ParseFunction(ts, pos) == Parsed(Ok(Declared(ts, pos, None)), AfterParameters(ts, pos) + 1)
  {
    var t := ParseTypeExpression(ts, pos);
    assert Expect(ts, t.pos, IDENT) == Parsed(Ok(ts[t.pos].str), t.pos + 1);
    assert Expect(ts, t.pos + 1, LPAREN).pos == t.pos + 2;
  }

  /** Any other token after the `)` starts the body, which the function then holds. */
  lemma Definition(ts: seq<TokenView>, pos: nat)
    requires SignatureRead(ts, pos) && ts[AfterParameters(ts, pos)].token != SEMIC
    ensures var b := ParseCompound(ts, AfterParameters(ts, pos));
      ParseFunction(ts, pos) == if b.result.Ok? then Parsed(Ok(Declared(ts, pos, Some(b.result.value))), b.pos) else Fail(b)
  {
    var t := ParseTypeExpression(ts, pos);
    assert Expect(ts, t.pos, IDENT) == Parsed(Ok(ts[t.pos].str), t.pos + 1);
    assert Expect(ts, t.pos + 1, LPAREN).pos == t.pos + 2;
  }
}
