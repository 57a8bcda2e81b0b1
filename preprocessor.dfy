/**
 * The macro expander of src/preprocessor.rs.  Each pass runs over a token
 * vector: a `#define` is recorded and echoed into the output, an `#include`
 * pastes the named file, and every other token is either a macro use, which
 * is replaced, or copied after a space.  A pass that replaced anything is
 * followed by a pass over its own output; the last pass drops the directive
 * lines.
 *
 * The file system `#include` reads is the map `files`, and the lexer's
 * pattern table is the parameter `rules`.  The functions below describe one
 * step of the source each, threading the cursor, the output, the macro list
 * and the `expanded` flag; the `Preprocessor` class runs the same steps on a
 * `Lexer` object.
 */
module Preprocessor {
  import opened Util
  import opened Tokens
  import opened Lexer

  /** `Macro`: a literal one, replaced by its text, or a function-like one with named parameters. */
  datatype Macro =
    | Literal(name: string, replacement: string)
    | Function(name: string, parameter: seq<string>, replacement: string)

  /** `macros.iter().find(|x| x.name() == name)`: the first macro defined with the name. */
  function Find(macros: seq<Macro>, name: string): Option<Macro> {
    if macros == [] then None
    else if macros[0].name == name then Some(macros[0])
    else Find(macros[1..], name)
  }

  /** The position of the first parameter called `name`. */
  function ParamIndex(params: seq<string>, name: string): Option<nat> {
    if params == [] then None
    else if params[0] == name then Some(0)
    else match ParamIndex(params[1..], name)
      case None => None
      case Some(k) => Some(k + 1)
  }

  /** What a pass carries from token to token. */
  datatype State = State(index: nat, out: string, macros: seq<Macro>, expanded: bool)

  /** A parsed parameter list: the names, the index of the closing `)`, and the output with the echo. */
  datatype Params = Params(names: seq<string>, index: nat, out: string)

  /** A parsed definition: the macro, the index after its line, and the output with the echo. */
  datatype Defined = Defined(m: Macro, index: nat, out: string)

  /** Split arguments: their texts and the index of the closing `)`. */
  datatype Args = Args(texts: seq<string>, index: nat)

  /** `input[start..end]`, which panics outside the text. */
  function Slice(input: string, start: nat, end: nat): (r: Result<string, Failure>)
    ensures r.Err? <==> !(start <= end <= |input|)
  {
    if start <= end <= |input| then Ok(input[start..end]) else Err(Panic)
  }

  /**
   * The parameter loop of `parse_define`, from just after `(`: a name, then
   * `)` to stop or `,` to go on.  The echo gets the names with commas.
   */
  function ParametersAt(ts: seq<TokenView>, i: nat, out: string, names: seq<string>): (r: Result<Params, Failure>)
    requires OneEof(ts) && i <= |ts|
    ensures r.Ok? ==> i < r.value.index < |ts|
    decreases |ts| - i
  {
    var e := ExpectAt(ts, i, IDENT);
    if e.result.Err? then Err(e.result.error)
    else
      var names' := names + [e.result.value];
      var out' := out + e.result.value;
      if ts[e.index].token == RPAREN then Ok(Params(names', e.index, out'))
      else
        var c := ExpectAt(ts, e.index, COMMA);
        if c.result.Err? then Err(c.result.error)
        else ParametersAt(ts, c.index, out' + ",", names')
  }

  /**
   * The end of `parse_define`, at index `j`: the replacement is the text
   * from where the token at the cursor begins to where the first token
   * after the line begins, and the echo ends with it and a newline.
   */
  function DefineBody(ts: seq<TokenView>, input: string, j: nat, out: string, name: string, params: Option<seq<string>>)
    : (r: Result<Defined, Failure>)
    requires OneEof(ts) && j <= |ts|
    ensures r.Ok? ==> j <= r.value.index <= |ts|
  {
    var k := ConsumeLineEnd(ts, j);
    var replacement :- Slice(input, ViewAt(ts, j).index, ViewAt(ts, k).index);
    var m := if params.Some? then Function(name, params.value, replacement) else Macro.Literal(name, replacement);
    Ok(Defined(m, k, out + replacement + "\n"))
  }

  /** `parse_define`, with the cursor just after `#`. */
  function DefineAt(ts: seq<TokenView>, input: string, i: nat, out: string): (r: Result<Defined, Failure>)
    requires OneEof(ts) && i <= |ts|
    ensures r.Ok? ==> i < r.value.index <= |ts|
  {
    var d := ExpectAt(ts, i, DEFINE);
    if d.result.Err? then Err(d.result.error)
    else
      var n := ExpectAt(ts, d.index, IDENT);
      if n.result.Err? then Err(n.result.error)
      else
        var name := n.result.value;
        DefineTail(ts, input, n.index, out + "\n#" + d.result.value + " " + name, name)
  }

  /** The rest of `parse_define`, at index `j` just after the name: the parameters if `(` follows, then the body. */
  function DefineTail(ts: seq<TokenView>, input: string, j: nat, echo: string, name: string): (r: Result<Defined, Failure>)
    requires OneEof(ts) && j < |ts|
    ensures r.Ok? ==> j <= r.value.index <= |ts|
  {
    if ts[j].token == LPAREN then
      var ps := ParametersAt(ts, j + 1, echo + "(", []);
      if ps.Err? then Err(ps.error)
      else DefineBody(ts, input, ps.value.index + 1, ps.value.out + ")", name, Some(ps.value.names))
    else DefineBody(ts, input, j, echo, name, None)
  }

  /**
   * `parse_macro`, with the cursor just after `#`: a definition is appended
   * to the macros; an include pastes the file, whose name is the string
   * literal without its quotes; any other token panics.
   */
  function ParseMacroAt(files: map<string, string>, ts: seq<TokenView>, input: string, st: State): (r: Result<State, Failure>)
    requires OneEof(ts) && st.index < |ts|
    ensures r.Ok? ==> st.index < r.value.index <= |ts|
  {
    var t := ts[st.index].token;
    if t == DEFINE then
      var d :- DefineAt(ts, input, st.index, st.out);
      Ok(st.(index := d.index, out := d.out, macros := st.macros + [d.m]))
    else if t == INCLUDE then
      var inc := ExpectAt(ts, st.index, INCLUDE);
      if inc.result.Err? then Err(inc.result.error)
      else
        var f := ExpectAt(ts, inc.index, STRINGLIT);
        if f.result.Err? then Err(f.result.error)
        else
          var quoted := f.result.value;
          if |quoted| < 2 then Err(Panic)
          else
            var fileName := quoted[1..|quoted| - 1];
            if fileName in files then Ok(st.(index := f.index, out := st.out + files[fileName], expanded := true))
            else Err(ErrorAt(ts, f.index, CannotOpen(fileName)))
    else Err(Panic)
  }

  /** The depth change a token makes in the argument scan. */
  function Delta(t: Token): int {
    if t == LPAREN then 1 else if t == RPAREN then -1 else 0
  }

  /** The parenthesis depth of `ts[i..j]`: opening minus closing parentheses. */
  function Depth(ts: seq<TokenView>, i: nat, j: nat): int
    requires j <= |ts|
    decreases j - i
  {
    if i >= j then 0 else Delta(ts[i].token) + Depth(ts, i + 1, j)
  }

  /** A token that ends an argument at depth 0. */
  predicate Closes(t: Token) {
    t == RPAREN || t == COMMA
  }

  /**
   * The inner loop of the argument scan in `expand_macros`: count `(` up,
   * stop at `)` or `,` at depth 0, count a nested `)` down, and panic at
   * EOF.  The result is the index of the token that ends the argument.
   */
  function ArgumentEnd(ts: seq<TokenView>, i: nat, depth: int): (r: Result<nat, Failure>)
    requires Terminated(ts) && i < |ts|
    ensures r.Ok? ==> i <= r.value < |ts|
    decreases |ts| - i
  {
    var t := ts[i].token;
    var d := if t == LPAREN then depth + 1 else depth;
    if Closes(t) && d == 0 then Ok(i)
    else if t == EOF then Err(Panic)
    else ArgumentEnd(ts, i + 1, if t == RPAREN then d - 1 else d)
  }

  /**
   * The outer loop of the argument scan: each argument is the source text
   * between where its first token begins and where its closing token begins.
   */
  function ArgumentsAt(ts: seq<TokenView>, input: string, i: nat, texts: seq<string>): (r: Result<Args, Failure>)
    requires OneEof(ts) && i < |ts|
    ensures r.Ok? ==> i <= r.value.index < |ts|
    decreases |ts| - i
  {
    var end :- ArgumentEnd(ts, i, 0);
    var text :- Slice(input, ts[i].index, ts[end].index);
    var texts' := texts + [text];
    if ts[end].token == RPAREN then Ok(Args(texts', end))
    else
      var c := ExpectAt(ts, end, COMMA);
      if c.result.Err? then Err(c.result.error)
      else ArgumentsAt(ts, input, c.index, texts')
  }

  /**
   * The replacement loop of `expand_macros` over the views of a function
   * macro's body: a parameter name becomes its argument and every other
   * token its own text.  A parameter with no argument panics.
   */
  function SubstituteAt(body: seq<TokenView>, i: nat, params: seq<string>, args: seq<string>, out: string)
    : (r: Result<string, Failure>)
    requires i <= |body|
    decreases |body| - i
  {
    var next := NextAt(body, i);
    var t, j := next.token, next.index;
    if t == EOF then Ok(out)
    else
      var text := LastStringAt(body, j);
      if t == IDENT && ParamIndex(params, text).Some? then
        var k := ParamIndex(params, text).value;
        if k < |args| then SubstituteAt(body, j, params, args, out + args[k]) else Err(Panic)
      else SubstituteAt(body, j, params, args, out + text)
  }

  /**
   * `expand_macros`, just after the token whose text is the name: no macro
   * copies a space and the name; a literal macro its replacement; a
   * function macro reads its arguments and pastes its body with them.
   */
  function ExpandMacroAt(rules: seq<Rule>, ts: seq<TokenView>, input: string, st: State): (r: Result<State, Failure>)
    requires OneEof(ts) && 0 < st.index < |ts|
    ensures r.Ok? ==> st.index <= r.value.index <= |ts|
  {
    var name := LastStringAt(ts, st.index);
    match Find(st.macros, name)
    case None => Ok(st.(out := st.out + " " + name))
    case Some(m) =>
      if m.Literal? then Ok(st.(out := st.out + m.replacement, expanded := true))
      else
      var open := ExpectAt(ts, st.index, LPAREN);
      if open.result.Err? then Err(open.result.error)
      else
        var args :- ArgumentsAt(ts, input, open.index, []);
        var close := ExpectAt(ts, args.index, RPAREN);
        if close.result.Err? then Err(close.result.error)
        else match Scan(rules, m.replacement, 0, Start)
          case None => Err(Panic)
          case Some(body) =>
            var out :- SubstituteAt(body, 0, m.parameter, args.texts, st.out);
            Ok(st.(index := close.index, out := out, expanded := true))
  }

  /** The main loop of `expand`: directives after `#`, macro expansion for every other token, up to EOF. */
  function PassAt(rules: seq<Rule>, files: map<string, string>, ts: seq<TokenView>, input: string, st: State)
    : (r: Result<State, Failure>)
    requires OneEof(ts) && st.index <= |ts|
    decreases |ts| - st.index
  {
    var next := NextAt(ts, st.index);
    var t, j := next.token, next.index;
    if t == EOF then Ok(st.(index := j))
    else if t == HASHTAG then
      var st' :- ParseMacroAt(files, ts, input, st.(index := j));
      PassAt(rules, files, ts, input, st')
    else
      var st' :- ExpandMacroAt(rules, ts, input, st.(index := j));
      PassAt(rules, files, ts, input, st')
  }

  /** The outcome of the whole expansion; `OutOfFuel` when the passes did not settle within the fuel. */
  datatype Expansion = Expanded(text: string) | Failed(failure: Failure) | OutOfFuel

  /**
   * `Preprocessor::new(content).expand()`: lex, run a pass, and run again on
   * the output while a pass expands something; the fuel bounds the number
   * of further passes.
   */
  function ExpandText(rules: seq<Rule>, files: map<string, string>, content: string, fuel: nat): Expansion
    decreases fuel, 1
  {
    match Scan(rules, content, 0, Start)
    case None => Failed(Panic)
    case Some(ts) =>
      ScanEndsWithOneEof(rules, content, 0, Start);
      ExpandViews(rules, files, content, ts, fuel)
  }

  /** `expand` on a fresh preprocessor whose lexer holds `ts`. */
  function ExpandViews(rules: seq<Rule>, files: map<string, string>, input: string, ts: seq<TokenView>, fuel: nat): Expansion
    requires OneEof(ts)
    decreases fuel, 0
  {
    match PassAt(rules, files, ts, input, State(0, "", [], false))
    case Err(f) => Failed(f)
    case Ok(st) =>
      if st.expanded then
        if fuel == 0 then OutOfFuel else ExpandText(rules, files, st.out, fuel - 1)
      else FinalOutput(rules, st.out)
  }

  /** The final pass: lex the output again, drop the directive lines and replace escaped newlines. */
  function FinalOutput(rules: seq<Rule>, text: string): Expansion {
    match Scan(rules, text, 0, Start)
    case None => Failed(Panic)
    case Some(ts) =>
      ScanEndsWithOneEof(rules, text, 0, Start);
      Expanded(ReplaceEscapes(FinalPass(ts, 0, "")))
  }

  /** `while peek == HASHTAG { consume_line }`: the index of the first token not starting a directive line. */
  function SkipDirectives(ts: seq<TokenView>, i: nat): (j: nat)
    requires OneEof(ts) && i < |ts|
    ensures i <= j < |ts| && ts[j].token != HASHTAG
    decreases |ts| - i
  {
    if ts[i].token == HASHTAG then
      ConsumeLineStops(ts, i);
      SkipDirectives(ts, ConsumeLineEnd(ts, i))
    else i
  }

  /**
   * The final loop of `expand`, as written: skip directive lines, then take
   * the next token's text and a space, until the token at the cursor is
   * EOF.  A directive line that runs up to EOF leaves the cursor on EOF,
   * which this takes as well, and the next `peek` indexes past the vector.
   */
  function FinalPassAsWritten(ts: seq<TokenView>, i: nat, out: string): (r: Result<string, Failure>)
    requires OneEof(ts) && i <= |ts|
    decreases |ts| - i
  {
    if i == |ts| then Err(Panic)
    else if ts[i].token == EOF then Ok(out)
    else
      var j := SkipDirectives(ts, i);
      FinalPassAsWritten(ts, j + 1, out + LastStringAt(ts, j + 1) + " ")
  }

  /** The final loop with the EOF left by the skipped lines ending it. */
  function FinalPass(ts: seq<TokenView>, i: nat, out: string): string
    requires OneEof(ts) && i <= |ts|
    decreases |ts| - i
  {
    if i == |ts| || ts[i].token == EOF then out
    else
      var j := SkipDirectives(ts, i);
      if ts[j].token == EOF then out
      else FinalPass(ts, j + 1, out + LastStringAt(ts, j + 1) + " ")
  }

  /** `output.replace("\\\n", " ")`: each escaped newline, left to right, becomes a space. */
  function ReplaceEscapes(s: string): string {
    if |s| < 2 then s
    else if s[0] == '\\' && s[1] == '\n' then " " + ReplaceEscapes(s[2..])
    else [s[0]] + ReplaceEscapes(s[1..])
  }

  /* ---------------------------------------------------------------- lookup */

  /** The lookup finds nothing exactly when no macro has the name, and otherwise the first that has it. */
  lemma {:induction false} FindIsFirst(macros: seq<Macro>, name: string)
    ensures Find(macros, name).None? <==> forall k :: 0 <= k < |macros| ==> macros[k].name != name
    ensures Find(macros, name).Some? ==> exists k ::
      && 0 <= k < |macros|
      && Find(macros, name) == Some(macros[k])
      && macros[k].name == name
      && forall j :: 0 <= j < k ==> macros[j].name != name
  {
    if macros != [] && macros[0].name != name {
      var tail := macros[1..];
      FindIsFirst(tail, name);
      if Find(tail, name).Some? {
        var k :| 0 <= k < |tail| && Find(tail, name) == Some(tail[k]) && tail[k].name == name
          && forall j :: 0 <= j < k ==> tail[j].name != name;
        assert macros[k + 1] == tail[k];
        forall j | 0 <= j < k + 1 ensures macros[j].name != name {
          if j > 0 {
            assert macros[j] == tail[j - 1];
          }
        }
      } else {
        forall k | 0 <= k < |macros| ensures macros[k].name != name {
          if k > 0 {
            assert macros[k] == tail[k - 1];
          }
        }
      }
    } else if macros != [] {
      assert Find(macros, name) == Some(macros[0]);
    }
  }

  /** Defining a name again does not change what it expands to: the earlier definition wins. */
  lemma {:induction false} EarlierDefinitionWins(macros: seq<Macro>, later: Macro, name: string)
    requires Find(macros, name).Some?
    ensures Find(macros + [later], name) == Find(macros, name)
  {
    assert (macros + [later])[0] == macros[0];
    if macros[0].name != name {
      assert (macros + [later])[1..] == macros[1..] + [later];
      EarlierDefinitionWins(macros[1..], later, name);
    }
  }

  /** A name not yet defined expands to the macro defined for it next. */
  lemma {:induction false} NewDefinitionIsFound(macros: seq<Macro>, later: Macro)
    requires Find(macros, later.name).None?
    ensures Find(macros + [later], later.name) == Some(later)
  {
    if macros == [] {
      assert macros + [later] == [later];
    } else {
      assert (macros + [later])[0] == macros[0];
      assert (macros + [later])[1..] == macros[1..] + [later];
      NewDefinitionIsFound(macros[1..], later);
    }
  }

  /** The first parameter with the name, if any. */
  lemma {:induction false} ParamIndexIsFirst(params: seq<string>, name: string)
    ensures ParamIndex(params, name).None? <==> name !in params
    ensures ParamIndex(params, name).Some? ==>
      && ParamIndex(params, name).value < |params|
      && params[ParamIndex(params, name).value] == name
      && forall j :: 0 <= j < ParamIndex(params, name).value ==> params[j] != name
  {
    if params != [] && params[0] != name {
      ParamIndexIsFirst(params[1..], name);
      assert params == [params[0]] + params[1..];
      if ParamIndex(params[1..], name).Some? {
        var k := ParamIndex(params[1..], name).value;
        forall j | 0 <= j < k + 1 ensures params[j] != name {
          if j > 0 {
            assert params[j] == params[1..][j - 1];
          }
        }
      }
    }
  }

  /* ------------------------------------------------------------- arguments */

  /**
   * The argument scan stops at the first `)` or `,` at depth 0, counting from
   * `depth`; reaching EOF before any such token panics.  Every token passed
   * is not EOF and leaves the depth above 0 or is no `)` or `,`.
   */
  lemma {:induction false} ArgumentEndIsFirstClose(ts: seq<TokenView>, i: nat, depth: int)
    requires Terminated(ts) && i < |ts| && depth >= 0
    ensures var r := ArgumentEnd(ts, i, depth);
      r.Ok? ==>
        && Closes(ts[r.value].token)
        && depth + Depth(ts, i, r.value) == 0
        && forall k :: i <= k < r.value ==> ts[k].token != EOF && !(Closes(ts[k].token) && depth + Depth(ts, i, k) == 0)
    ensures var r := ArgumentEnd(ts, i, depth);
      r.Err? ==>
        && r.error == Panic
        && exists e ::
             && i <= e < |ts|
             && ts[e].token == EOF
             && forall k :: i <= k <= e ==> !(Closes(ts[k].token) && depth + Depth(ts, i, k) == 0)
    decreases |ts| - i
  {
    var t := ts[i].token;
    var d := if t == LPAREN then depth + 1 else depth;
    if Closes(t) && d == 0 {
    } else if t == EOF {
      assert Depth(ts, i, i) == 0;
    } else {
      var d' := if t == RPAREN then d - 1 else d;
      assert d' == depth + Delta(t);
      ArgumentEndIsFirstClose(ts, i + 1, d');
      var r := ArgumentEnd(ts, i + 1, d');
      assert ArgumentEnd(ts, i, depth) == r;
      forall k | i + 1 <= k <= |ts| ensures depth + Depth(ts, i, k) == d' + Depth(ts, i + 1, k) {
      }
      if r.Err? {
        var e :| i + 1 <= e < |ts| && ts[e].token == EOF
          && forall k :: i + 1 <= k <= e ==> !(Closes(ts[k].token) && d' + Depth(ts, i + 1, k) == 0);
        assert forall k :: i <= k <= e ==> !(Closes(ts[k].token) && depth + Depth(ts, i, k) == 0);
      }
    }
  }

  /* ---------------------------------------------------------- substitution */

  /** What one token of a function macro's body becomes; `None` for a parameter with no argument. */
  function Piece(v: TokenView, params: seq<string>, args: seq<string>): Option<string> {
    var text := if v.token == ESCAPELINE then "\\\n" else v.str;
    if v.token == IDENT && ParamIndex(params, text).Some? then
      var k := ParamIndex(params, text).value;
      if k < |args| then Some(args[k]) else None
    else Some(text)
  }

  /** The pieces of the views in order, joined; `None` if one of them is. */
  function Pasted(views: seq<TokenView>, params: seq<string>, args: seq<string>): Option<string> {
    if views == [] then Some("")
    else match (Piece(views[0], params, args), Pasted(views[1..], params, args))
      case (Some(p), Some(rest)) => Some(p + rest)
      case _ => None
  }

  /**
   * The replacement loop pastes, in order, the argument of every parameter
   * name and the text of every other token of the body up to its EOF, and
   * panics exactly when a parameter has no argument.
   */
  lemma {:induction false} SubstituteIsPasted(body: seq<TokenView>, i: nat, params: seq<string>, args: seq<string>, out: string)
    requires OneEof(body) && i < |body|
    ensures var p := Pasted(body[i..|body| - 1], params, args);
      SubstituteAt(body, i, params, args, out) == if p.Some? then Ok(out + p.value) else Err(Panic)
    decreases |body| - i
  {
    var views := body[i..|body| - 1];
    if body[i].token == EOF {
      assert i == |body| - 1;
      assert views == [];
      assert out + "" == out;
    } else {
      assert views[0] == body[i];
      assert views[1..] == body[i + 1..|body| - 1];
      var piece := Piece(body[i], params, args);
      if piece.Some? {
        SubstituteIsPasted(body, i + 1, params, args, out + piece.value);
        var rest := Pasted(body[i + 1..|body| - 1], params, args);
        if rest.Some? {
          assert out + piece.value + rest.value == out + (piece.value + rest.value);
        }
      }
    }
  }

  /* ------------------------------------------------------------ definition */

  /** Parameter names as the echo writes them: separated by commas. */
  function Joined(names: seq<string>): string {
    if names == [] then ""
    else if |names| == 1 then names[0]
    else names[0] + "," + Joined(names[1..])
  }

  /**
   * The parameter list alternates names and commas up to `)`: the names are
   * the texts of the tokens at every second position, in order.
   */
  lemma {:induction false} ParametersAlternate(ts: seq<TokenView>, i: nat, out: string, names: seq<string>)
    requires OneEof(ts) && i <= |ts| && ParametersAt(ts, i, out, names).Ok?
    ensures var p := ParametersAt(ts, i, out, names).value;
      var n := |p.names| - |names|;
      && n > 0
      && p.names[..|names|] == names
      && p.index == i + 2 * n - 1
      && ts[p.index].token == RPAREN
      && (forall k :: 0 <= k < n ==> ts[i + 2 * k].token == IDENT && p.names[|names| + k] == ts[i + 2 * k].str)
      && (forall k :: 0 <= k < n - 1 ==> ts[i + 2 * k + 1].token == COMMA)
    decreases |ts| - i
  {
    ParametersStep(ts, i, out, names);
    var name := ts[i].str;
    var names' := names + [name];
    var p := ParametersAt(ts, i, out, names).value;
    if ts[i + 1].token != RPAREN {
      ParametersAlternate(ts, i + 2, out + name + ",", names');
      var n' := |p.names| - |names'|;
      assert p.names[..|names|] == p.names[..|names'|][..|names|];
      forall k | 0 <= k < n' + 1 ensures ts[i + 2 * k].token == IDENT && p.names[|names| + k] == ts[i + 2 * k].str {
        if k > 0 {
          assert i + 2 * k == i + 2 + 2 * (k - 1);
        } else {
          assert p.names[|names|] == names'[|names|];
        }
      }
      forall k | 0 <= k < n' ensures ts[i + 2 * k + 1].token == COMMA {
        if k > 0 {
          assert i + 2 * k + 1 == i + 2 + 2 * (k - 1) + 1;
        }
      }
    }
  }

  /** The echo of the parameter list writes the names joined by commas. */
  lemma {:induction false} ParametersEcho(ts: seq<TokenView>, i: nat, out: string, names: seq<string>)
    requires OneEof(ts) && i <= |ts| && ParametersAt(ts, i, out, names).Ok?
    ensures var p := ParametersAt(ts, i, out, names).value;
      && |names| < |p.names|
      && p.out == out + Joined(p.names[|names|..])
    decreases |ts| - i
  {
    ParametersStep(ts, i, out, names);
    var name := ts[i].str;
    var names' := names + [name];
    var p := ParametersAt(ts, i, out, names).value;
    if ts[i + 1].token == RPAREN {
      assert p.names[|names|..] == [name];
    } else {
      ParametersEcho(ts, i + 2, out + name + ",", names');
      ParametersAlternate(ts, i + 2, out + name + ",", names');
      var tail := p.names[|names'|..];
      assert p.names[|names|..] == [name] + tail;
      assert Joined([name] + tail) == name + "," + Joined(tail) by {
        assert ([name] + tail)[1..] == tail;
      }
    }
  }

  /** One round of the parameter loop: a name, then `)` to stop or `,` to go on. */
  lemma ParametersStep(ts: seq<TokenView>, i: nat, out: string, names: seq<string>)
    requires OneEof(ts) && i <= |ts| && ParametersAt(ts, i, out, names).Ok?
    ensures i + 1 < |ts| && ts[i].token == IDENT
    ensures ts[i + 1].token == RPAREN ==>
      ParametersAt(ts, i, out, names) == Ok(Params(names + [ts[i].str], i + 1, out + ts[i].str))
    ensures ts[i + 1].token != RPAREN ==>
      && ts[i + 1].token == COMMA
      && ParametersAt(ts, i, out, names) == ParametersAt(ts, i + 2, out + ts[i].str + ",", names + [ts[i].str])
  {
    var e := ExpectAt(ts, i, IDENT);
    assert e.result.Ok?;
    assert i < |ts| && ts[i].token == IDENT;
    assert e == Moved(Ok(ts[i].str), i + 1);
    if ts[i + 1].token != RPAREN {
      var c := ExpectAt(ts, i + 1, COMMA);
      assert c.result.Ok?;
      assert c.index == i + 2;
    }
  }

  /** The signature the echo writes after a macro's name: nothing, or the parameters in parentheses. */
  function Signature(m: Macro): string {
    if m.Function? then "(" + Joined(m.parameter) + ")" else ""
  }

  /** The definition line the echo re-renders: `#`, the directive, the name, the signature and the replacement. */
  function Echo(out: string, define: string, m: Macro): string {
    out + "\n#" + define + " " + m.name + Signature(m) + m.replacement + "\n"
  }

  /**
   * What a definition records, read off the tokens from `i`: `define`, a
   * name, and, exactly when `(` follows the name, a parameter list; then the
   * macro is function-like with the parameters in order.  The output gets
   * the echo of the whole definition line.
   */
  predicate Records(ts: seq<TokenView>, i: nat, out: string, d: Defined) {
    && i + 2 < |ts|
    && ts[i].token == DEFINE && ts[i + 1].token == IDENT
    && d.m.name == ts[i + 1].str
    && (d.m.Function? <==> ts[i + 2].token == LPAREN)
    && (d.m.Function? ==> forall k :: 0 <= k < |d.m.parameter| ==> i + 3 + 2 * k < |ts| && ts[i + 3 + 2 * k].str == d.m.parameter[k])
    && d.out == Echo(out, ts[i].str, d.m)
  }

  /** Every definition `parse_define` accepts is recorded as the tokens spell it. */
  lemma DefineRecords(ts: seq<TokenView>, input: string, i: nat, out: string)
    requires OneEof(ts) && i <= |ts| && DefineAt(ts, input, i, out).Ok?
    ensures Records(ts, i, out, DefineAt(ts, input, i, out).value)
  {
    DefineSteps(ts, input, i, out);
    if ts[i + 2].token == LPAREN {
      FunctionDefineRecords(ts, input, i, out);
    } else {
      LiteralDefineRecords(ts, input, i, out);
    }
  }

  lemma LiteralDefineRecords(ts: seq<TokenView>, input: string, i: nat, out: string)
    requires OneEof(ts) && i + 2 < |ts| && ts[i].token == DEFINE && ts[i + 1].token == IDENT && ts[i + 2].token != LPAREN
    requires DefineBody(ts, input, i + 2, out + "\n#" + ts[i].str + " " + ts[i + 1].str, ts[i + 1].str, None).Ok?
    ensures Records(ts, i, out, DefineBody(ts, input, i + 2, out + "\n#" + ts[i].str + " " + ts[i + 1].str, ts[i + 1].str, None).value)
  {
    var echo := out + "\n#" + ts[i].str + " " + ts[i + 1].str;
    DefineBodyRecords(ts, input, i + 2, echo, ts[i + 1].str, None);
    assert echo + "" == echo;
  }

  /** A parameter list after the name and the rest of the line make a function-like macro with those parameters. */
  lemma FunctionDefineRecords(ts: seq<TokenView>, input: string, i: nat, out: string)
    requires OneEof(ts) && i + 2 < |ts| && ts[i].token == DEFINE && ts[i + 1].token == IDENT && ts[i + 2].token == LPAREN
    requires var ps := ParametersAt(ts, i + 3, out + "\n#" + ts[i].str + " " + ts[i + 1].str + "(", []);
      && ps.Ok?
      && DefineBody(ts, input, ps.value.index + 1, ps.value.out + ")", ts[i + 1].str, Some(ps.value.names)).Ok?
    ensures var ps := ParametersAt(ts, i + 3, out + "\n#" + ts[i].str + " " + ts[i + 1].str + "(", []);
      Records(ts, i, out, DefineBody(ts, input, ps.value.index + 1, ps.value.out + ")", ts[i + 1].str, Some(ps.value.names)).value)
  {
    var name := ts[i + 1].str;
    var echo := out + "\n#" + ts[i].str + " " + name;
    ParameterList(ts, i + 3, echo);
    var ps := ParametersAt(ts, i + 3, echo + "(", []).value;
    DefineBodyRecords(ts, input, ps.index + 1, ps.out + ")", name, Some(ps.names));
  }

  /** A whole parameter list from `j`: the names stand at every second token, and the echo lists them in parentheses. */
  lemma ParameterList(ts: seq<TokenView>, j: nat, echo: string)
    requires OneEof(ts) && j <= |ts| && ParametersAt(ts, j, echo + "(", []).Ok?
    ensures var ps := ParametersAt(ts, j, echo + "(", []).value;
      && (forall k :: 0 <= k < |ps.names| ==> j + 2 * k < |ts| && ts[j + 2 * k].str == ps.names[k])
      && ps.out + ")" == echo + ("(" + Joined(ps.names) + ")")
  {
    ParametersAlternate(ts, j, echo + "(", []);
    ParametersEcho(ts, j, echo + "(", []);
    var ps := ParametersAt(ts, j, echo + "(", []).value;
    assert ps.names[0..] == ps.names;
    forall k | 0 <= k < |ps.names| ensures j + 2 * k < |ts| && ts[j + 2 * k].str == ps.names[k] {
      assert ps.names[0 + k] == ts[j + 2 * k].str;
    }
    Regroup(echo, "(", Joined(ps.names));
    Regroup(echo, "(" + Joined(ps.names), ")");
  }

  /** The rounds of `parse_define`: `define`, a name, and a parameter list exactly when `(` follows. */
  lemma DefineSteps(ts: seq<TokenView>, input: string, i: nat, out: string)
    requires OneEof(ts) && i <= |ts| && DefineAt(ts, input, i, out).Ok?
    ensures i + 2 < |ts| && ts[i].token == DEFINE && ts[i + 1].token == IDENT
    ensures var echo := out + "\n#" + ts[i].str + " " + ts[i + 1].str;
      ts[i + 2].token != LPAREN ==> DefineAt(ts, input, i, out) == DefineBody(ts, input, i + 2, echo, ts[i + 1].str, None)
    ensures var echo := out + "\n#" + ts[i].str + " " + ts[i + 1].str;
      var ps := ParametersAt(ts, i + 3, echo + "(", []);
      ts[i + 2].token == LPAREN ==>
        && ps.Ok?
        && DefineAt(ts, input, i, out) == DefineBody(ts, input, ps.value.index + 1, ps.value.out + ")", ts[i + 1].str, Some(ps.value.names))
  {
    var d := ExpectAt(ts, i, DEFINE);
    assert d.result.Ok?;
    assert i < |ts| && ts[i].token == DEFINE;
    assert d == Moved(Ok(ts[i].str), i + 1);
    var n := ExpectAt(ts, i + 1, IDENT);
    assert n.result.Ok?;
    assert n == Moved(Ok(ts[i + 1].str), i + 2);
  }

  /** The end of a definition records the macro and echoes its replacement and a newline. */
  lemma DefineBodyRecords(ts: seq<TokenView>, input: string, j: nat, out: string, name: string, params: Option<seq<string>>)
    requires OneEof(ts) && j <= |ts| && DefineBody(ts, input, j, out, name, params).Ok?
    ensures var d := DefineBody(ts, input, j, out, name, params).value;
      && d.m.name == name
      && (d.m.Function? <==> params.Some?)
      && (params.Some? ==> d.m.parameter == params.value)
      && d.out == out + d.m.replacement + "\n"
  {
  }

  /* ----------------------------------------------------------------- pass */

  /**
   * Replacing a macro use: no macro copies a space and the name; a literal
   * macro pastes its replacement as it stands.  Any expansion sets the
   * flag, and the macro list is never changed.
   */
  lemma ExpandMacroCases(rules: seq<Rule>, ts: seq<TokenView>, input: string, st: State)
    requires OneEof(ts) && 0 < st.index < |ts|
    ensures var name := LastStringAt(ts, st.index);
      var r := ExpandMacroAt(rules, ts, input, st);
      && (Find(st.macros, name).None? ==> r == Ok(st.(out := st.out + " " + name)))
      && (Find(st.macros, name).Some? && Find(st.macros, name).value.Literal? ==>
          r == Ok(st.(out := st.out + Find(st.macros, name).value.replacement, expanded := true)))
      && (r.Ok? ==> r.value.macros == st.macros && r.value.expanded == (st.expanded || Find(st.macros, name).Some?))
  {
  }

  /** What one step of a pass keeps: the macros defined so far, and the flag once it is set. */
  predicate Keeps(before: State, after: State) {
    && |before.macros| <= |after.macros|
    && after.macros[..|before.macros|] == before.macros
    && (before.expanded ==> after.expanded)
  }

  lemma KeepsTransitive(a: State, b: State, c: State)
    requires Keeps(a, b) && Keeps(b, c)
    ensures Keeps(a, c)
  {
    assert c.macros[..|b.macros|][..|a.macros|] == c.macros[..|a.macros|];
  }

  /** A directive appends at most one macro and keeps the flag. */
  lemma DirectiveKeeps(files: map<string, string>, ts: seq<TokenView>, input: string, st: State)
    requires OneEof(ts) && st.index < |ts|
    ensures var r := ParseMacroAt(files, ts, input, st);
      r.Ok? ==> Keeps(st, r.value)
  {
    var r := ParseMacroAt(files, ts, input, st);
    if r.Ok? {
      assert r.value.macros[..|st.macros|] == st.macros;
    }
  }

  /**
   * A pass reads the whole vector.  Definitions are appended to the macros
   * in order, and the flag, once set, stays set.
   */
  lemma {:induction false} PassKeepsDefinitions(rules: seq<Rule>, files: map<string, string>, ts: seq<TokenView>, input: string, st: State)
    requires OneEof(ts) && st.index <= |ts|
    ensures var r := PassAt(rules, files, ts, input, st);
      r.Ok? ==> r.value.index == |ts| && Keeps(st, r.value)
    decreases |ts| - st.index
  {
    var next := NextAt(ts, st.index);
    var t, j := next.token, next.index;
    if t == EOF {
      assert st.macros[..|st.macros|] == st.macros;
    } else {
      var here := st.(index := j);
      var next := if t == HASHTAG then ParseMacroAt(files, ts, input, here) else ExpandMacroAt(rules, ts, input, here);
      if next.Ok? {
        if t == HASHTAG {
          DirectiveKeeps(files, ts, input, here);
        } else {
          assert next.value.macros[..|st.macros|] == st.macros;
        }
        PassKeepsDefinitions(rules, files, ts, input, next.value);
        var r := PassAt(rules, files, ts, input, next.value);
        if r.Ok? {
          KeepsTransitive(st, next.value, r.value);
        }
      }
    }
  }

  /* ------------------------------------------------------------ expansion */

  /** More fuel changes nothing once the passes have settled. */
  lemma {:induction false} MoreFuelSameExpansion(rules: seq<Rule>, files: map<string, string>, content: string, fuel: nat)
    requires ExpandText(rules, files, content, fuel) != OutOfFuel
    ensures ExpandText(rules, files, content, fuel + 1) == ExpandText(rules, files, content, fuel)
    decreases fuel, 1
  {
    var scanned := Scan(rules, content, 0, Start);
    if scanned.Some? {
      ScanEndsWithOneEof(rules, content, 0, Start);
      MoreFuelSameViews(rules, files, content, scanned.value, fuel);
    }
  }

  /** The same for the passes over a scanned text. */
  lemma {:induction false} MoreFuelSameViews(rules: seq<Rule>, files: map<string, string>, input: string, ts: seq<TokenView>, fuel: nat)
    requires OneEof(ts) && ExpandViews(rules, files, input, ts, fuel) != OutOfFuel
    ensures ExpandViews(rules, files, input, ts, fuel + 1) == ExpandViews(rules, files, input, ts, fuel)
    decreases fuel, 0
  {
    var p := PassAt(rules, files, ts, input, State(0, "", [], false));
    if p.Ok? && p.value.expanded {
      assert fuel > 0;
      assert ExpandViews(rules, files, input, ts, fuel) == ExpandText(rules, files, p.value.out, fuel - 1);
      assert ExpandViews(rules, files, input, ts, fuel + 1) == ExpandText(rules, files, p.value.out, fuel);
      MoreFuelSameExpansion(rules, files, p.value.out, fuel - 1);
    }
  }

  /** A pass that expands something is followed by a pass over its output, with one unit of fuel less. */
  lemma ExpansionRepeats(rules: seq<Rule>, files: map<string, string>, content: string, ts: seq<TokenView>, fuel: nat)
    requires Scan(rules, content, 0, Start) == Some(ts) && OneEof(ts)
    ensures var st := PassAt(rules, files, ts, content, State(0, "", [], false));
      st.Ok? && st.value.expanded ==>
        ExpandText(rules, files, content, fuel + 1) == ExpandText(rules, files, st.value.out, fuel)
  {
  }

  /* ------------------------------------------------------------ final pass */

  /** The final pass drops a directive line: it goes on after `consume_line` as if the line were not there. */
  lemma FinalPassSkipsDirective(ts: seq<TokenView>, i: nat, out: string)
    requires OneEof(ts) && i < |ts| && ts[i].token == HASHTAG
    ensures FinalPass(ts, i, out) == FinalPass(ts, ConsumeLineEnd(ts, i), out)
  {
    ConsumeLineStops(ts, i);
    var k := ConsumeLineEnd(ts, i);
    assert k < |ts|;
  }

  /** A token outside directives is kept: its text and one space. */
  lemma FinalPassKeepsToken(ts: seq<TokenView>, i: nat, out: string)
    requires OneEof(ts) && i < |ts| && ts[i].token != HASHTAG && ts[i].token != EOF
    ensures FinalPass(ts, i, out) == FinalPass(ts, i + 1, out + LastStringAt(ts, i + 1) + " ")
  {
  }

  /** Whenever the final pass as written does not panic, it gives what the corrected one gives. */
  lemma {:induction false} FinalPassAgrees(ts: seq<TokenView>, i: nat, out: string)
    requires OneEof(ts) && i <= |ts| && FinalPassAsWritten(ts, i, out).Ok?
    ensures FinalPassAsWritten(ts, i, out).value == FinalPass(ts, i, out)
    decreases |ts| - i
  {
    if i < |ts| && ts[i].token != EOF {
      var j := SkipDirectives(ts, i);
      if ts[j].token != EOF {
        FinalPassAgrees(ts, j + 1, out + LastStringAt(ts, j + 1) + " ");
      }
    }
  }

  /**
   * When the directive lines skipped from `i` run up to EOF, the final pass
   * as written takes the EOF and then indexes past the vector.
   */
  lemma TrailingDirectivePanics(ts: seq<TokenView>, i: nat, out: string)
    requires OneEof(ts) && i < |ts| && ts[i].token != EOF && ts[SkipDirectives(ts, i)].token == EOF
    ensures FinalPassAsWritten(ts, i, out) == Err(Panic)
  {
    var j := SkipDirectives(ts, i);
    assert j == |ts| - 1;
  }

  /**
   * The text the first pass makes of `#define X 1` alone, "\n#define X 1\n",
   * as views: the echoed line on line 2 and EOF.
   */
  const DefinitionAlone: seq<TokenView> := [
    TokenView(HASHTAG, "#", 2, 1, 0),
    TokenView(DEFINE, "define", 2, 7, 2),
    TokenView(IDENT, "X", 2, 9, 8),
    TokenView(INTLITERAL, "1", 2, 11, 10),
    TokenView(EOF, "", 3, 0, 12)]

  /** Its one line runs up to EOF. */
  lemma DefinitionAloneIsOneLine()
    ensures OneEof(DefinitionAlone) && ConsumeLineEnd(DefinitionAlone, 0) == 4
  {
    var ts := DefinitionAlone;
    assert ConsumeLineLoop(ts, 3, 2) == 4;
    assert ConsumeLineLoop(ts, 2, 2) == 4;
    assert ConsumeLineLoop(ts, 1, 2) == 4;
  }

  /** The final pass as written panics on it; the corrected one gives the empty text. */
  lemma DefinitionAloneMakesFinalPassPanic()
    ensures OneEof(DefinitionAlone)
    ensures FinalPassAsWritten(DefinitionAlone, 0, "") == Err(Panic)
    ensures FinalPass(DefinitionAlone, 0, "") == ""
  {
    DefinitionAloneIsOneLine();
    var ts := DefinitionAlone;
    assert SkipDirectives(ts, 0) == SkipDirectives(ts, 4);
    TrailingDirectivePanics(ts, 0, "");
  }

  /** A text in which no backslash stands right before a newline. */
  predicate NoEscape(s: string) {
    forall k :: 0 <= k < |s| - 1 ==> !(s[k] == '\\' && s[k + 1] == '\n')
  }

  /** No escaped newline is left after the replacement. */
  lemma {:induction false} ReplaceEscapesLeavesNone(s: string)
    ensures NoEscape(ReplaceEscapes(s))
    decreases |s|
  {
    var r := ReplaceEscapes(s);
    if |s| >= 2 {
      var rest;
      if s[0] == '\\' && s[1] == '\n' {
        rest := ReplaceEscapes(s[2..]);
        ReplaceEscapesLeavesNone(s[2..]);
        assert r == " " + rest;
      } else {
        rest := ReplaceEscapes(s[1..]);
        ReplaceEscapesLeavesNone(s[1..]);
        ReplaceEscapesHead(s[1..]);
        assert r == [s[0]] + rest;
      }
      forall k | 0 <= k < |r| - 1 ensures !(r[k] == '\\' && r[k + 1] == '\n') {
        if k > 0 {
          assert r[k] == rest[k - 1] && r[k + 1] == rest[(k - 1) + 1];
        }
      }
    }
  }

  /** The replacement starts with the text's first character or with the space of a replaced escape. */
  lemma ReplaceEscapesHead(s: string)
    requires |s| > 0
    ensures |ReplaceEscapes(s)| > 0
    ensures ReplaceEscapes(s)[0] == s[0] || (ReplaceEscapes(s)[0] == ' ' && s[0] == '\\')
  {
  }

  /** A text without escaped newlines is left as it is. */
  lemma {:induction false} ReplaceEscapesKeepsPlain(s: string)
    requires NoEscape(s)
    ensures ReplaceEscapes(s) == s
    decreases |s|
  {
    if |s| >= 2 {
      forall k | 0 <= k < |s[1..]| - 1 ensures !(s[1..][k] == '\\' && s[1..][k + 1] == '\n') {
        assert s[1..][k] == s[k + 1] && s[1..][k + 1] == s[k + 2];
      }
      ReplaceEscapesKeepsPlain(s[1..]);
      assert [s[0]] + s[1..] == s;
    }
  }

  /* ------------------------------------------------------------ the object */

  /**
   * `Preprocessor::new`: a lexer over the content, no macros yet, nothing
   * expanded; `null` where lexing the content panics.
   */
  method NewPreprocessor(rules: seq<Rule>, files: map<string, string>, content: string) returns (p: Preprocessor?)
    ensures p == null <==> Scan(rules, content, 0, Start).None?
    ensures p != null ==>
      && fresh(p) && fresh(p.lexer) && p.Valid() && p.Fresh()
      && p.rules == rules && p.files == files && p.input == content
      && p.lexer.tokens == Scan(rules, content, 0, Start).value
  {
    var lexer := NewLexer(rules, content);
    if lexer == null {
      return null;
    }
    p := new Preprocessor(rules, files, lexer, content);
  }

  /**
   * The last step of `expand`: lex the output once more and join the token
   * texts with spaces, skipping the directive lines, then turn escaped
   * newlines into spaces.  The loop stops at the EOF that skipping a
   * trailing directive line reaches (`FinalPassAsWritten` is the loop
   * without that stop).
   */
  method JoinTokens(rules: seq<Rule>, text: string) returns (r: Expansion)
    ensures r == FinalOutput(rules, text)
  {
    var lexer := NewLexer(rules, text);
    if lexer == null {
      return Failed(Panic);
    }
    ghost var ts := lexer.tokens;
    ghost var joined := FinalPass(ts, 0, "");
    var output := "";
    while lexer.Peek() != EOF
      invariant lexer.Valid() && lexer.tokens == ts && lexer.index < |ts|
      invariant joined == FinalPass(ts, lexer.index, output)
      decreases |ts| - lexer.index
    {
      FinalPassStep(ts, lexer.index, output);
      SkipDirectiveLines(lexer);
      if lexer.Peek() == EOF {
        break;
      }
      var _ := lexer.Next();
      var text := lexer.LastString();
      output := output + text + " ";
    }
    r := Expanded(ReplaceEscapes(output));
  }

  /** One round of the final loop: skip the directive lines, then stop at EOF or take the next token. */
  lemma FinalPassStep(ts: seq<TokenView>, i: nat, out: string)
    requires OneEof(ts) && i < |ts| && ts[i].token != EOF
    ensures var j := SkipDirectives(ts, i);
      && (ts[j].token == EOF ==> FinalPass(ts, i, out) == out)
      && (ts[j].token != EOF ==> FinalPass(ts, i, out) == FinalPass(ts, j + 1, out + LastStringAt(ts, j + 1) + " "))
  {
  }

  /** `while lexer.peek() == HASHTAG { lexer.consume_line() }`. */
  method SkipDirectiveLines(lexer: Lexer)
    requires lexer.Valid() && lexer.index < |lexer.tokens|
    modifies lexer
    ensures lexer.Valid() && lexer.index == SkipDirectives(lexer.tokens, old(lexer.index))
  {
    ghost var ts, from := lexer.tokens, lexer.index;
    while lexer.Peek() == HASHTAG
      invariant lexer.Valid() && from <= lexer.index < |ts|
      invariant SkipDirectives(ts, from) == SkipDirectives(ts, lexer.index)
      decreases |ts| - lexer.index
    {
      ConsumeLineStops(ts, lexer.index);
      lexer.ConsumeLine();
    }
  }

  /** `Preprocessor`: the lexer over its input, the macros defined so far, and whether a pass replaced anything. */
  class Preprocessor {
    /** The lexer's pattern table, handed on to the lexers this creates. */
    const rules: seq<Rule>
    /** The files an `#include` can read, by name. */
    const files: map<string, string>
    const lexer: Lexer
    const input: string
    var macros: seq<Macro>
    var expanded: bool

    ghost predicate Valid()
      reads this, lexer
    {
      lexer.Valid()
    }

    /** A preprocessor that has not read anything yet. */
    ghost predicate Fresh()
      reads this, lexer
    {
      lexer.index == 0 && macros == [] && !expanded
    }

    constructor (rules: seq<Rule>, files: map<string, string>, lexer: Lexer, input: string)
      requires lexer.Valid() && lexer.index == 0
      ensures Valid() && Fresh()
      ensures this.rules == rules && this.files == files && this.lexer == lexer && this.input == input
    {
      this.rules := rules;
      this.files := files;
      this.lexer := lexer;
      this.input := input;
      macros := [];
      expanded := false;
    }

    /** What the step functions carry, read off the object, with `out` the output so far. */
    ghost function Snapshot(out: string): State
      reads this, lexer
    {
      State(lexer.index, out, macros, expanded)
    }

    /** The object and the returned output are where the step function `spec` leads, or the same failure. */
    ghost predicate Reached(r: Result<string, Failure>, spec: Result<State, Failure>)
      reads this, lexer
    {
      match spec
      case Err(f) => r == Err(f)
      case Ok(st) => r == Ok(st.out) && lexer.index == st.index && macros == st.macros && expanded == st.expanded
    }

    /** `parse_define`, with the cursor just after `#`: the macro, with its echo appended to `out`. */
    method ParseDefine(out: string) returns (r: Result<Defined, Failure>)
      requires Valid()
      modifies lexer
      ensures Valid()
      ensures r == DefineAt(lexer.tokens, input, old(lexer.index), out)
      ensures r.Ok? ==> lexer.index == r.value.index
    {
      ghost var ts := lexer.tokens;
      var define := lexer.Expect(DEFINE);
      if define.Err? {
        return Err(define.error);
      }
      var name := lexer.Expect(IDENT);
      if name.Err? {
        return Err(name.error);
      }
      var output := out + "\n#" + define.value + " " + name.value;
      var parameter: Option<seq<string>> := None;
      if lexer.Peek() == LPAREN {
        var _ := lexer.Next();
        output := output + "(";
        var ps := ParseParameters(output);
        if ps.Err? {
          return Err(ps.error);
        }
        output := ps.value.out;
        parameter := Some(ps.value.names);
        var _ := lexer.Next();
        output := output + ")";
      }
      r := ParseBody(output, name.value, parameter);
    }

    /** The end of `parse_define`: the rest of the line is the replacement, echoed with a newline. */
    method ParseBody(out: string, name: string, parameter: Option<seq<string>>) returns (r: Result<Defined, Failure>)
      requires Valid()
      modifies lexer
      ensures Valid()
      ensures r == DefineBody(lexer.tokens, input, old(lexer.index), out, name, parameter)
      ensures r.Ok? ==> lexer.index == r.value.index
    {
      var startIndex := lexer.CurrentIndex();
      lexer.ConsumeLine();
      var endIndex := lexer.CurrentIndex();
      if !(startIndex <= endIndex <= |input|) {
        return Err(Panic);
      }
      var replacement := input[startIndex..endIndex];
      var m := if parameter.Some? then Function(name, parameter.value, replacement) else Macro.Literal(name, replacement);
      r := Ok(Defined(m, lexer.index, out + replacement + "\n"));
    }

    /** The parameter loop of `parse_define`, just after `(`: the names up to `)`, echoed into `out`. */
    method ParseParameters(out: string) returns (r: Result<Params, Failure>)
      requires Valid()
      modifies lexer
      ensures Valid()
      ensures r == ParametersAt(lexer.tokens, old(lexer.index), out, [])
      ensures r.Ok? ==> lexer.index == r.value.index
    {
      ghost var ts := lexer.tokens;
      ghost var all := ParametersAt(ts, lexer.index, out, []);
      var output := out;
      var parameterList: seq<string> := [];
      while true
        invariant Valid() && lexer.tokens == ts
        invariant all == ParametersAt(ts, lexer.index, output, parameterList)
        decreases |ts| - lexer.index
      {
        var name := lexer.Expect(IDENT);
        if name.Err? {
          return Err(name.error);
        }
        output := output + name.value;
        parameterList := parameterList + [name.value];
        if lexer.Peek() == RPAREN {
          assert all == Ok(Params(parameterList, lexer.index, output));
          break;
        }
        var comma := lexer.Expect(COMMA);
        if comma.Err? {
          return Err(comma.error);
        }
        output := output + ",";
      }
      r := Ok(Params(parameterList, lexer.index, output));
    }

    /**
     * `parse_macro`, with the cursor just after `#`: a definition joins the
     * macros; an include marks the pass as expanding and pastes the file.
     */
    method ParseMacro(out: string) returns (r: Result<string, Failure>)
      requires Valid() && lexer.index < |lexer.tokens|
      modifies this, lexer
      ensures Valid()
      ensures Reached(r, ParseMacroAt(files, lexer.tokens, input, old(Snapshot(out))))
    {
      var t := lexer.Peek();
      if t == DEFINE {
        var d := ParseDefine(out);
        if d.Err? {
          return Err(d.error);
        }
        macros := macros + [d.value.m];
        return Ok(d.value.out);
      }
      if t == INCLUDE {
        expanded := true;
        // the peek has seen INCLUDE, so this cannot fail
        var _ := lexer.Expect(INCLUDE);
        var name := lexer.Expect(STRINGLIT);
        if name.Err? {
          return Err(name.error);
        }
        if |name.value| < 2 {
          return Err(Panic);
        }
        var fileName := name.value[1..|name.value| - 1];
        if fileName !in files {
          return Err(lexer.Error(CannotOpen(fileName)));
        }
        return Ok(out + files[fileName]);
      }
      return Err(Panic);
    }

    /**
     * The argument scan of `expand_macros`, just after `(`: each argument
     * runs to a `)` or `,` at depth 0; the result ends at the closing `)`.
     */
    method ParseArguments() returns (r: Result<Args, Failure>)
      requires Valid() && lexer.index < |lexer.tokens|
      modifies lexer
      ensures Valid()
      ensures r == ArgumentsAt(lexer.tokens, input, old(lexer.index), [])
      ensures r.Ok? ==> lexer.index == r.value.index
    {
      ghost var ts := lexer.tokens;
      ghost var all := ArgumentsAt(ts, input, lexer.index, []);
      var arguments: seq<string> := [];
      while true
        invariant Valid() && lexer.tokens == ts && lexer.index < |ts|
        invariant all == ArgumentsAt(ts, input, lexer.index, arguments)
        decreases |ts| - lexer.index
      {
        ghost var first := lexer.index;
        var parathese := 0;
        var startIndex := lexer.CurrentIndex();
        while true
          invariant Valid() && lexer.tokens == ts && first <= lexer.index < |ts|
          invariant ArgumentEnd(ts, first, 0) == ArgumentEnd(ts, lexer.index, parathese)
          decreases |ts| - lexer.index
        {
          if lexer.Peek() == LPAREN {
            parathese := parathese + 1;
          }
          if (lexer.Peek() == RPAREN || lexer.Peek() == COMMA) && parathese == 0 {
            break;
          }
          if lexer.Peek() == RPAREN {
            parathese := parathese - 1;
          }
          if lexer.Peek() == EOF {
            return Err(Panic);
          }
          var _ := lexer.Next();
        }
        var endIndex := lexer.CurrentIndex();
        if !(startIndex <= endIndex <= |input|) {
          return Err(Panic);
        }
        arguments := arguments + [input[startIndex..endIndex]];
        if lexer.Peek() == RPAREN {
          assert all == Ok(Args(arguments, lexer.index));
          break;
        }
        // the scan stopped at `)` or `,`, so this cannot fail
        var _ := lexer.Expect(COMMA);
      }
      r := Ok(Args(arguments, lexer.index));
    }

    /**
     * `expand_macros`, just after the name: a use of a macro marks the pass
     * as expanding and pastes its replacement, a function macro's with the
     * arguments put in; any other token is copied after a space.
     */
    method ExpandMacros(out: string) returns (r: Result<string, Failure>)
      requires Valid() && 0 < lexer.index < |lexer.tokens|
      modifies this, lexer
      ensures Valid()
      ensures Reached(r, ExpandMacroAt(rules, lexer.tokens, input, old(Snapshot(out))))
    {
      var name := lexer.LastString();
      var found := Find(macros, name);
      if found.None? {
        return Ok(out + " " + name);
      }
      var m := found.value;
      expanded := true;
      if m.Literal? {
        return Ok(out + m.replacement);
      }
      var open := lexer.Expect(LPAREN);
      if open.Err? {
        return Err(open.error);
      }
      var arguments := ParseArguments();
      if arguments.Err? {
        return Err(arguments.error);
      }
      var close := lexer.Expect(RPAREN);
      if close.Err? {
        return Err(close.error);
      }
      var replacementLexer := NewLexer(rules, m.replacement);
      if replacementLexer == null {
        return Err(Panic);
      }
      r := Substitute(replacementLexer, m.parameter, arguments.value.texts, out);
    }

    /** The replacement loop of `expand_macros`: run over the body's tokens, putting arguments for parameters. */
    static method Substitute(body: Lexer, parameter: seq<string>, arguments: seq<string>, out: string)
      returns (r: Result<string, Failure>)
      requires body.Valid()
      modifies body
      ensures r == SubstituteAt(body.tokens, old(body.index), parameter, arguments, out)
    {
      ghost var all := SubstituteAt(body.tokens, body.index, parameter, arguments, out);
      var output := out;
      while true
        invariant body.Valid()
        invariant all == SubstituteAt(body.tokens, body.index, parameter, arguments, output)
        decreases |body.tokens| - body.index
      {
        var t := body.Next();
        if t == EOF {
          break;
        }
        var text := body.LastString();
        var index := if t == IDENT then ParamIndex(parameter, text) else None;
        if index.Some? {
          if index.value >= |arguments| {
            return Err(Panic);
          }
          output := output + arguments[index.value];
        } else {
          output := output + text;
        }
      }
      r := Ok(output);
    }

    /**
     * `expand`: one pass over the tokens, then a pass over its output by a
     * new preprocessor while the pass expanded something, at most `fuel`
     * more times, and the final join.
     */
    method Expand(fuel: nat) returns (r: Expansion)
      requires Valid() && Fresh()
      modifies this, lexer
      ensures r == ExpandViews(rules, files, input, lexer.tokens, fuel)
      decreases fuel
    {
      ghost var ts := lexer.tokens;
      ghost var pass := PassAt(rules, files, ts, input, Snapshot(""));
      var output := "";
      while true
        invariant Valid() && lexer.tokens == ts
        invariant pass == PassAt(rules, files, ts, input, Snapshot(output))
        decreases |ts| - lexer.index
      {
        var token := lexer.Next();
        if token == HASHTAG {
          var o := ParseMacro(output);
          if o.Err? {
            return Failed(o.error);
          }
          output := o.value;
          continue;
        }
        if token == EOF {
          break;
        }
        var o := ExpandMacros(output);
        if o.Err? {
          return Failed(o.error);
        }
        output := o.value;
      }
      if expanded {
        if fuel == 0 {
          return OutOfFuel;
        }
        var child := NewPreprocessor(rules, files, output);
        if child == null {
          return Failed(Panic);
        }
        ScanEndsWithOneEof(rules, output, 0, Start);
        r := child.Expand(fuel - 1);
        return;
      }
      r := JoinTokens(rules, output);
    }
  }
}
