/**
 * The scope the type-checking parser keeps (the `Scope` of src/parser.rs,
 * whose methods the files under src/ast call: `push`, `pop`, `add`,
 * `contains`, `get`, `get_structs`, `add_stack` and `stack_size`).
 *
 * It is a stack of frames, each binding variables, structs, typedefs and
 * functions, searched innermost first, and one stack-size counter.  Adding
 * a variable reserves its size on the stack, `add_stack` reserves more,
 * and nothing gives stack space back: the counter only grows.
 */
module ParserScope {
  import opened Util
  import opened AstTypes
  import opened TypedAst
  import Scopes

  /** The names one level of the scope binds; its structs in definition order. */
  datatype Frame = Frame(
    variables: map<string, Variable>,
    structs: seq<Struct>,
    typedefs: map<string, TypeDefinition>,
    functions: map<string, Function>)

  const EmptyFrame: Frame := Frame(map[], [], map[], map[])

  /** The frames, innermost last, and the bytes reserved so far. */
  datatype Scope = Scope(frames: seq<Frame>, stackSize: nat)

  /** `Scope::new`: no frames and nothing reserved. */
  const NewScope: Scope := Scope([], 0)

  /** `push`: a fresh innermost frame. */
  function Push(s: Scope): (r: Scope)
    ensures |r.frames| == |s.frames| + 1 && Scopes.Below(r.frames) == s.frames
    ensures r.frames[|s.frames|] == EmptyFrame && r.stackSize == s.stackSize
  {
    Scope(s.frames + [EmptyFrame], s.stackSize)
  }

  /** `pop`: drop the innermost frame; the reserved stack stays reserved. */
  function Pop(s: Scope): (r: Scope)
    ensures r.frames == Scopes.Below(s.frames) && r.stackSize == s.stackSize
  {
    Scope(Scopes.Below(s.frames), s.stackSize)
  }

  /** `add_stack`: reserve `n` more bytes. */
  function AddStack(s: Scope, n: nat): (r: Scope)
    ensures r.stackSize == s.stackSize + n && r.frames == s.frames
  {
    s.(stackSize := s.stackSize + n)
  }

  /** The scope with its innermost frame replaced. */
  function WithTop(s: Scope, top: Frame): (r: Scope)
    requires s.frames != []
    ensures |r.frames| == |s.frames| && Scopes.Below(r.frames) == Scopes.Below(s.frames)
    ensures r.frames[|s.frames| - 1] == top && r.stackSize == s.stackSize
  {
    var r := s.(frames := s.frames[..|s.frames| - 1] + [top]);
    assert r.frames[..|r.frames| - 1] == s.frames[..|s.frames| - 1];
    r
  }

  /** The innermost frame. */
  function Top(s: Scope): Frame
    requires s.frames != []
  {
    s.frames[|s.frames| - 1]
  }

  /**
   * `add` of a variable: bind it in the innermost frame and reserve its
   * size.  With no frame open there is nowhere to bind it.
   */
  function AddVariable(s: Scope, v: Variable): (r: Scope)
    ensures r.stackSize == s.stackSize + Size(v.dataType)
  {
    var bound := if s.frames == [] then s else WithTop(s, Top(s).(variables := Top(s).variables[v.name := v]));
    bound.(stackSize := s.stackSize + Size(v.dataType))
  }

  /** `add` of a struct: append it to the innermost frame's structs. */
  function AddStruct(s: Scope, x: Struct): (r: Scope)
    ensures r.stackSize == s.stackSize
  {
    if s.frames == [] then s else WithTop(s, Top(s).(structs := Top(s).structs + [x]))
  }

  /** `add` of a typedef: bind it under its name in the innermost frame. */
  function AddTypedef(s: Scope, d: TypeDefinition): (r: Scope)
    ensures r.stackSize == s.stackSize
  {
    if s.frames == [] then s else WithTop(s, Top(s).(typedefs := Top(s).typedefs[d.name := d]))
  }

  /** `add` of a function: bind it under its name in the innermost frame. */
  function AddFunction(s: Scope, f: Function): (r: Scope)
    ensures r.stackSize == s.stackSize
  {
    if s.frames == [] then s else WithTop(s, Top(s).(functions := Top(s).functions[f.name := f]))
  }

  /** The variable bindings of each frame. */
  function Variables(frames: seq<Frame>): (r: seq<map<string, Variable>>)
    ensures |r| == |frames| && forall k :: 0 <= k < |frames| ==> r[k] == frames[k].variables
  {
    seq(|frames|, k requires 0 <= k < |frames| => frames[k].variables)
  }

  /** The typedef bindings of each frame. */
  function Typedefs(frames: seq<Frame>): (r: seq<map<string, TypeDefinition>>)
    ensures |r| == |frames| && forall k :: 0 <= k < |frames| ==> r[k] == frames[k].typedefs
  {
    seq(|frames|, k requires 0 <= k < |frames| => frames[k].typedefs)
  }

  /** The function bindings of each frame. */
  function Functions(frames: seq<Frame>): (r: seq<map<string, Function>>)
    ensures |r| == |frames| && forall k :: 0 <= k < |frames| ==> r[k] == frames[k].functions
  {
    seq(|frames|, k requires 0 <= k < |frames| => frames[k].functions)
  }

  /** `get_structs`: every struct in scope, innermost frame first, each frame in definition order. */
  function Structs(frames: seq<Frame>): seq<Struct>
    decreases |frames|
  {
    if frames == [] then [] else frames[|frames| - 1].structs + Structs(frames[..|frames| - 1])
  }

  /** The first struct of `structs` with the given name. */
  function Named(structs: seq<Struct>, name: string): (r: Option<Struct>)
    ensures r.Some? ==> r.value in structs && r.value.name == name
    ensures r.None? <==> forall k :: 0 <= k < |structs| ==> structs[k].name != name
  {
    if structs == [] then None
    else if structs[0].name == name then Some(structs[0])
    else Named(structs[1..], name)
  }

  /** `get::<Variable>`: the variable of that name in the innermost frame binding it. */
  function GetVariable(s: Scope, name: string): Option<Variable> {
    Scopes.Lookup(Variables(s.frames), name)
  }

  /** `get::<Rc<Struct>>`: the struct of that name met first in `get_structs` order. */
  function GetStruct(s: Scope, name: string): Option<Struct> {
    Named(Structs(s.frames), name)
  }

  /** `get::<TypeDefinition>`. */
  function GetTypedef(s: Scope, name: string): Option<TypeDefinition> {
    Scopes.Lookup(Typedefs(s.frames), name)
  }

  /** `get::<Rc<Function>>`. */
  function GetFunction(s: Scope, name: string): Option<Function> {
    Scopes.Lookup(Functions(s.frames), name)
  }

  /**
   * The scope `b` reached from `a` by work that opened and closed its own
   * frames: as many frames, the same ones below the innermost, and no
   * stack given back.
   */
  predicate Extends(a: Scope, b: Scope) {
    |a.frames| == |b.frames| && Scopes.Below(a.frames) == Scopes.Below(b.frames) && a.stackSize <= b.stackSize
  }

  /** Every add keeps to the innermost frame. */
  lemma AddsExtend(s: Scope, v: Variable, x: Struct, d: TypeDefinition, f: Function, n: nat)
    ensures Extends(s, AddVariable(s, v)) && Extends(s, AddStruct(s, x))
    ensures Extends(s, AddTypedef(s, d)) && Extends(s, AddFunction(s, f)) && Extends(s, AddStack(s, n))
  {
  }

  /**
   * Closing a frame after work inside it that extends the freshly opened
   * scope gives back the frames as they were before the push; only the
   * stack size may have grown.
   */
  lemma PopAfterPush(s: Scope, inner: Scope)
    requires Extends(Push(s), inner)
    ensures Pop(inner) == s.(stackSize := inner.stackSize)
  {
  }

  /** An added variable is found under its name, and it shadows outer bindings. */
  lemma AddVariableFinds(s: Scope, v: Variable, other: string)
    requires s.frames != []
    ensures GetVariable(AddVariable(s, v), v.name) == Some(v)
    ensures other != v.name ==> GetVariable(AddVariable(s, v), other) == GetVariable(s, other)
  {
    var before := Variables(s.frames);
    assert Variables(AddVariable(s, v).frames) == Scopes.Bind(before, v.name, v);
    Scopes.BindShadows(before, v.name, v, other);
  }

  /** An added typedef or function is found under its name. */
  lemma AddNamedFinds(s: Scope, d: TypeDefinition, f: Function)
    requires s.frames != []
    ensures GetTypedef(AddTypedef(s, d), d.name) == Some(d)
    ensures GetFunction(AddFunction(s, f), f.name) == Some(f)
  {
    assert Typedefs(AddTypedef(s, d).frames) == Scopes.Bind(Typedefs(s.frames), d.name, d);
    Scopes.BindShadows(Typedefs(s.frames), d.name, d, d.name);
    assert Functions(AddFunction(s, f).frames) == Scopes.Bind(Functions(s.frames), f.name, f);
    Scopes.BindShadows(Functions(s.frames), f.name, f, f.name);
  }

  /**
   * `get_structs` lists the innermost frame's structs first, in the order
   * they were added, the newest last; an added struct is listed.
   */
  lemma AddStructLists(s: Scope, x: Struct)
    requires s.frames != []
    ensures Structs(AddStruct(s, x).frames) == Top(s).structs + [x] + Structs(Scopes.Below(s.frames))
    ensures x in Structs(AddStruct(s, x).frames)
  {
    var r := AddStruct(s, x).frames;
    assert r[..|r| - 1] == s.frames[..|s.frames| - 1];
  }

  /** A struct name unused in scope is found once a struct of that name is added. */
  lemma AddStructFinds(s: Scope, x: Struct)
    requires s.frames != [] && GetStruct(s, x.name).None?
    ensures GetStruct(AddStruct(s, x), x.name) == Some(x)
  {
    AddStructLists(s, x);
    var top := Top(s).structs;
    var rest := Structs(Scopes.Below(s.frames));
    assert Structs(s.frames) == top + rest;
    NamedAppend(top, [x] + rest, x.name);
    NamedAppend(top, rest, x.name);
    assert top + [x] + rest == top + ([x] + rest);
  }

  /** The first struct of a name in `a + b` is the first in `a`, or else the first in `b`. */
  lemma {:induction false} NamedAppend(a: seq<Struct>, b: seq<Struct>, name: string)
    ensures Named(a + b, name) == if Named(a, name).Some? then Named(a, name) else Named(b, name)
    decreases |a|
  {
    if a != [] {
      assert (a + b)[1..] == a[1..] + b;
      NamedAppend(a[1..], b, name);
    } else {
      assert a + b == b;
    }
  }
}
