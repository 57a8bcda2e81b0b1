/**
 * The scopes of the scope builder (src/scope_builder.rs:34-182): a stack of
 * frames for each kind of name, searched innermost first, and the builder's
 * bookkeeping of stack offsets, frame size and label counters.
 *
 * `Frames` and `Builder` are the values of the two classes; the class methods
 * update the fields in place and are proved against the value functions,
 * which the resolver threads from visit to visit.
 */
module Scopes {
  import opened Util
  import opened ResolvedTypes
  import Syntax

  /** All but the last element; a `Vec::pop` on an empty vector leaves it empty. */
  function Below<V>(s: seq<V>): (r: seq<V>)
    ensures s != [] ==> |r| == |s| - 1
  {
    if s == [] then [] else s[..|s| - 1]
  }

  /** The binding of `name` in the innermost frame that has one. */
  function Lookup<V>(frames: seq<map<string, V>>, name: string): Option<V>
    decreases |frames|
  {
    if frames == [] then None
    else if name in frames[|frames| - 1] then Some(frames[|frames| - 1][name])
    else Lookup(frames[..|frames| - 1], name)
  }

  /** The frames with `name` bound to `v` in the top frame, replacing a binding there. */
  function Bind<V>(frames: seq<map<string, V>>, name: string, v: V): (r: seq<map<string, V>>)
    requires frames != []
    ensures |r| == |frames| && Below(r) == Below(frames)
  {
    var r := frames[..|frames| - 1] + [frames[|frames| - 1][name := v]];
    assert r[..|r| - 1] == frames[..|frames| - 1];
    r
  }

  /**
   * The loop of `get_type`, `get_variable` and `get_function`: walk the
   * frames from the top and answer with the first binding met.
   */
  method Innermost<V>(frames: seq<map<string, V>>, name: string) returns (r: Option<V>)
    ensures r == Lookup(frames, name)
  {
    var i := |frames|;
    assert frames[..i] == frames;
    while i > 0
      invariant 0 <= i <= |frames|
      invariant Lookup(frames, name) == Lookup(frames[..i], name)
    {
      if name in frames[i - 1] {
        return Some(frames[i - 1][name]);
      }
      assert frames[..i][..i - 1] == frames[..i - 1];
      i := i - 1;
    }
    assert frames[..0] == [];
    return None;
  }

  /**
   * A name is found exactly when some frame binds it, and then the binding
   * comes from the topmost such frame: inner bindings shadow outer ones.
   */
  lemma {:induction false} LookupInnermost<V>(frames: seq<map<string, V>>, name: string)
    ensures Lookup(frames, name).Some? <==> exists k :: 0 <= k < |frames| && name in frames[k]
    ensures Lookup(frames, name).Some? ==>
      exists k ::
        && 0 <= k < |frames|
        && name in frames[k]
        && frames[k][name] == Lookup(frames, name).value
        && forall j :: k < j < |frames| ==> name !in frames[j]
    decreases |frames|
  {
    if frames != [] && name !in frames[|frames| - 1] {
      var lower := frames[..|frames| - 1];
      LookupInnermost(lower, name);
      if exists k :: 0 <= k < |frames| && name in frames[k] {
        var k :| 0 <= k < |frames| && name in frames[k];
        assert name in lower[k];
      }
      if Lookup(frames, name).Some? {
        var k :|
          && 0 <= k < |lower|
          && name in lower[k]
          && lower[k][name] == Lookup(lower, name).value
          && forall j :: k < j < |lower| ==> name !in lower[j];
        assert frames[k] == lower[k];
        forall j | k < j < |frames| ensures name !in frames[j] {
          if j < |lower| {
            assert frames[j] == lower[j];
          }
        }
      }
    }
  }

  /**
   * Binding a name makes it resolve to the new value, leaves every other name
   * resolving as before, and touches the top frame only.
   */
  lemma BindShadows<V>(frames: seq<map<string, V>>, name: string, v: V, other: string)
    requires frames != []
    ensures Lookup(Bind(frames, name, v), name) == Some(v)
    ensures other != name ==> Lookup(Bind(frames, name, v), other) == Lookup(frames, other)
    ensures |Bind(frames, name, v)| == |frames| && Below(Bind(frames, name, v)) == Below(frames)
    ensures Bind(frames, name, v)[|frames| - 1] == frames[|frames| - 1][name := v]
  {
    var bound := Bind(frames, name, v);
    assert bound[..|bound| - 1] == frames[..|frames| - 1];
  }

  /** An empty frame on top hides nothing. */
  lemma EmptyFrameHidesNothing<V>(frames: seq<map<string, V>>, name: string)
    ensures Lookup(frames + [map[]], name) == Lookup(frames, name)
  {
    assert (frames + [map[]])[..|frames|] == frames;
  }

  /** Dropping the top frame forgets exactly the names bound in it. */
  lemma DropFrame<V>(frames: seq<map<string, V>>, name: string)
    requires frames != []
    ensures name !in frames[|frames| - 1] ==> Lookup(Below(frames), name) == Lookup(frames, name)
    ensures name in frames[|frames| - 1] ==> Lookup(frames, name) == Some(frames[|frames| - 1][name])
  {
  }

  /** The value of a `Scope`: one stack of frames per kind of name. */
  datatype Frames = Frames(
    types: seq<map<string, DataType>>,
    variables: seq<map<string, Variable>>,
    functions: seq<map<string, Syntax.Function>>)
  {
    /** `Scope::push`. */
    function Push(): (r: Frames)
      ensures Below(r.types) == types && Below(r.variables) == variables
    {
      var r := Frames(types + [map[]], variables + [map[]], functions + [map[]]);
      assert r.types[..|r.types| - 1] == types && r.variables[..|r.variables| - 1] == variables;
      r
    }

    /** `Scope::pop`: the function stack gets a new frame instead of losing one. */
    function Pop(): Frames {
      Frames(Below(types), Below(variables), functions + [map[]])
    }

    function PushType(name: string, t: DataType): Frames
      requires types != []
    {
      this.(types := Bind(types, name, t))
    }

    function PushVariable(name: string, v: Variable): Frames
      requires variables != []
    {
      this.(variables := Bind(variables, name, v))
    }

    function PushFunction(name: string, f: Syntax.Function): Frames
      requires functions != []
    {
      this.(functions := Bind(functions, name, f))
    }
  }

  /** `Scope::new`: one empty frame of each kind. */
  const EmptyFrames := Frames([map[]], [map[]], [map[]])

  /** `Scope`. */
  class Scope {
    var types: seq<map<string, DataType>>
    var variables: seq<map<string, Variable>>
    var functions: seq<map<string, Syntax.Function>>

    function Value(): Frames
      reads this
    {
      Frames(types, variables, functions)
    }

    constructor ()
      ensures Value() == EmptyFrames
    {
      types := [map[]];
      variables := [map[]];
      functions := [map[]];
    }

    method Push()
      modifies this
      ensures Value() == old(Value()).Push()
    {
      types := types + [map[]];
      variables := variables + [map[]];
      functions := functions + [map[]];
    }

    method Pop()
      modifies this
      ensures Value() == old(Value()).Pop()
    {
      if types != [] {
        types := types[..|types| - 1];
      }
      if variables != [] {
        variables := variables[..|variables| - 1];
      }
      functions := functions + [map[]];
    }

    method GetType(name: string) returns (r: Option<DataType>)
      ensures r == Lookup(types, name)
    {
      r := Innermost(types, name);
    }

    /** `push_type`; `last_mut().unwrap()` panics without a frame. */
    method PushType(name: string, t: DataType)
      requires types != []
      modifies this
      ensures Value() == old(Value()).PushType(name, t)
    {
      types := types[..|types| - 1] + [types[|types| - 1][name := t]];
    }

    method GetVariable(name: string) returns (r: Option<Variable>)
      ensures r == Lookup(variables, name)
    {
      r := Innermost(variables, name);
    }

    method PushVariable(name: string, v: Variable)
      requires variables != []
      modifies this
      ensures Value() == old(Value()).PushVariable(name, v)
    {
      variables := variables[..|variables| - 1] + [variables[|variables| - 1][name := v]];
    }

    method GetFunction(name: string) returns (r: Option<Syntax.Function>)
      ensures r == Lookup(functions, name)
    {
      r := Innermost(functions, name);
    }

    method PushFunction(name: string, f: Syntax.Function)
      requires functions != []
      modifies this
      ensures Value() == old(Value()).PushFunction(name, f)
    {
      functions := functions[..|functions| - 1] + [functions[|functions| - 1][name := f]];
    }
  }

  /** The value of a `ScopeBuilder`, without its arena. */
  datatype Builder = Builder(
    scope: Frames,
    currentFunction: Option<DataType>,
    loopLabels: seq<int>,
    stringIndex: int,
    stackOffset: nat,
    stackScope: seq<nat>,
    frameSize: nat,
    labelIndex: int)
  {
    /** Every stack has a frame to bind into, as `Scope::new` leaves them. */
    predicate Valid() {
      scope.types != [] && scope.variables != [] && scope.functions != []
    }

    /** `ScopeBuilder::push`: a new frame, remembering the stack offset. */
    function Push(): Builder {
      this.(scope := scope.Push(), stackScope := stackScope + [stackOffset])
    }

    /**
     * `ScopeBuilder::pop`: the frame size keeps the deepest offset reached and
     * the offset returns to its value at the matching push
     * (`stack_scope.pop().unwrap()` panics on an unmatched pop).
     */
    function Pop(): Builder
      requires stackScope != []
    {
      this.(
        scope := scope.Pop(),
        frameSize := if frameSize < stackOffset then stackOffset else frameSize,
        stackOffset := stackScope[|stackScope| - 1],
        stackScope := stackScope[..|stackScope| - 1])
    }

    function GetType(name: string): Option<DataType> {
      Lookup(scope.types, name)
    }

    function GetVariable(name: string): Option<Variable> {
      Lookup(scope.variables, name)
    }

    function GetFunction(name: string): Option<Syntax.Function> {
      Lookup(scope.functions, name)
    }

    function PushType(name: string, t: DataType): Builder
      requires scope.types != []
    {
      this.(scope := scope.PushType(name, t))
    }

    /**
     * `ScopeBuilder::push_variable`: the slot ends at the stack offset after
     * reserving the type's size; that end offset is the answer.
     */
    function PushVariable(name: string, t: DataType): (nat, Builder)
      requires scope.variables != []
    {
      var offset := stackOffset + Size(t);
      (offset, this.(stackOffset := offset, scope := scope.PushVariable(name, Variable(offset, t))))
    }

    function PushFunction(name: string, f: Syntax.Function): Builder
      requires scope.functions != []
    {
      this.(scope := scope.PushFunction(name, f))
    }

    /** `next_label_index`: add one, answer the new value. */
    function NextLabelIndex(): (int, Builder) {
      (labelIndex + 1, this.(labelIndex := labelIndex + 1))
    }

    /** `get_string_label`: add one, answer the new value. */
    function GetStringLabel(): (int, Builder) {
      (stringIndex + 1, this.(stringIndex := stringIndex + 1))
    }
  }

  /** `ScopeBuilder::new`. */
  const InitialBuilder := Builder(EmptyFrames, None, [], 0, 0, [0], 0, 0)

  /** `ScopeBuilder`. */
  class ScopeBuilder {
    const scope: Scope
    var currentFunction: Option<DataType>
    var loopLabels: seq<int>
    var stringIndex: int
    var stackOffset: nat
    var stackScope: seq<nat>
    var frameSize: nat
    var labelIndex: int

    function Value(): Builder
      reads this, scope
    {
      Builder(scope.Value(), currentFunction, loopLabels, stringIndex, stackOffset, stackScope, frameSize, labelIndex)
    }

    constructor ()
      ensures fresh(scope) && Value() == InitialBuilder
    {
      scope := new Scope();
      currentFunction := None;
      loopLabels := [];
      stackOffset := 0;
      stackScope := [0];
      labelIndex := 0;
      stringIndex := 0;
      frameSize := 0;
    }

    method Push()
      modifies this, scope
      ensures Value() == old(Value()).Push()
    {
      scope.Push();
      stackScope := stackScope + [stackOffset];
    }

    method Pop()
      requires stackScope != []
      modifies this, scope
      ensures Value() == old(Value()).Pop()
    {
      scope.Pop();
      frameSize := if frameSize < stackOffset then stackOffset else frameSize;
      stackOffset := stackScope[|stackScope| - 1];
      stackScope := stackScope[..|stackScope| - 1];
    }

    method GetType(name: string) returns (r: Option<DataType>)
      ensures r == Value().GetType(name)
    {
      r := scope.GetType(name);
    }

    method PushType(name: string, t: DataType)
      requires scope.types != []
      modifies scope
      ensures Value() == old(Value()).PushType(name, t)
    {
      scope.PushType(name, t);
    }

    method GetVariable(name: string) returns (r: Option<Variable>)
      ensures r == Value().GetVariable(name)
    {
      r := scope.GetVariable(name);
    }

    method PushVariable(name: string, t: DataType) returns (offset: nat)
      requires scope.variables != []
      modifies this, scope
      ensures (offset, Value()) == old(Value()).PushVariable(name, t)
    {
      stackOffset := stackOffset + Size(t);
      var v := Variable(stackOffset, t);
      scope.PushVariable(name, v);
      offset := v.stackOffset;
    }

    method GetFunction(name: string) returns (r: Option<Syntax.Function>)
      ensures r == Value().GetFunction(name)
    {
      r := scope.GetFunction(name);
    }

    method PushFunction(name: string, f: Syntax.Function)
      requires scope.functions != []
      modifies scope
      ensures Value() == old(Value()).PushFunction(name, f)
    {
      scope.PushFunction(name, f);
    }

    method NextLabelIndex() returns (n: int)
      modifies this
      ensures (n, Value()) == old(Value()).NextLabelIndex()
    {
      labelIndex := labelIndex + 1;
      n := labelIndex;
    }

    method GetStringLabel() returns (n: int)
      modifies this
      ensures (n, Value()) == old(Value()).GetStringLabel()
    {
      stringIndex := stringIndex + 1;
      n := stringIndex;
    }
  }

  /**
   * A pop undoes its push: the frames and the offset come back, whatever the
   * scope saw in between (provided it kept the depth), and the frame size
   * becomes the larger of the old frame size and the offset reached.
   */
  lemma PopAfterPush(b: Builder, inner: Builder)
    requires inner.stackScope == b.Push().stackScope
    requires Below(inner.scope.types) == b.scope.types && Below(inner.scope.variables) == b.scope.variables
    requires |inner.scope.types| == |b.scope.types| + 1 && |inner.scope.variables| == |b.scope.variables| + 1
    ensures inner.Pop().stackOffset == b.stackOffset && inner.Pop().stackScope == b.stackScope
    ensures inner.Pop().scope.types == b.scope.types && inner.Pop().scope.variables == b.scope.variables
    ensures inner.Pop().frameSize >= inner.frameSize && inner.Pop().frameSize >= inner.stackOffset
    ensures inner.Pop().frameSize == inner.frameSize || inner.Pop().frameSize == inner.stackOffset
  {
    assert inner.stackScope[..|inner.stackScope| - 1] == b.stackScope;
  }

  /** A pushed frame makes nothing visible and hides nothing. */
  lemma PushHidesNothing(b: Builder, name: string)
    ensures b.Push().GetType(name) == b.GetType(name)
    ensures b.Push().GetVariable(name) == b.GetVariable(name)
    ensures b.Push().GetFunction(name) == b.GetFunction(name)
  {
    EmptyFrameHidesNothing(b.scope.types, name);
    EmptyFrameHidesNothing(b.scope.variables, name);
    EmptyFrameHidesNothing(b.scope.functions, name);
  }

  /**
   * `Scope::pop` forgets the types and variables of the top frame, but the
   * functions bound in it stay visible.
   */
  lemma PopKeepsFunctions(f: Frames, name: string)
    requires f.types != [] && f.variables != []
    ensures Lookup(f.Pop().functions, name) == Lookup(f.functions, name)
    ensures name !in f.types[|f.types| - 1] ==> Lookup(f.Pop().types, name) == Lookup(f.types, name)
    ensures name !in f.variables[|f.variables| - 1] ==> Lookup(f.Pop().variables, name) == Lookup(f.variables, name)
  {
    EmptyFrameHidesNothing(f.functions, name);
    DropFrame(f.types, name);
    DropFrame(f.variables, name);
  }

  /**
   * A variable's slot ends at its offset: it reserves the type's size above
   * the previous offset, and the name now resolves to that slot.
   */
  lemma PushVariableSlot(b: Builder, name: string, t: DataType)
    requires b.scope.variables != []
    ensures b.PushVariable(name, t).0 == b.stackOffset + Size(t) == b.PushVariable(name, t).1.stackOffset
    ensures b.PushVariable(name, t).1.GetVariable(name) == Some(Variable(b.stackOffset + Size(t), t))
  {
    BindShadows(b.scope.variables, name, Variable(b.stackOffset + Size(t), t), name);
  }

  /** Label numbers start at 1 and every request gives a larger one. */
  lemma LabelsIncrease(b: Builder)
    ensures InitialBuilder.NextLabelIndex().0 == 1 && InitialBuilder.GetStringLabel().0 == 1
    ensures b.NextLabelIndex().0 > b.labelIndex && b.NextLabelIndex().1.labelIndex == b.NextLabelIndex().0
    ensures b.GetStringLabel().0 > b.stringIndex && b.GetStringLabel().1.stringIndex == b.GetStringLabel().0
  {
  }
}
