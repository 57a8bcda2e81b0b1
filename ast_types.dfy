/**
 * The data types of the type-checking parser (src/ast/data_type.rs): the
 * primitives, pointers and structs, their sizes, and the conversion and
 * operand rules the parser checks against.
 */
module AstTypes {
  import opened Util

  /** A type; a pointer and a struct hold their parts by value. */
  datatype DataType = LONG | INT | CHAR | VOID | PTR(base: DataType) | STRUCT(s: Struct)

  /** A struct: its name, its fields in layout order, and the size cached at construction. */
  datatype Struct = Struct(name: string, fields: seq<Variable>, size: nat)

  /**
   * A named slot: a local variable, a parameter or a struct field.  `offset`
   * is where the slot ends, counted from its base (see `NewVariable`).
   */
  datatype Variable = Variable(name: string, dataType: DataType, offset: nat)

  /** The size in bytes of a value of the type. */
  function Size(t: DataType): nat {
    match t
    case INT => 4
    case CHAR => 1
    case LONG => 8
    case PTR(_) => 8
    case VOID => 0
    case STRUCT(s) => s.size
  }

  /**
   * `Variable::new(name, type, base)`: a slot that starts at `base`.  The
   * variable records the offset just past its value, base plus size; field
   * access subtracts the size again to find the start.
   */
  function NewVariable(name: string, t: DataType, base: nat): (v: Variable)
    ensures v.name == name && v.dataType == t
    ensures v.offset - Size(t) == base
  {
    Variable(name, t, base + Size(t))
  }

  /** The sum of the sizes of the fields' types, added up front to back. */
  function FieldsSize(fields: seq<Variable>): nat {
    if fields == [] then 0 else FieldsSize(fields[..|fields| - 1]) + Size(fields[|fields| - 1].dataType)
  }

  /** `Struct::new`: the fields as given, with their total size cached. */
  function NewStruct(name: string, fields: seq<Variable>): (s: Struct)
    ensures s.name == name && s.fields == fields
  {
    Struct(name, fields, FieldsSize(fields))
  }

  /** A struct whose cached size is the sum of its fields' sizes, as `NewStruct` builds it. */
  predicate Consistent(s: Struct) {
    s.size == FieldsSize(s.fields)
  }

  /**
   * `can_convert`: whether a value of type `from` may stand where a `to` is
   * wanted.  The arms are tried in the source's order.
   */
  predicate CanConvert(from: DataType, to: DataType) {
    if from.STRUCT? && to.STRUCT? && from.s == to.s then true
    else if from.PTR? && to.PTR? && from.base == to.base then true
    else if from.PTR? && to.PTR? && from.base == VOID then true
    else if from.PTR? && to == INT then true
    else if to.STRUCT? then false
    else if from.STRUCT? then false
    else if from.PTR? then false
    else true
  }

  /** `can_operate`: whether two operand types may meet in a binary operator. */
  predicate CanOperate(a: DataType, b: DataType) {
    if a == VOID && b == VOID then false
    else if a == VOID then false
    else if b == VOID then false
    else if b.STRUCT? then false
    else if a.STRUCT? then false
    else true
  }

  /** `Struct::get`: the first field with the name. */
  function Get(s: Struct, name: string): (r: Option<Variable>)
  {
    FirstNamed(s.fields, name)
  }

  /** The first slot of `fields` called `name`. */
  function FirstNamed(fields: seq<Variable>, name: string): Option<Variable> {
    if fields == [] then None
    else if fields[0].name == name then Some(fields[0])
    else FirstNamed(fields[1..], name)
  }

  /** `fields_equal`: the struct's fields are exactly `other`, in order. */
  predicate FieldsEqual(s: Struct, other: seq<Variable>) {
    s.fields == other
  }

  /** The size of a struct built by `NewStruct` grows by each field appended. */
  lemma NewStructSize(name: string, fields: seq<Variable>, field: Variable)
    ensures NewStruct(name, []).size == 0
    ensures NewStruct(name, fields + [field]).size == NewStruct(name, fields).size + Size(field.dataType)
  {
    assert (fields + [field])[..|fields + [field]| - 1] == fields;
  }

  /** The cached size is the sum of the field sizes, added in any split of the list. */
  lemma {:induction false} FieldsSizeAppend(a: seq<Variable>, b: seq<Variable>)
    ensures FieldsSize(a + b) == FieldsSize(a) + FieldsSize(b)
    decreases |b|
  {
    if b != [] {
      var last := b[|b| - 1];
      var front := b[..|b| - 1];
      assert a + b == (a + front) + [last];
      assert (a + b)[..|a + b| - 1] == a + front;
      FieldsSizeAppend(a, front);
    } else {
      assert a + b == a;
    }
  }

  /** Sizes of the primitives and pointers; a struct takes its cached size. */
  lemma SizeTable(s: Struct, t: DataType)
    ensures Size(INT) == 4 && Size(CHAR) == 1 && Size(LONG) == 8 && Size(VOID) == 0
    ensures Size(PTR(t)) == 8
    ensures Size(STRUCT(s)) == s.size
  {
  }

  /** Every type converts to itself. */
  lemma CanConvertReflexive(t: DataType)
    ensures CanConvert(t, t)
  {
  }

  /** Where a struct is involved, conversion holds exactly between equal types. */
  lemma CanConvertStructs(a: DataType, b: DataType)
    requires a.STRUCT? || b.STRUCT?
    ensures CanConvert(a, b) <==> a == b
  {
  }

  /**
   * A pointer converts to a pointer with the same base, to any pointer when
   * it is `void*`, and to INT; to nothing else.
   */
  lemma CanConvertPointers(a: DataType, b: DataType)
    requires a.PTR?
    ensures CanConvert(a, b) <==> (b.PTR? && (a.base == b.base || a.base == VOID)) || b == INT
  {
  }

  /** A primitive converts to every pointer and every primitive. */
  lemma CanConvertFromPrimitive(a: DataType, b: DataType)
    requires !a.PTR? && !a.STRUCT?
    ensures CanConvert(a, b) <==> !b.STRUCT?
  {
  }

  /** Conversion is not symmetric: a long converts to a pointer, but not back. */
  lemma CanConvertAsymmetric()
    ensures CanConvert(LONG, PTR(INT)) && !CanConvert(PTR(INT), LONG)
    ensures CanConvert(PTR(CHAR), INT) && CanConvert(PTR(VOID), PTR(CHAR)) && !CanConvert(PTR(CHAR), PTR(VOID))
  {
  }

  /** Two operands may meet exactly when neither is VOID or a struct. */
  lemma CanOperateCases(a: DataType, b: DataType)
    ensures CanOperate(a, b) <==> a != VOID && b != VOID && !a.STRUCT? && !b.STRUCT?
  {
  }

  /** `get` finds a field exactly when one has the name, and then the first such field. */
  lemma {:induction false} FirstNamedIsFirst(fields: seq<Variable>, name: string)
    ensures FirstNamed(fields, name).Some? <==> exists i :: 0 <= i < |fields| && fields[i].name == name
    ensures FirstNamed(fields, name).Some? ==>
      exists i ::
        && 0 <= i < |fields|
        && fields[i] == FirstNamed(fields, name).value
        && forall j :: 0 <= j < i ==> fields[j].name != name
  {
    if fields != [] && fields[0].name != name {
      FirstNamedIsFirst(fields[1..], name);
      if exists i :: 0 <= i < |fields| && fields[i].name == name {
        var i :| 0 <= i < |fields| && fields[i].name == name;
        assert fields[1..][i - 1].name == name;
      }
      if FirstNamed(fields, name).Some? {
        var i :|
          && 0 <= i < |fields[1..]|
          && fields[1..][i] == FirstNamed(fields, name).value
          && forall j :: 0 <= j < i ==> fields[1..][j].name != name;
        assert fields[i + 1] == FirstNamed(fields, name).value;
        forall j | 0 <= j < i + 1 ensures fields[j].name != name {
          if j > 0 {
            assert fields[j] == fields[1..][j - 1];
          }
        }
      }
    }
  }

  /** `get` on a struct: the first field with the name, or none when no field has it. */
  lemma GetFindsFirst(s: Struct, name: string)
    ensures Get(s, name).Some? <==> exists i :: 0 <= i < |s.fields| && s.fields[i].name == name
    ensures Get(s, name).Some? ==> Get(s, name).value.name == name
  {
    FirstNamedIsFirst(s.fields, name);
    if Get(s, name).Some? {
      FirstNamedNames(s.fields, name);
    }
  }

  /** The field `FirstNamed` finds carries the name searched for. */
  lemma {:induction false} FirstNamedNames(fields: seq<Variable>, name: string)
    ensures FirstNamed(fields, name).Some? ==> FirstNamed(fields, name).value.name == name
  {
    if fields != [] && fields[0].name != name {
      FirstNamedNames(fields[1..], name);
    }
  }
}
