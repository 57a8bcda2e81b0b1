/**
 * The register model of src/generator/register.rs: the fourteen general
 * registers used as an expression stack, stack slots, immediates and
 * addresses, their AT&T names at the current operand width, and the two
 * global counters (register index and operand width) as one state object.
 */
module Register {
  import opened Util

  /** The position of a general register in REGISTER_NAMES. */
  newtype Slot = i: int | 0 <= i < 14

  /**
   * `Reg`: a general register, by its position in REGISTER_NAMES (the
   * order of the variants RAX to R15), a stack slot, an immediate or an
   * address through a register.
   */
  datatype Reg =
    | General(slot: Slot)
    | STACK(offset: nat)
    | IMMEDIATE(value: int)
    | ADDRESS(index: nat, offset: nat)

  const RAX: Reg := General(0)
  const RCX: Reg := General(1)
  const RDX: Reg := General(2)
  const RBX: Reg := General(3)
  const RSI: Reg := General(4)
  const RDI: Reg := General(5)
  const R8: Reg := General(6)
  const R9: Reg := General(7)
  const R10: Reg := General(8)
  const R11: Reg := General(9)
  const R12: Reg := General(10)
  const R13: Reg := General(11)
  const R14: Reg := General(12)
  const R15: Reg := General(13)

  /** The fourteen general registers. */
  predicate IsGeneral(r: Reg) {
    r.General?
  }

  /** The number of general registers; the index counter may not pass it. */
  const GeneralCount: nat := 14

  /** The register index starts at R10. */
  const InitialIndex: nat := 8

  /** The operand width starts at eight bytes. */
  const InitialSize: nat := 8

  /** `get_index`: the register with a given index; past the last, the stack slot at offset 0. */
  function GetIndex(i: nat): Reg {
    if i < GeneralCount then General(i as Slot) else STACK(0)
  }

  /** `index`: general registers by position; stack, immediate and address are 14, 15 and 16. */
  function Index(r: Reg): nat {
    match r
    case General(slot) => slot as nat
    case STACK(_) => 14
    case IMMEDIATE(_) => 15
    case ADDRESS(_, _) => 16
  }

  /** `get_index` and `index` are inverse on the general registers, and every index past them is the stack. */
  lemma {:induction false} IndexRoundTrip(i: nat, r: Reg)
    ensures i < GeneralCount ==> Index(GetIndex(i)) == i && IsGeneral(GetIndex(i))
    ensures i >= GeneralCount ==> GetIndex(i) == STACK(0)
    ensures IsGeneral(r) ==> GetIndex(Index(r)) == r && Index(r) < GeneralCount
  {
  }

  /** The integer argument registers of the System V AMD64 ABI, section 3.2.3, in order. */
  const SysVArgumentRegisters: seq<Reg> := [RDI, RSI, RDX, RCX, R8, R9]

  /** `get_parameter_index`: the register that carries argument `index`; only six exist. */
  function ParameterRegister(index: nat): (r: Reg)
    requires index < 6
    ensures r == SysVArgumentRegisters[index]
    ensures IsGeneral(r) && r != R10 && r != R11
  {
    if index == 0 then RDI
    else if index == 1 then RSI
    else if index == 2 then RDX
    else if index == 3 then RCX
    else if index == 4 then R8
    else R9
  }

  /**
   * `as_address`: memory at offset 0 from the register with this one's index.
   * The address goes through `r` itself when `r` is a general register, and
   * through the stack slot at offset 0 otherwise.
   */
  function AsAddress(r: Reg): (a: Reg)
    ensures a.ADDRESS? && a.offset == 0 && a.index == Index(r)
    ensures IsGeneral(r) ==> GetIndex(a.index) == r
    ensures !IsGeneral(r) ==> GetIndex(a.index) == STACK(0)
  {
    ADDRESS(Index(r), 0)
  }

  /**
   * `offset`: the same address register with a new displacement; only
   * addresses have one.
   */
  function WithOffset(r: Reg, offset: nat): (a: Reg)
    requires r.ADDRESS?
    ensures a.ADDRESS? && a.index == r.index && a.offset == offset
  {
    ADDRESS(r.index, offset)
  }

  /** REGISTER_NAMES. */
  const RegisterNames: seq<string> :=
    ["rax", "rcx", "rdx", "rbx", "rsi", "rdi", "r8", "r9", "r10", "r11", "r12", "r13", "r14", "r15"]

  /** The 64-bit name of a general register, without `%`. */
  function Base(r: Reg): (s: string)
    requires IsGeneral(r)
    ensures |s| >= 2
  {
    RegisterNames[Index(r)]
  }

  /** The Display text of a register when the operand width is `width`. */
  function Text(r: Reg, width: nat): string
    decreases if r.ADDRESS? then 1 else 0
  {
    match r
    case General(slot) =>
      var base := Base(r);
      if slot < 4 then
        if width == 1 then "%" + base[1..2] + "l"
        else if width == 2 then "%" + base[1..]
        else if width == 4 then "%e" + base[1..]
        else "%" + base
      else if slot < 6 then
        if width == 1 then "%" + base[1..] + "l"
        else if width == 2 then "%" + base[1..]
        else if width == 4 then "%e" + base[1..]
        else "%" + base
      else
        if width == 1 then "%" + base + "b"
        else if width == 2 then "%" + base + "w"
        else if width == 4 then "%" + base + "d"
        else "%" + base
    case STACK(offset) => "-" + NatToString(offset) + "(%rbp)"
    case IMMEDIATE(value) => "$" + IntToString(value)
    case ADDRESS(index, offset) => NatToString(offset) + "(" + Text(GetIndex(index), 8) + ")"
  }

  /** The names of the legacy registers at each width. */
  lemma LegacyNames()
    ensures Text(RAX, 1) == "%al" && Text(RAX, 2) == "%ax" && Text(RAX, 4) == "%eax" && Text(RAX, 8) == "%rax"
    ensures Text(RBX, 1) == "%bl" && Text(RCX, 2) == "%cx" && Text(RDX, 4) == "%edx"
    ensures Text(RSI, 1) == "%sil" && Text(RSI, 2) == "%si" && Text(RSI, 4) == "%esi" && Text(RSI, 8) == "%rsi"
    ensures Text(RDI, 1) == "%dil" && Text(RDI, 2) == "%di" && Text(RDI, 4) == "%edi" && Text(RDI, 8) == "%rdi"
  {
  }

  /** R8..R15 take a `b`, `w` or `d` suffix for widths 1, 2 and 4 and none otherwise. */
  lemma NumberedNames(r: Reg, width: nat)
    requires IsGeneral(r) && Index(r) >= 6
    ensures width == 1 ==> Text(r, width) == "%" + RegisterNames[Index(r)] + "b"
    ensures width == 2 ==> Text(r, width) == "%" + RegisterNames[Index(r)] + "w"
    ensures width == 4 ==> Text(r, width) == "%" + RegisterNames[Index(r)] + "d"
    ensures width !in {1, 2, 4} ==> Text(r, width) == "%" + RegisterNames[Index(r)]
  {
  }

  /** Stack slots, immediates and addresses print the same at every width. */
  lemma MemoryOperandsIgnoreWidth(r: Reg, w1: nat, w2: nat)
    requires !IsGeneral(r)
    ensures Text(r, w1) == Text(r, w2)
  {
  }

  /** A stack slot, an immediate and an address, character for character; an address uses the 64-bit name. */
  lemma MemoryOperandNames(w: nat)
    ensures Text(STACK(16), w) == "-16(%rbp)"
    ensures Text(IMMEDIATE(-3), w) == "$-3"
    ensures Text(ADDRESS(8, 4), w) == "4(%r10)"
  {
    assert NatToString(16) == "16";
  }

  /** A new displacement replaces the old one: putting the old one back gives the original address. */
  lemma OffsetReplaces(r: Reg, j: nat, k: nat)
    requires r.ADDRESS?
    ensures WithOffset(WithOffset(r, j), r.offset) == r
    ensures WithOffset(WithOffset(r, j), k) == WithOffset(r, k)
  {
  }

  /**
   * An address made from a general register prints as `k(%name)` at every
   * width: the displacement, then the register's 64-bit name in parentheses.
   */
  lemma {:induction false} AddressText(r: Reg, k: nat, w: nat)
    requires IsGeneral(r)
    ensures Text(WithOffset(AsAddress(r), k), w) == NatToString(k) + "(" + Text(r, 8) + ")"
    ensures Text(WithOffset(AsAddress(r), k), w) == NatToString(k) + "(%" + Base(r) + ")"
  {
    var a := WithOffset(AsAddress(r), k);
    assert GetIndex(a.index) == r;
    assert Text(r, 8) == "%" + Base(r);
    assert "(" + ("%" + Base(r)) + ")" == "(%" + Base(r) + ")";
  }

  /** The register index and the operand width, the two global counters. */
  class Registers {
    /** REIGSTER_INDEX: the index of the current register. */
    var index: nat
    /** REGSITER_SIZE: the operand width in bytes. */
    var size: nat

    ghost predicate Valid()
      reads this
    {
      index <= GeneralCount
    }

    constructor ()
      ensures Valid() && index == InitialIndex && size == InitialSize
      ensures GetIndex(index) == R10
    {
      index := InitialIndex;
      size := InitialSize;
    }

    /** `push`: hands out the current register and advances; fourteen is the end. */
    method Push() returns (r: Reg)
      requires Valid() && index < GeneralCount
      modifies this`index
      ensures Valid()
      ensures r == GetIndex(old(index)) && IsGeneral(r)
      ensures index == old(index) + 1
    {
      r := GetIndex(index);
      index := index + 1;
    }

    /** `pop`: hands out the current register and steps back. */
    method Pop() returns (r: Reg)
      requires Valid() && index > 0
      modifies this`index
      ensures Valid()
      ensures r == GetIndex(old(index))
      ensures index == old(index) - 1
    {
      r := GetIndex(index);
      index := index - 1;
    }

    /** `current`: the register at the index. */
    method Current() returns (r: Reg)
      requires Valid()
      ensures r == GetIndex(index)
      ensures index < GeneralCount ==> Index(r) == index
    {
      r := GetIndex(index);
    }

    /** `set_size`: stores a new width and returns the previous one. */
    method SetSize(bytes: nat) returns (prev: nat)
      modifies this`size
      ensures prev == old(size) && size == bytes
    {
      prev := size;
      size := bytes;
    }

    /** `get_size`: the width, unchanged. */
    method GetSize() returns (s: nat)
      ensures s == size
    {
      s := size;
    }

    /**
     * Display at the current width.  An address switches the width to eight
     * for its register's name and then puts the previous width back.
     */
    method Display(r: Reg) returns (s: string)
      modifies this`size
      ensures size == old(size)
      ensures s == Text(r, old(size))
      decreases if r.ADDRESS? then 1 else 0
    {
      if r.ADDRESS? {
        var prev := SetSize(8);
        var register := Display(GetIndex(r.index));
        s := NatToString(r.offset) + "(" + register + ")";
        var _ := SetSize(prev);
      } else {
        s := Text(r, size);
      }
    }
  }

  /** A push followed by a pop restores the index; the pop hands out the register after the pushed one. */
  method PushThenPop(regs: Registers) returns (pushed: Reg, popped: Reg)
    requires regs.Valid() && regs.index < GeneralCount
    modifies regs
    ensures regs.index == old(regs.index) && regs.Valid()
    ensures pushed == GetIndex(old(regs.index)) && popped == GetIndex(old(regs.index) + 1)
  {
    pushed := regs.Push();
    popped := regs.Pop();
  }
}
