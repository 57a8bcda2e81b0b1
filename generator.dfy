/**
 * The bookkeeping of src/generator.rs: the instructions the generator emits
 * and their text, frame rounding, chunked struct copies, label and clause
 * names, the loop and `if` skeletons and the register save/restore around
 * calls.  The output file is a sequence of emitted lines, each rendered to the
 * exact text the generator writes; the code of nested expressions and
 * statements is given as already-emitted lines that leave the registers alone.
 */
module Generator {
  import opened Util
  import opened Register

  /** One `emit` of the generator. */
  datatype Line =
    | Ins(op: string, from: Reg, to: Reg, width: nat)   // emit_ins at width `width`
    | Sins(op: string, operand: Reg, width: nat)        // emit_sins at width `width`
    | Jump(op: string, target: string)                  // jmp, jne, je
    | Label(name: string)                               // emit_label
    | CallTo(name: string)                              // call
    | Prologue(frame: nat)                              // push_stack
    | Leave                                             // pop_stack
    | Return                                            // ret
    | Cdq                                               // cdq
    | StringConstant(index: nat, text: string)          // emit_string

  /** The text a line writes to the output file. */
  function Render(l: Line): string {
    match l
    case Ins(op, from, to, width) => "\t" + op + "\t" + Text(from, width) + ", " + Text(to, width) + "\n"
    case Sins(op, r, width) => "\t" + op + "\t" + Text(r, width) + "\n"
    case Jump(op, target) => "\t" + op + "\t\t" + target + "\n"
    case Label(name) => name + ":\n"
    case CallTo(name) => "\tcall \t" + name + "\n"
    case Prologue(frame) => "\tpush\t%rbp\n\tmov \t%rsp, %rbp\n\tsub \t$" + NatToString(FrameBytes(frame)) + ", %rsp\n"
    case Leave => "\tleave\n"
    case Return => "\tret\n"
    case Cdq => "\tcdq\n"
    case StringConstant(index, text) =>
      "    .section   .rodata\n.LC" + NatToString(index) + ":\n    .string\t" + text + "\n    .text\n"
  }

  /** The whole output file. */
  function Listing(lines: seq<Line>): string {
    if lines == [] then "" else Render(lines[0]) + Listing(lines[1..])
  }

  /** A two-operand instruction at width 4, character for character. */
  lemma InstructionRendering()
    ensures Render(Ins("mov ", IMMEDIATE(0), R10, 4)) == "\tmov \t$0, %r10d\n"
  {
    NumberedNames(R10, 4);
    assert Text(IMMEDIATE(0), 4) == "$0";
  }

  /** A one-operand instruction at width 1, character for character. */
  lemma SingleRendering()
    ensures Render(Sins("sete", R10, 1)) == "\tsete\t%r10b\n"
  {
    NumberedNames(R10, 1);
  }

  /** A jump and a label, character for character. */
  lemma ControlRendering()
    ensures Render(Jump("je", "_end3")) == "\tje\t\t_end3\n"
    ensures Render(Label("_label0")) == "_label0:\n"
  {
  }

  /** The prologue of a 20-byte frame reserves 32 bytes. */
  lemma PrologueRendering()
    ensures Render(Prologue(20)) == "\tpush\t%rbp\n\tmov \t%rsp, %rbp\n\tsub \t$32, %rsp\n"
  {
    assert NatToString(FrameBytes(20)) == "32";
  }

  /** A label renders apart from every instruction when its name starts with `_`, and only the same name renders the same. */
  lemma LabelRendering(name: string, l: Line)
    requires |name| > 0 && name[0] == '_'
    ensures l.Label? ==> (Render(l) == Render(Label(name)) <==> l.name == name)
    ensures !l.Label? ==> Render(l) != Render(Label(name))
  {
    assert Render(Label(name))[0] == '_';
    if l.Label? {
      assert Render(l)[..|l.name|] == l.name && Render(Label(name))[..|name|] == name;
    } else if l.StringConstant? {
      assert Render(l)[0] == ' ';
    } else {
      assert Render(l)[0] == '\t';
    }
  }

  /** The bytes `push_stack` reserves: the frame rounded past the next multiple of 16. */
  function FrameBytes(size: nat): (n: nat)
    ensures n % 16 == 0 && size < n <= size + 16
  {
    (size / 16 + 1) * 16
  }

  /** `generate_clause_names` for counter value `n`: the else label and the end label. */
  function ClauseNames(n: nat): (string, string) {
    ("_clause" + NatToString(n), "_end" + NatToString(n))
  }

  /** Clause names from different counter values never clash, and an else label is never an end label. */
  lemma {:induction false} ClauseNamesNeverRepeat(m: nat, n: nat)
    ensures m != n ==> ClauseNames(m).0 != ClauseNames(n).0 && ClauseNames(m).1 != ClauseNames(n).1
    ensures ClauseNames(m).0 != ClauseNames(n).1
  {
    PrefixCancel("_clause", NatToString(m), NatToString(n));
    PrefixCancel("_end", NatToString(m), NatToString(n));
    NatToStringInjective(m, n);
    assert ClauseNames(m).0[1] == 'c' && ClauseNames(n).1[1] == 'e';
  }

  /** `generate_label_names`: loop head, loop end and continue target. */
  function LabelNames(i: nat): (string, string, string) {
    ("_label" + NatToString(i), "_labelend" + NatToString(i), "_expression" + NatToString(i))
  }

  /** The three names of one loop differ from each other, and each kind is distinct across loops. */
  lemma {:induction false} LabelNamesDistinct(i: nat, j: nat)
    ensures LabelNames(i).0 != LabelNames(j).1 && LabelNames(i).0 != LabelNames(j).2
    ensures LabelNames(i).1 != LabelNames(j).2
    ensures i != j ==> LabelNames(i).0 != LabelNames(j).0
    ensures i != j ==> LabelNames(i).1 != LabelNames(j).1 && LabelNames(i).2 != LabelNames(j).2
  {
    assert IsDigit(LabelNames(i).0[6]) && LabelNames(j).1[6] == 'e';
    assert LabelNames(i).0[1] == 'l' && LabelNames(j).2[1] == 'e';
    assert LabelNames(i).1[1] == 'l' && LabelNames(j).2[1] == 'e';
    PrefixCancel("_label", NatToString(i), NatToString(j));
    PrefixCancel("_labelend", NatToString(i), NatToString(j));
    PrefixCancel("_expression", NatToString(i), NatToString(j));
    NatToStringInjective(i, j);
  }

  /** The chunk `mov_bytes` copies next, given the bytes still to copy. */
  function Chunk(remaining: nat): (c: nat)
    requires remaining > 0
    ensures c in {1, 2, 4, 8} && c <= remaining
    ensures remaining >= 8 ==> c == 8
    ensures remaining < 8 ==> remaining < 2 * c
  {
    if remaining == 1 then 1
    else if remaining <= 3 then 2
    else if remaining <= 7 then 4
    else 8
  }

  /** The chunk sizes of a copy of `n` bytes, in order. */
  function Chunks(n: nat): seq<nat>
    decreases n
  {
    if n == 0 then [] else [Chunk(n)] + Chunks(n - Chunk(n))
  }

  function Sum(s: seq<nat>): nat {
    if s == [] then 0 else s[0] + Sum(s[1..])
  }

  predicate NonIncreasing(s: seq<nat>) {
    forall i, j :: 0 <= i < j < |s| ==> s[i] >= s[j]
  }

  /** The chunks are powers of two up to 8, never grow, and add up to the bytes asked for. */
  lemma {:induction false} ChunksCoverCopy(n: nat)
    ensures Sum(Chunks(n)) == n
    ensures NonIncreasing(Chunks(n))
    ensures forall k :: 0 <= k < |Chunks(n)| ==> Chunks(n)[k] in {1, 2, 4, 8}
    ensures n > 0 ==> Chunks(n)[0] == Chunk(n)
    decreases n
  {
    if n > 0 {
      var c := Chunk(n);
      ChunksCoverCopy(n - c);
      var rest := Chunks(n - c);
      assert Chunks(n) == [c] + rest;
      assert (([c] + rest)[1..]) == rest;
      if rest != [] {
        assert rest[0] == Chunk(n - c);
        assert rest[0] <= c;
      }
    }
  }

  /** The size of the last chunk of a copy, which is the width `mov_bytes` leaves behind. */
  function LastChunk(n: nat): nat
    requires n > 0
    decreases n
  {
    if n - Chunk(n) == 0 then Chunk(n) else LastChunk(n - Chunk(n))
  }

  /** The last chunk is the lowest set bit of the byte count, capped at 8. */
  lemma {:induction false} LastChunkIsLowestBit(n: nat)
    requires n > 0
    ensures LastChunk(n) == (if n % 8 == 0 then 8 else if n % 2 == 1 then 1 else if n % 4 == 2 then 2 else 4)
    decreases n
  {
    if n > 8 {
      assert Chunk(n) == 8;
      LastChunkIsLowestBit(n - 8);
      assert (n - 8) % 8 == n % 8 && (n - 8) % 4 == n % 4 && (n - 8) % 2 == n % 2;
    } else if n == 8 {
      assert LastChunk(n) == 8;
    } else {
      assert n in {1, 2, 3, 4, 5, 6, 7};
      assert LastChunk(3) == 1 && LastChunk(5) == 1 && LastChunk(6) == 2 && LastChunk(7) == 1;
    }
  }

  /** The three lines one chunk of a copy emits: load at the source offset, store, advance the destination. */
  function ChunkLines(source: Reg, target: Reg, scratch: Reg, offset: nat, c: nat): seq<Line>
    requires source.ADDRESS?
  {
    [ Ins("mov ", WithOffset(source, offset), scratch, c),
      Ins("mov ", scratch, AsAddress(target), c),
      Ins("add ", IMMEDIATE(c), target, c) ]
  }

  /** The lines `mov_bytes` emits from the point where `remaining` of `total` bytes are left. */
  function CopyLines(source: Reg, target: Reg, scratch: Reg, total: nat, remaining: nat): seq<Line>
    requires source.ADDRESS? && remaining <= total
    decreases remaining
  {
    if remaining == 0 then []
    else
      var c := Chunk(remaining);
      ChunkLines(source, target, scratch, total - remaining, c) + CopyLines(source, target, scratch, total, remaining - c)
  }

  /** The copy of a list of chunks whose first is read `offset` bytes into the source. */
  function RunningCopy(source: Reg, target: Reg, scratch: Reg, offset: nat, chunks: seq<nat>): seq<Line>
    requires source.ADDRESS?
    decreases |chunks|
  {
    if chunks == [] then []
    else ChunkLines(source, target, scratch, offset, chunks[0]) + RunningCopy(source, target, scratch, offset + chunks[0], chunks[1..])
  }

  /** The source offsets of the chunks run 0, c1, c1 + c2, ...: a chunk is read at the sum of the chunks before it. */
  lemma {:induction false} CopyReadsConsecutively(source: Reg, target: Reg, scratch: Reg, total: nat, remaining: nat)
    requires source.ADDRESS? && remaining <= total
    ensures CopyLines(source, target, scratch, total, remaining) == RunningCopy(source, target, scratch, total - remaining, Chunks(remaining))
    decreases remaining
  {
    if remaining > 0 {
      var c := Chunk(remaining);
      var chunks := Chunks(remaining);
      assert chunks[0] == c && chunks[1..] == Chunks(remaining - c);
      CopyReadsConsecutively(source, target, scratch, total, remaining - c);
    }
  }

  /** One round of the copy loop: its three lines move from the lines still due to the lines emitted. */
  lemma CopyStep(whole: seq<Line>, before: seq<Line>, after: seq<Line>, source: Reg, target: Reg, scratch: Reg,
                 total: nat, remaining: nat)
    requires source.ADDRESS? && 0 < remaining <= total
    requires whole == before + CopyLines(source, target, scratch, total, remaining)
    requires after == before + ChunkLines(source, target, scratch, total - remaining, Chunk(remaining))
    ensures whole == after + CopyLines(source, target, scratch, total, remaining - Chunk(remaining))
    ensures LastChunk(remaining) == if remaining - Chunk(remaining) == 0 then Chunk(remaining) else LastChunk(remaining - Chunk(remaining))
  {
    var c := Chunk(remaining);
    var lines := ChunkLines(source, target, scratch, total - remaining, c);
    var rest := CopyLines(source, target, scratch, total, remaining - c);
    assert CopyLines(source, target, scratch, total, remaining) == lines + rest;
    Regroup(before, lines, rest);
  }

  /** The registers the call sequence saves from index `p` while the index is at `i`: p, p-1, ..., i+1. */
  function SavedFrom(p: nat, i: nat): seq<Reg>
    decreases p - i
  {
    if i >= p then [] else SavedFrom(p, i + 1) + [GetIndex(i + 1)]
  }

  /** The registers saved around a call made with the index at `p`: p down to R10. */
  function Saved(p: nat): seq<Reg> {
    SavedFrom(p, InitialIndex - 1)
  }

  /** The registers restored after the call while the index climbs to `i`: R10, ..., i-1. */
  function RestoredTo(i: nat): seq<Reg> {
    if i <= InitialIndex then [] else RestoredTo(i - 1) + [GetIndex(i - 1)]
  }

  /** The registers restored after a call made with the index at `p`: R10 up to p. */
  function Restored(p: nat): seq<Reg> {
    RestoredTo(p + 1)
  }

  /** The elements of `s` last to first. */
  function Reverse<T>(s: seq<T>): (r: seq<T>)
    ensures |r| == |s|
  {
    if s == [] then [] else Reverse(s[1..]) + [s[0]]
  }

  lemma {:induction false} ReverseAppend<T>(s: seq<T>, x: T)
    ensures Reverse(s + [x]) == [x] + Reverse(s)
  {
    if s != [] {
      assert (s + [x])[1..] == s[1..] + [x];
      ReverseAppend(s[1..], x);
    }
  }

  /** Saving from `p` is the register p followed by the saves from p - 1. */
  lemma {:induction false} SavedShift(p: nat, i: nat)
    requires i < p
    ensures SavedFrom(p, i) == [GetIndex(p)] + SavedFrom(p - 1, i)
    decreases p - i
  {
    if i + 1 < p {
      SavedShift(p, i + 1);
    }
  }

  /** The saves and restores around a call are last in, first out, one per register from R10 to the current one. */
  lemma {:induction false} RestoreReversesSave(p: nat)
    requires InitialIndex <= p
    ensures Restored(p) == Reverse(Saved(p))
    ensures |Saved(p)| == p - InitialIndex + 1
    decreases p
  {
    if p == InitialIndex {
      assert SavedFrom(p, InitialIndex) == [];
      assert Saved(p) == [GetIndex(InitialIndex)];
      assert Restored(p) == [GetIndex(InitialIndex)];
    } else {
      SavedShift(p, InitialIndex - 1);
      RestoreReversesSave(p - 1);
      ReverseAppend(Saved(p - 1), GetIndex(p));
    }
  }

  /** `emit_sins` over a list of registers. */
  function SinsLines(op: string, rs: seq<Reg>, width: nat): (lines: seq<Line>)
    ensures |lines| == |rs|
  {
    if rs == [] then [] else [Sins(op, rs[0], width)] + SinsLines(op, rs[1..], width)
  }

  lemma {:induction false} SinsLinesAppend(op: string, rs: seq<Reg>, r: Reg, width: nat)
    ensures SinsLines(op, rs + [r], width) == SinsLines(op, rs, width) + [Sins(op, r, width)]
  {
    if rs != [] {
      assert (rs + [r])[1..] == rs[1..] + [r];
      SinsLinesAppend(op, rs[1..], r, width);
    }
  }

  /** One push of the save loop extends the saved lines by the register it pops. */
  lemma SaveStep(start: seq<Line>, out: seq<Line>, p: nat, i: nat)
    requires i < p && out == start + SinsLines("push", SavedFrom(p, i + 1), 8)
    ensures out + [Sins("push", GetIndex(i + 1), 8)] == start + SinsLines("push", SavedFrom(p, i), 8)
  {
    SinsLinesAppend("push", SavedFrom(p, i + 1), GetIndex(i + 1), 8);
  }

  /** One pop of the restore loop extends the restored lines by the register it pushes. */
  lemma RestoreStep(start: seq<Line>, out: seq<Line>, i: nat)
    requires InitialIndex <= i && out == start + SinsLines("pop ", RestoredTo(i), 8)
    ensures out + [Sins("pop ", GetIndex(i), 8)] == start + SinsLines("pop ", RestoredTo(i + 1), 8)
  {
    SinsLinesAppend("pop ", RestoredTo(i), GetIndex(i), 8);
  }

  /** Up to 14, distinct indices name distinct registers. */
  lemma GetIndexInjective(i: nat, j: nat)
    requires i <= GeneralCount && j <= GeneralCount
    ensures GetIndex(i) == GetIndex(j) <==> i == j
  {
    IndexRoundTrip(i, GetIndex(i));
    IndexRoundTrip(j, GetIndex(j));
  }

  /** The lines the argument loop of a call emits: each argument's code, then a move into its ABI register at its width. */
  function ArgumentLines(args: seq<seq<Line>>, sizes: seq<nat>, current: Reg, k: nat): seq<Line>
    requires |args| == |sizes| <= 6 && k <= |args|
    decreases |args| - k
  {
    if k == |args| then []
    else args[k] + [Ins("mov ", current, ParameterRegister(k), sizes[k])] + ArgumentLines(args, sizes, current, k + 1)
  }

  /** One round of the argument loop: its code and move go from the lines still due to the lines emitted. */
  lemma ArgumentStep(whole: seq<Line>, before: seq<Line>, after: seq<Line>, args: seq<seq<Line>>, sizes: seq<nat>,
                     current: Reg, k: nat)
    requires |args| == |sizes| <= 6 && k < |args|
    requires whole == before + ArgumentLines(args, sizes, current, k)
    requires after == before + args[k] + [Ins("mov ", current, ParameterRegister(k), sizes[k])]
    ensures whole == after + ArgumentLines(args, sizes, current, k + 1)
  {
  }

  /** The `while` skeleton as written: head label, condition, exit test, body, back jump, end label. */
  function WhileLines(loop: nat, condition: seq<Line>, body: seq<Line>, width: nat, current: Reg): seq<Line> {
    var (head, end, _) := LabelNames(loop);
    [Label(head)] + condition + [Ins("cmp ", IMMEDIATE(0), current, width), Jump("je", end)]
      + body + [Jump("jmp", head), Label(end)]
  }

  /** The `for` skeleton: init, head label, condition, exit test, body, continue label, post, back jump, end label. */
  function ForLines(loop: nat, init: seq<Line>, condition: seq<Line>, body: seq<Line>, post: seq<Line>,
                    width: nat, current: Reg): seq<Line> {
    var (head, end, next) := LabelNames(loop);
    init + [Label(head)] + condition + [Ins("cmp ", IMMEDIATE(0), current, width), Jump("je", end)]
      + body + [Label(next)] + post + [Jump("jmp", head), Label(end)]
  }

  /** Appending the `while` skeleton line by line, in the order the visitor emits it, appends the skeleton. */
  lemma WhileLinesAfter(prefix: seq<Line>, loop: nat, condition: seq<Line>, body: seq<Line>, width: nat, current: Reg)
    ensures var (head, end, _) := LabelNames(loop);
      prefix + WhileLines(loop, condition, body, width, current)
        == prefix + [Label(head)] + condition + [Ins("cmp ", IMMEDIATE(0), current, width)] + [Jump("je", end)]
          + body + [Jump("jmp", head)] + [Label(end)]
  {
    var (head, end, _) := LabelNames(loop);
    var test := [Ins("cmp ", IMMEDIATE(0), current, width)] + [Jump("je", end)];
    var back := [Jump("jmp", head)] + [Label(end)];
    var x1 := [Label(head)] + condition;
    var x2 := x1 + test;
    var x3 := x2 + body;
    assert WhileLines(loop, condition, body, width, current) == x3 + back;
    Regroup(prefix, x3, back);
    Regroup(prefix + x3, [Jump("jmp", head)], [Label(end)]);
    Regroup(prefix, x2, body);
    Regroup(prefix, x1, test);
    Regroup(prefix + x1, [Ins("cmp ", IMMEDIATE(0), current, width)], [Jump("je", end)]);
    Regroup(prefix, [Label(head)], condition);
  }

  /** Appending the `for` skeleton line by line, in the order the visitor emits it, appends the skeleton. */
  lemma ForLinesAfter(prefix: seq<Line>, loop: nat, init: seq<Line>, condition: seq<Line>, body: seq<Line>,
                      post: seq<Line>, width: nat, current: Reg)
    ensures var (head, end, next) := LabelNames(loop);
      prefix + ForLines(loop, init, condition, body, post, width, current)
        == prefix + init + [Label(head)] + condition + [Ins("cmp ", IMMEDIATE(0), current, width)] + [Jump("je", end)]
          + body + [Label(next)] + post + [Jump("jmp", head)] + [Label(end)]
  {
    var (head, end, next) := LabelNames(loop);
    var test := [Ins("cmp ", IMMEDIATE(0), current, width)] + [Jump("je", end)];
    var back := [Jump("jmp", head)] + [Label(end)];
    var x1 := init + [Label(head)];
    var x2 := x1 + condition;
    var x3 := x2 + test;
    var x4 := x3 + body;
    var x5 := x4 + [Label(next)];
    var x6 := x5 + post;
    assert ForLines(loop, init, condition, body, post, width, current) == x6 + back;
    Regroup(prefix, x6, back);
    Regroup(prefix + x6, [Jump("jmp", head)], [Label(end)]);
    Regroup(prefix, x5, post);
    Regroup(prefix, x4, [Label(next)]);
    Regroup(prefix, x3, body);
    Regroup(prefix, x2, test);
    Regroup(prefix + x2, [Ins("cmp ", IMMEDIATE(0), current, width)], [Jump("je", end)]);
    Regroup(prefix, x1, condition);
    Regroup(prefix, init, [Label(head)]);
  }

  /** The line `continue` emits: a jump to the loop's third name. */
  function ContinueLine(loop: nat): Line { Jump("jmp", LabelNames(loop).2) }

  /** The line `break` emits: a jump to the loop's end name. */
  function BreakLine(loop: nat): Line { Jump("jmp", LabelNames(loop).1) }

  /** A `for` places the label `continue` jumps to and the label `break` jumps to. */
  lemma ForDefinesJumpTargets(loop: nat, init: seq<Line>, condition: seq<Line>, body: seq<Line>,
                              post: seq<Line>, width: nat, current: Reg)
    ensures Label(ContinueLine(loop).target) in ForLines(loop, init, condition, body, post, width, current)
    ensures Label(BreakLine(loop).target) in ForLines(loop, init, condition, body, post, width, current)
  {
    var lines := ForLines(loop, init, condition, body, post, width, current);
    assert lines[|init| + 1 + |condition| + 2 + |body|] == Label(ContinueLine(loop).target);
    assert lines[|lines| - 1] == Label(BreakLine(loop).target);
  }

  /**
   * A `while` places only its head and end labels: unless the condition or
   * body code already write it, no line of the loop writes the label that a
   * `continue` inside it jumps to.
   */
  lemma WhileLacksContinueTarget(loop: nat, condition: seq<Line>, body: seq<Line>, width: nat, current: Reg)
    requires forall l :: l in condition + body ==> Render(l) != Render(Label(ContinueLine(loop).target))
    ensures forall l :: l in WhileLines(loop, condition, body, width, current) ==> Render(l) != Render(Label(ContinueLine(loop).target))
    ensures Label(BreakLine(loop).target) in WhileLines(loop, condition, body, width, current)
  {
    var (head, end, next) := LabelNames(loop);
    LabelNamesDistinct(loop, loop);
    var lines := WhileLines(loop, condition, body, width, current);
    assert lines[|lines| - 1] == Label(end);
    forall l | l in lines
      ensures Render(l) != Render(Label(next))
    {
      if l !in condition + body {
        LabelRendering(next, l);
      }
    }
  }

  /** The corrected `while` skeleton: the head also carries the continue target. */
  function WhileLinesCorrected(loop: nat, condition: seq<Line>, body: seq<Line>, width: nat, current: Reg): seq<Line> {
    var (head, end, next) := LabelNames(loop);
    [Label(head), Label(next)] + condition + [Ins("cmp ", IMMEDIATE(0), current, width), Jump("je", end)]
      + body + [Jump("jmp", head), Label(end)]
  }

  /** The corrected `while` places both labels its `continue` and `break` jump to, and is otherwise the loop as written. */
  lemma WhileCorrectedDefinesJumpTargets(loop: nat, condition: seq<Line>, body: seq<Line>, width: nat, current: Reg)
    ensures Label(ContinueLine(loop).target) in WhileLinesCorrected(loop, condition, body, width, current)
    ensures Label(BreakLine(loop).target) in WhileLinesCorrected(loop, condition, body, width, current)
    ensures var written := WhileLines(loop, condition, body, width, current);
      WhileLinesCorrected(loop, condition, body, width, current) == written[..1] + [Label(LabelNames(loop).2)] + written[1..]
  {
    var lines := WhileLinesCorrected(loop, condition, body, width, current);
    assert lines[1] == Label(ContinueLine(loop).target);
    assert lines[|lines| - 1] == Label(BreakLine(loop).target);
  }

  class Generator {
    /** Everything emitted so far, in order. */
    var out: seq<Line>
    /** CLAUSE_COUNT. */
    var clauseCount: nat
    const regs: Registers

    ghost predicate Valid()
      reads this, regs
    {
      regs.Valid()
    }

    constructor (registers: Registers)
      requires registers.Valid()
      ensures Valid() && out == [] && clauseCount == 0 && regs == registers
    {
      out := [];
      clauseCount := 0;
      regs := registers;
    }

    /** `emit`: appends to the output. */
    method Emit(l: Line)
      modifies this`out
      ensures out == old(out) + [l]
    {
      out := out + [l];
    }

    /** `emit_ins` at the current width. */
    method EmitIns(op: string, from: Reg, to: Reg)
      modifies this`out
      ensures out == old(out) + [Ins(op, from, to, regs.size)]
    {
      Emit(Ins(op, from, to, regs.size));
    }

    /** `emit_sins` at the current width. */
    method EmitSins(op: string, r: Reg)
      modifies this`out
      ensures out == old(out) + [Sins(op, r, regs.size)]
    {
      Emit(Sins(op, r, regs.size));
    }

    method Mov(from: Reg, to: Reg)
      modifies this`out
      ensures out == old(out) + [Ins("mov ", from, to, regs.size)]
    {
      EmitIns("mov ", from, to);
    }

    method Add(from: Reg, to: Reg)
      modifies this`out
      ensures out == old(out) + [Ins("add ", from, to, regs.size)]
    {
      EmitIns("add ", from, to);
    }

    method Sub(from: Reg, to: Reg)
      modifies this`out
      ensures out == old(out) + [Ins("sub ", from, to, regs.size)]
    {
      EmitIns("sub ", from, to);
    }

    method Mul(from: Reg, to: Reg)
      modifies this`out
      ensures out == old(out) + [Ins("imul", from, to, regs.size)]
    {
      EmitIns("imul", from, to);
    }

    method Cmp(from: Reg, to: Reg)
      modifies this`out
      ensures out == old(out) + [Ins("cmp ", from, to, regs.size)]
    {
      EmitIns("cmp ", from, to);
    }

    /** `lea`: switches to width eight, then emits. */
    method Lea(from: Reg, to: Reg)
      modifies this`out, regs`size
      ensures regs.size == 8
      ensures out == old(out) + [Ins("lea ", from, to, 8)]
    {
      var _ := regs.SetSize(8);
      EmitIns("lea ", from, to);
    }

    /** `gen_cmp`: compare, clear the target, then the set instruction at width one; the width is put back. */
    method GenCmp(op: string, from: Reg, to: Reg)
      modifies this`out, regs`size
      ensures regs.size == old(regs.size)
      ensures out == old(out) + [Ins("cmp ", from, to, regs.size), Ins("mov ", IMMEDIATE(0), to, regs.size), Sins(op, to, 1)]
    {
      Cmp(from, to);
      Mov(IMMEDIATE(0), to);
      var prev := regs.SetSize(1);
      EmitSins(op, to);
      var _ := regs.SetSize(prev);
    }

    /** `generate_clause_names`: the names for the counter's value, which then moves on by one. */
    method GenerateClauseNames() returns (elseLabel: string, endLabel: string)
      modifies this`clauseCount
      ensures (elseLabel, endLabel) == ClauseNames(old(clauseCount))
      ensures clauseCount == old(clauseCount) + 1
    {
      var n := clauseCount;
      clauseCount := clauseCount + 1;
      elseLabel := "_clause" + NatToString(n);
      endLabel := "_end" + NatToString(n);
    }

    /**
     * `mov_bytes`: copies `bytes` bytes from the memory `from` points at to
     * the memory `to` points at, through the current register, in chunks of
     * 8, 4, 2 and 1 bytes.  The width is left at the last chunk's size.
     */
    method MovBytes(from: Reg, to: Reg, bytes: nat)
      requires Valid()
      modifies this`out, regs`size
      ensures Valid() && regs.index == old(regs.index)
      ensures out == old(out) + CopyLines(AsAddress(from), to, GetIndex(regs.index), bytes, bytes)
      ensures bytes == 0 ==> regs.size == old(regs.size)
      ensures bytes > 0 ==> regs.size == LastChunk(bytes)
    {
      var total: nat := bytes;
      var remaining: nat := total;
      var source := AsAddress(from);
      ghost var scratch := GetIndex(regs.index);
      ghost var whole := out + CopyLines(source, to, scratch, total, total);
      while remaining > 0
        invariant Valid() && regs.index == old(regs.index)
        invariant remaining <= total
        invariant whole == out + CopyLines(source, to, scratch, total, remaining)
        invariant remaining == total ==> regs.size == old(regs.size)
        invariant remaining > 0 ==> LastChunk(remaining) == LastChunk(total)
        invariant remaining == 0 < total ==> regs.size == LastChunk(total)
        decreases remaining
      {
        ghost var before := out;
        var chunk := CopyChunk(source, to, total, remaining);
        CopyStep(whole, before, out, source, to, scratch, total, remaining);
        remaining := remaining - chunk;
      }
    }

    /**
     * One round of the `mov_bytes` loop with `remaining` of `total` bytes
     * left: load the next chunk into the current register, store it, advance
     * `to`.  The four arms of the match differ only in the chunk size.
     */
    method CopyChunk(source: Reg, to: Reg, total: nat, remaining: nat) returns (chunk: nat)
      requires Valid() && source.ADDRESS? && 0 < remaining <= total
      modifies this`out, regs`size
      ensures chunk == Chunk(remaining)
      ensures Valid() && regs.index == old(regs.index) && regs.size == chunk
      ensures out == old(out) + ChunkLines(source, to, GetIndex(regs.index), total - remaining, chunk)
    {
      chunk := Chunk(remaining);
      var offset := total - remaining;
      var _ := regs.SetSize(chunk);
      var current := regs.Current();
      Mov(WithOffset(source, offset), current);
      current := regs.Current();
      Mov(current, AsAddress(to));
      Add(IMMEDIATE(chunk), to);
    }

    /** `continue`: a jump to the loop's continue target. */
    method EmitContinue(loop: nat)
      modifies this`out
      ensures out == old(out) + [ContinueLine(loop)]
    {
      var (_, _, next) := LabelNames(loop);
      Emit(Jump("jmp", next));
    }

    /** `break`: a jump to the loop's end. */
    method EmitBreak(loop: nat)
      modifies this`out
      ensures out == old(out) + [BreakLine(loop)]
    {
      var (_, end, _) := LabelNames(loop);
      Emit(Jump("jmp", end));
    }

    /** The `while` visitor around the given condition and body code. */
    method EmitWhile(loop: nat, condition: seq<Line>, body: seq<Line>)
      requires Valid()
      modifies this`out
      ensures out == old(out) + WhileLines(loop, condition, body, regs.size, GetIndex(regs.index))
    {
      var (head, end, _) := LabelNames(loop);
      Emit(Label(head));
      out := out + condition;
      var current := regs.Current();
      Cmp(IMMEDIATE(0), current);
      Emit(Jump("je", end));
      out := out + body;
      Emit(Jump("jmp", head));
      Emit(Label(end));
      WhileLinesAfter(old(out), loop, condition, body, regs.size, current);
    }

    /** The `for` visitor around the given init, condition, body and post code (an absent post is empty). */
    method EmitFor(loop: nat, init: seq<Line>, condition: seq<Line>, body: seq<Line>, post: seq<Line>)
      requires Valid()
      modifies this`out
      ensures out == old(out) + ForLines(loop, init, condition, body, post, regs.size, GetIndex(regs.index))
    {
      var (head, end, next) := LabelNames(loop);
      out := out + init;
      Emit(Label(head));
      out := out + condition;
      var current := regs.Current();
      Cmp(IMMEDIATE(0), current);
      Emit(Jump("je", end));
      out := out + body;
      Emit(Label(next));
      out := out + post;
      Emit(Jump("jmp", head));
      Emit(Label(end));
      ForLinesAfter(old(out), loop, init, condition, body, post, regs.size, current);
    }

    /** The `if` visitor around the given code: exit test, then-branch, jump over the else-branch, else-branch. */
    method EmitIf(condition: seq<Line>, thenCode: seq<Line>, elseCode: seq<Line>)
      requires Valid()
      modifies this`out, this`clauseCount
      ensures clauseCount == old(clauseCount) + 1
      ensures var (elseLabel, end) := ClauseNames(old(clauseCount));
        out == old(out) + condition
          + [Ins("cmp ", IMMEDIATE(0), GetIndex(regs.index), regs.size), Jump("je", elseLabel)]
          + thenCode + [Jump("jmp", end), Label(elseLabel)] + elseCode + [Label(end)]
    {
      out := out + condition;
      var elseLabel, end := GenerateClauseNames();
      var current := regs.Current();
      Cmp(IMMEDIATE(0), current);
      Emit(Jump("je", elseLabel));
      out := out + thenCode;
      Emit(Jump("jmp", end));
      Emit(Label(elseLabel));
      out := out + elseCode;
      Emit(Label(end));
    }

    /**
     * The call visitor: each argument's code and its move into the ABI
     * register at its width; then, with the index above R10, every register
     * from the current one down to R10 is pushed, the call is made, and the
     * same registers are popped in reverse order; finally the result is moved
     * from RAX into the current register at the return type's width.
     */
    method EmitCall(name: string, args: seq<seq<Line>>, sizes: seq<nat>, returnSize: nat)
      requires Valid() && InitialIndex <= regs.index <= GeneralCount
      requires |args| == |sizes| <= 6
      modifies this`out, regs
      ensures Valid() && regs.index == old(regs.index) && regs.size == returnSize
      ensures var p := old(regs.index);
        out == old(out)
          + ArgumentLines(args, sizes, GetIndex(p), 0)
          + (if p == InitialIndex then [] else SinsLines("push", Saved(p), 8))
          + [CallTo(name)]
          + (if p == InitialIndex then [] else SinsLines("pop ", Restored(p), 8))
          + [Ins("mov ", RAX, GetIndex(p), returnSize)]
    {
      ghost var p := regs.index;
      ghost var start := out;
      var k := 0;
      while k < |args|
        invariant k <= |args| && Valid() && regs.index == p
        invariant start + ArgumentLines(args, sizes, GetIndex(p), 0) == out + ArgumentLines(args, sizes, GetIndex(p), k)
      {
        ghost var before := out;
        out := out + args[k];
        var _ := regs.SetSize(sizes[k]);
        var current := regs.Current();
        Mov(current, ParameterRegister(k));
        ArgumentStep(start + ArgumentLines(args, sizes, GetIndex(p), 0), before, out, args, sizes, GetIndex(p), k);
        k := k + 1;
      }
      ghost var argued := out;
      assert argued == start + ArgumentLines(args, sizes, GetIndex(p), 0);
      ghost var saves: seq<Line> := if p == InitialIndex then [] else SinsLines("push", Saved(p), 8);
      ghost var restores: seq<Line> := if p == InitialIndex then [] else SinsLines("pop ", Restored(p), 8);
      var _ := regs.SetSize(8);
      var prev := regs.Current();
      GetIndexInjective(p, InitialIndex);
      if prev != R10 {
        SaveRegisters();
      } else {
        assert argued + saves == argued;
      }
      ghost var saved := out;
      assert saved == argued + saves;
      Emit(CallTo(name));
      ghost var called := out;
      if prev != R10 {
        var _ := regs.SetSize(8);
        RestoreRegisters(prev, p);
      } else {
        assert called + restores == called;
      }
      assert out == called + restores;
      var _ := regs.SetSize(returnSize);
      var current := regs.Current();
      Mov(RAX, current);
    }

    /** The save half of a call: `push` each register from the current one down to R10. */
    method SaveRegisters()
      requires Valid() && InitialIndex < regs.index <= GeneralCount && regs.size == 8
      modifies this`out, regs
      ensures Valid() && regs.index == InitialIndex && regs.size == 8
      ensures out == old(out) + SinsLines("push", Saved(old(regs.index)), 8)
    {
      ghost var p := regs.index;
      var current := regs.Current();
      GetIndexInjective(regs.index, InitialIndex);
      while current != R10
        invariant Valid() && InitialIndex <= regs.index <= p && regs.size == 8
        invariant current == GetIndex(regs.index)
        invariant out == old(out) + SinsLines("push", SavedFrom(p, regs.index), 8)
        decreases regs.index
      {
        var r := regs.Pop();
        SaveStep(old(out), out, p, regs.index);
        EmitSins("push", r);
        current := regs.Current();
        GetIndexInjective(regs.index, InitialIndex);
      }
      SaveStep(old(out), out, p, InitialIndex - 1);
      EmitSins("push", current);
    }

    /** The restore half of a call: `pop` each register from R10 up to `prev`, the one current before the saves. */
    method RestoreRegisters(prev: Reg, ghost p: nat)
      requires Valid() && regs.index == InitialIndex && regs.size == 8
      requires InitialIndex < p <= GeneralCount && prev == GetIndex(p)
      modifies this`out, regs
      ensures Valid() && regs.size == 8 && regs.index == p
      ensures out == old(out) + SinsLines("pop ", Restored(p), 8)
    {
      var current := regs.Current();
      GetIndexInjective(regs.index, p);
      assert out == old(out) + SinsLines("pop ", RestoredTo(regs.index), 8);
      while current != prev
        invariant Valid() && InitialIndex <= regs.index <= p && regs.size == 8
        invariant current == GetIndex(regs.index)
        invariant out == old(out) + SinsLines("pop ", RestoredTo(regs.index), 8)
        decreases p - regs.index
      {
        var r := regs.Push();
        RestoreStep(old(out), out, regs.index - 1);
        EmitSins("pop ", r);
        current := regs.Current();
        GetIndexInjective(regs.index, p);
      }
      RestoreStep(old(out), out, p);
      EmitSins("pop ", current);
    }
  }
}
