/**
 * The growable array of test.h.  One allocation holds a two-`long` header
 * (capacity, length) followed by the element slots; the handle callers index
 * is the address of the first slot.  The header fields live in the class, the
 * slots in an array, and addresses are plain integers given by the allocator.
 */
module DynList {

  /** DEFAULT_SIZE: element slots of a fresh list and the capacity set on first use. */
  const DefaultSize: nat := 128
  /** sizeof(long) on the target. */
  const LongBytes: nat := 8
  /** sizeof(DynList): the header is two longs. */
  const HeaderBytes: nat := 2 * LongBytes

  /**
   * The handle `DYNLIST` returns for a block allocated at `block`.  The
   * `+ sizeof(long) * 2` is a byte offset only because rust-c's `+` on a
   * pointer adds the plain integer, unscaled (src/generator.rs:463).
   * Under standard C the re-handle after `realloc` in test.h:26, which
   * adds to a `type*`, would advance 16 elements instead.
   */
  function HandleOf(block: int): int { block + HeaderBytes }

  /** `DYNLIST_CAST`: from a handle back to the header it follows. */
  function HeaderOf(handle: int): int { handle - HeaderBytes }

  /** The header is found exactly two longs before the handle. */
  lemma CastFindsHeader(block: int)
    ensures HeaderOf(HandleOf(block)) == block
    ensures HandleOf(block) - block == 2 * LongBytes
  {
  }

  /** The capacity once the first-use rule has run. */
  function InitialCapacity(capacity: nat): nat {
    if capacity == 0 then DefaultSize else capacity
  }

  /** A push reallocates when the list is full after the first-use rule. */
  predicate Grows(capacity: nat, length: nat) {
    length == InitialCapacity(capacity)
  }

  /** The capacity a push leaves behind. */
  function NextCapacity(capacity: nat, length: nat): nat {
    if Grows(capacity, length) then 2 * InitialCapacity(capacity) else InitialCapacity(capacity)
  }

  /** The capacity rule of a push, case by case. */
  lemma NextCapacityCases(capacity: nat, length: nat)
    requires length <= capacity
    ensures capacity == 0 ==> NextCapacity(capacity, length) == DefaultSize && !Grows(capacity, length)
    ensures capacity > 0 && length == capacity ==> NextCapacity(capacity, length) == 2 * capacity
    ensures capacity > 0 && length < capacity ==> NextCapacity(capacity, length) == capacity
    ensures length + 1 <= NextCapacity(capacity, length)
  {
  }

  /** The byte count test.h asks `realloc` for when a full list grows. */
  function GrowRequestAsWritten(capacity: nat): nat {
    HeaderBytes + capacity * 2
  }

  /** The byte count a header plus twice `capacity` elements of `elementSize` bytes occupy. */
  function GrowRequest(capacity: nat, elementSize: nat): nat {
    HeaderBytes + 2 * capacity * elementSize
  }

  /** For any element wider than one byte the request as written is too small for the doubled list. */
  lemma AsWrittenUnderAllocates(capacity: nat, elementSize: nat)
    requires capacity > 0 && elementSize > 1
    ensures GrowRequestAsWritten(capacity) < GrowRequest(capacity, elementSize)
    ensures GrowRequestAsWritten(capacity) < HeaderBytes + (capacity + 1) * elementSize
  {
    assert 2 * capacity * elementSize >= 2 * capacity * 2 by {
      MulMonotone(2 * capacity, 2, elementSize);
    }
    assert (capacity + 1) * elementSize >= (capacity + 1) * 2 by {
      MulMonotone(capacity + 1, 2, elementSize);
    }
  }

  lemma MulMonotone(a: nat, b: nat, c: nat)
    requires b <= c
    ensures a * b <= a * c
  {
  }

  /** The growth of code.c's `Point` list: 272 bytes asked for, 2064 needed. */
  lemma PointListGrowth()
    ensures GrowRequestAsWritten(DefaultSize) == 272
    ensures GrowRequest(DefaultSize, 8) == 2064
  {
  }

  /** The corrected request holds the header and every slot of the doubled list. */
  lemma GrowRequestCovers(capacity: nat, elementSize: nat, slot: nat)
    requires slot < 2 * capacity
    ensures HeaderBytes + (slot + 1) * elementSize <= GrowRequest(capacity, elementSize)
  {
    MulMonotone(elementSize, slot + 1, 2 * capacity);
  }

  class List<T(0)> {
    /** The element slots of the current block. */
    var data: array<T>
    /** The header's `capacity` field. */
    var capacity: nat
    /** The header's `length` field. */
    var length: nat
    /** Address of the current block, where the header sits. */
    var header: int
    /** Bytes requested for the current block. */
    var allocatedBytes: nat
    var freed: bool
    /** sizeof(type) of the element type. */
    const elementSize: nat

    ghost predicate Valid()
      reads this
    {
      && length <= capacity
      && data.Length == (if capacity == 0 then DefaultSize else capacity)
      && allocatedBytes == HeaderBytes + data.Length * elementSize
    }

    /** The pushed elements, in order. */
    ghost function Elements(): seq<T>
      reads this, data
      requires Valid()
    {
      data[..length]
    }

    /** The address callers index: the first slot, just past the header. */
    function Handle(): int
      reads this
    {
      HandleOf(header)
    }

    /** `DYNLIST(type)`: a zeroed block of header plus 128 slots at address `block`. */
    constructor Create(block: int, size: nat)
      ensures Valid() && fresh(data) && !freed
      ensures elementSize == size && header == block
      ensures Elements() == [] && capacity == 0 && length == 0
      ensures data.Length == DefaultSize
      ensures allocatedBytes == HeaderBytes + DefaultSize * size
    {
      data := new T[DefaultSize];
      capacity := 0;
      length := 0;
      header := block;
      elementSize := size;
      allocatedBytes := HeaderBytes + DefaultSize * size;
      freed := false;
    }

    /** `DYNLIST_LEN`: the header's length, read through the handle. */
    method Len() returns (n: nat)
      requires Valid()
      ensures n == length && n == |Elements()|
    {
      n := length;
    }

    /** `DYNLIST_CAP`: the header's capacity, read through the handle. */
    method Cap() returns (c: nat)
      requires Valid()
      ensures c == capacity && |Elements()| <= c
    {
      c := capacity;
    }

    /** `DYNLIST_FREE`: releases the block at the header address, not at the handle. */
    method Free() returns (released: int)
      requires Valid() && !freed
      modifies this`freed
      ensures freed
      ensures released == HeaderOf(Handle()) && released == header
    {
      released := HeaderOf(Handle());
      freed := true;
    }

    /**
     * `DYNLIST_PUSH`: the first-use rule, growth by doubling when full (the
     * block moves to `moved`, as `realloc` may move it), then the store and the
     * length bump.  Growth allocates twice `capacity` element slots.
     */
    method Push(x: T, moved: int)
      requires Valid() && !freed
      modifies this, data
      ensures Valid() && !freed
      ensures Elements() == old(Elements()) + [x]
      ensures length == old(length) + 1
      ensures capacity == NextCapacity(old(capacity), old(length))
      ensures Grows(old(capacity), old(length)) ==> header == moved && fresh(data)
      ensures Grows(old(capacity), old(length)) ==> allocatedBytes == GrowRequest(old(data.Length), elementSize)
      ensures !Grows(old(capacity), old(length)) ==> header == old(header) && data == old(data)
    {
      if capacity == 0 {
        capacity := DefaultSize;
      }
      assert data.Length == capacity;
      if length == capacity {
        Grow(moved);
      }
      data[length] := x;
      length := length + 1;
    }

    /**
     * The `realloc` of a full push: the slots move to a fresh block of twice
     * the capacity at `moved`, and the handle is `moved` plus the header's
     * bytes, since rust-c adds to a pointer without scaling.
     */
    method Grow(moved: int)
      requires Valid() && 0 < capacity && length == capacity
      modifies this
      ensures Valid() && fresh(data) && freed == old(freed)
      ensures capacity == 2 * old(capacity) && length == old(length) && header == moved
      ensures data[..length] == old(data[..length])
      ensures allocatedBytes == GrowRequest(old(capacity), elementSize)
    {
      var block := new T[2 * capacity];
      var i := 0;
      while i < data.Length
        modifies block
        invariant data.Length == capacity && block.Length == 2 * capacity
        invariant 0 <= i <= data.Length
        invariant block[..i] == data[..i]
      {
        block[i] := data[i];
        i := i + 1;
      }
      allocatedBytes := GrowRequest(capacity, elementSize);
      data := block;
      header := moved;
      capacity := capacity * 2;
    }
  }

  /** The element type of code.c: a struct of two ints. */
  datatype Point = Point(x: int, y: int)

  /** sizeof(Point) on the target. */
  const PointBytes: nat := 8

  /** The first `n` points code.c pushes. */
  function CodePoints(n: nat): (ps: seq<Point>)
    ensures |ps| == n
    ensures forall k :: 0 <= k < n ==> ps[k] == Point(k, k * 33)
  {
    seq(n, k => Point(k, k * 33))
  }

  /**
   * code.c: ten pushes of `Point{i, 33i}` on a fresh list.  The list never
   * grows, so it keeps its first block.
   */
  method PointScenario(block: int) returns (len: nat, cap: nat, fifth: Point)
    ensures len == 10 && cap == DefaultSize && fifth == Point(5, 165)
  {
    var list := new List<Point>.Create(block, PointBytes);
    for i := 0 to 10
      invariant list.Valid() && !list.freed && fresh(list) && fresh(list.data)
      invariant list.Elements() == CodePoints(i)
      invariant list.capacity == (if i == 0 then 0 else DefaultSize)
    {
      list.Push(Point(i, i * 33), block);
    }
    len := list.Len();
    cap := list.Cap();
    fifth := list.data[5];
    var _ := list.Free();
  }

  /** 200 integer pushes on a fresh list grow it exactly once, to 256 slots. */
  method IntegerScenario(block: int, moved: int) returns (len: nat, cap: nat, last: int, growths: nat)
    ensures len == 200 && cap == 2 * DefaultSize && last == 199 && growths == 1
  {
    var list := new List<int>.Create(block, 4);
    growths := 0;
    for i := 0 to 200
      invariant list.Valid() && !list.freed && fresh(list) && fresh(list.data)
      invariant list.Elements() == seq(i, k => k)
      invariant list.capacity == (if i == 0 then 0 else if i <= DefaultSize then DefaultSize else 2 * DefaultSize)
      invariant growths == (if i <= DefaultSize then 0 else 1)
    {
      if Grows(list.capacity, list.length) {
        growths := growths + 1;
      }
      list.Push(i, moved);
    }
    len := list.Len();
    cap := list.Cap();
    last := list.data[199];
  }
}
