/** The growable buffer of block.c, in place. */
module Block {
  import opened Bytes

  const START_ALLOCATE_SIZE := 2000
  const MIN_FREE_ALLOCATE_SIZE := 2000
  const MIN_RE_ALLOC_MULTIPLY := 2

  /** The new size of a buffer that has no room for `required` more bytes and a zero. */
  function NewAllocation(capacity: int, required: int): int {
    var wanted := capacity + required + MIN_FREE_ALLOCATE_SIZE;
    if wanted > capacity * MIN_RE_ALLOC_MULTIPLY then wanted else capacity * MIN_RE_ALLOC_MULTIPLY
  }

  /** There is room for `required` more bytes and a zero, or the new size is a 32-bit number. */
  predicate FitsIn(capacity: int, size: int, required: int) {
    size + required < capacity || NewAllocation(capacity, required) < WORD
  }

  /** The size of the buffer once it has room. */
  function Grown(capacity: int, size: int, required: int): int {
    if size + required < capacity then capacity else NewAllocation(capacity, required)
  }

  /** Up to 2000 bytes may as well be added in two parts. */
  lemma {:induction false} PartFits(capacity: int, size: int, part: int, rest: int)
    requires 0 <= size < capacity && START_ALLOCATE_SIZE <= capacity
    requires 0 <= part && 0 <= rest && part + rest <= MIN_FREE_ALLOCATE_SIZE && FitsIn(capacity, size, part + rest)
    ensures FitsIn(capacity, size, part) && FitsIn(Grown(capacity, size, part), size + part, rest)
  {
  }

  lemma {:induction false} NewAllocationBounds(capacity: int, size: int, required: int, copied: int)
    requires START_ALLOCATE_SIZE <= capacity <= size + required && copied < capacity
    requires 0 <= size < capacity && 0 <= required
    ensures size + required < NewAllocation(capacity, required)
    ensures NewAllocation(capacity, required) <= 2 * (size + required) + START_ALLOCATE_SIZE
    ensures copied + capacity < NewAllocation(capacity, required)
  {
  }

  /** Copies bytes into an array from position `at` on. */
  method Memcpy(target: array<byte>, at: nat, bytes: seq<byte>)
    requires at + |bytes| <= target.Length
    modifies target
    ensures target[at..at + |bytes|] == bytes && target[..at] == old(target[..at])
  {
    ghost var before := target[..at];
    for i := 0 to |bytes|
      invariant target[at..at + i] == bytes[..i] && target[..at] == before
    {
      target[at + i] := bytes[i];
      assert target[at..at + i + 1] == target[at..at + i] + [bytes[i]];
    }
  }

  class Block {
    var data: array<byte>
    var size: u32
    var capacity: u32
    /** The largest size so far. */
    ghost var peak: nat
    /** The bytes moved by all reallocations so far. */
    ghost var copied: nat

    ghost predicate Valid()
      reads this, data
    {
      && size < capacity == data.Length < WORD
      && data[size] == 0
      && size <= peak
      && START_ALLOCATE_SIZE <= capacity <= 2 * peak + START_ALLOCATE_SIZE
      && copied < capacity
    }

    /** The bytes added since the last reset. */
    ghost function Contents(): (s: seq<byte>)
      requires Valid()
      reads this, data
    {
      data[..size]
    }

    /** `required` more bytes can be added. */
    ghost predicate Fits(required: int)
      reads this
    {
      FitsIn(capacity, size, required)
    }

    /** Contents of which twice and 2000 bytes more can be counted in 32 bits always fit. */
    lemma SmallFits(required: int)
      requires Valid() && 0 <= required && 2 * (size + required) + MIN_FREE_ALLOCATE_SIZE < WORD
      ensures Fits(required)
    {
    }

    /** No sum of the size and the bytes required wraps around. */
    lemma FitsIsSmall(required: int)
      requires Valid() && 0 <= required && Fits(required)
      ensures size + required < WORD
    {
    }

    /** `initBlock`. */
    constructor ()
      ensures Valid() && fresh(data) && Contents() == [] && peak == 0 && capacity == START_ALLOCATE_SIZE
    {
      var buffer := new byte[START_ALLOCATE_SIZE];
      buffer[0] := 0;
      data, size, capacity := buffer, 0, START_ALLOCATE_SIZE;
      peak, copied := 0, 0;
    }

    /** `resetBlock`: the memory stays. */
    method Reset()
      requires Valid()
      modifies this`size, data
      ensures Valid() && Contents() == []
    {
      size := 0;
      data[0] := 0;
    }

    /** `reAllocBlock`. */
    method ReAlloc(required: u32)
      requires Valid() && Fits(required)
      modifies this`data, this`capacity, this`copied, this`peak
      ensures size + required < capacity == data.Length < WORD
      ensures data[..size] == old(data[..size])
      ensures data == old(data) || fresh(data)
      ensures peak == if old(peak) > size + required then old(peak) else size + required
      ensures START_ALLOCATE_SIZE <= capacity <= 2 * peak + START_ALLOCATE_SIZE && copied < capacity
      ensures size <= peak
      ensures capacity == Grown(old(capacity), size, required)
    {
      hide NewAllocation;
      if peak < size + required {
        peak := size + required;
      }
      FitsIsSmall(required);
      if capacity > Wrap32(size + required) {
        return;
      }
      var newAlloc := NewAllocation(capacity, required);
      NewAllocationBounds(capacity, size, required, copied);
      if newAlloc > 0 {
        var buffer := new byte[newAlloc];
        Memcpy(buffer, 0, data[..]);
        copied := copied + capacity;
        assert buffer[..size] == buffer[0..capacity][..size] == data[..][..size];
        data := buffer;
        capacity := newAlloc;
      }
    }

    /** `addStringBlock`: the block ends with the bytes added, and with a zero behind it. */
    method AddString(bytes: seq<byte>)
      requires Valid() && Fits(|bytes|)
      modifies this, data
      ensures Valid() && Contents() == old(Contents()) + bytes
      ensures data == old(data) || fresh(data)
      ensures peak == if old(peak) > old(size) + |bytes| then old(peak) else old(size) + |bytes|
      ensures capacity == Grown(old(capacity), old(size), |bytes|)
    {
      ReAlloc(|bytes|);
      ghost var was := data[..size];
      Memcpy(data, size, bytes);
      assert data[..size + |bytes|] == data[..size] + data[size..size + |bytes|];
      size := size + |bytes|;
      data[size] := 0;
    }

    /** `addFormatStringBlock`, when the text printed fits the space asked for. */
    method AddFormat(required: u32, text: seq<byte>)
      requires Valid() && Fits(required) && |text| <= required
      modifies this, data
      ensures Valid() && Contents() == old(Contents()) + text
      ensures data == old(data) || fresh(data)
      ensures peak == if old(peak) > old(size) + required then old(peak) else old(size) + required
    {
      ReAlloc(required);
      Memcpy(data, size, text);
      assert data[..size + |text|] == data[..size] + data[size..size + |text|];
      size := size + |text|;
      data[size] := 0;
    }
  }

  // ---------------------------------------------------------------- runs

  /** One call on a block: add bytes, or reset. */
  datatype Op = Add(bytes: seq<byte>) | Clear

  /** What a run leaves in the block: everything added since the last reset. */
  function Left(ops: seq<Op>): seq<byte> {
    if ops == [] then []
    else
      match ops[|ops| - 1]
      case Clear => []
      case Add(s) => Left(ops[..|ops| - 1]) + s
  }

  /** The largest content of a run. */
  function Peak(ops: seq<Op>): nat {
    if ops == [] then 0
    else
      var before, now := Peak(ops[..|ops| - 1]), |Left(ops)|;
      if now > before then now else before
  }

  lemma {:induction false} PeakGrows(ops: seq<Op>, i: nat)
    requires i <= |ops|
    ensures Peak(ops[..i]) <= Peak(ops)
  {
    if i == |ops| {
      assert ops[..i] == ops;
    } else {
      PeakGrows(ops[..|ops| - 1], i);
      assert ops[..|ops| - 1][..i] == ops[..i];
    }
  }

  lemma {:induction false} NothingLeft()
    ensures Left([]) == [] && Peak([]) == 0
  {
  }

  lemma {:induction false} NextOp(ops: seq<Op>, i: nat)
    requires i < |ops|
    ensures Left(ops[..i + 1]) == (match ops[i] case Clear => [] case Add(s) => Left(ops[..i]) + s)
    ensures Peak(ops[..i + 1]) == if |Left(ops[..i + 1])| > Peak(ops[..i]) then |Left(ops[..i + 1])| else Peak(ops[..i])
  {
    assert ops[..i + 1][..i] == ops[..i];
  }

  /**
   * Any run of additions and resets whose peak, doubled, leaves 2000 bytes in 32 bits: the block holds
   * what was added since the last reset and a zero behind it, its memory is at most twice the peak plus
   * 2000 bytes, and all reallocations together have copied fewer bytes than it has now.
   */
  method RunOps(block: Block, ops: seq<Op>)
    requires block.Valid() && block.Contents() == [] && block.peak == 0 && block.capacity == START_ALLOCATE_SIZE
    requires 2 * Peak(ops) + 2000 < WORD
    modifies block, block.data
    ensures block.Valid() && block.Contents() == Left(ops)
    ensures block.peak == Peak(ops)
    ensures block.capacity <= 2 * Peak(ops) + 2000 && block.copied < block.capacity
  {
    hide Left, Peak;
    assert ops[..0] == [];
    NothingLeft();
    var i := 0;
    while i < |ops|
      invariant i <= |ops| && block.Valid() && (block.data == old(block.data) || fresh(block.data))
      invariant block.Contents() == Left(ops[..i]) && block.peak == Peak(ops[..i])
    {
      NextOp(ops, i);
      PeakGrows(ops, i);
      PeakGrows(ops, i + 1);
      match ops[i] {
        case Clear => block.Reset();
        case Add(s) =>
          block.SmallFits(|s|);
          block.AddString(s);
      }
      i := i + 1;
    }
    assert ops[..i] == ops;
  }
}
