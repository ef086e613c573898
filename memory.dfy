/**
 * The kernel's memory: the downward stack allocator that hands out process
 * stacks from the top of RAM, and the pool of equal-size blocks carved from
 * the range between the end of the kernel image (`p_end`) and the lowest stack
 * (`gp_stack`), kept as a FIFO free list threaded through the blocks' first
 * word.
 *
 * k_memory.h, which defines BLOCK_SIZE, is not part of this model: the value
 * below is a placeholder; the proofs use only that it is a positive multiple
 * of eight.
 */
module KMemory {
  import opened Links
  import opened Ipc

  const NULL: int := 0
  const RTX_OK: int := 0
  const BLOCK_SIZE: int := 128

  /** `(U32)p & 0x04`: bit 2 of an address. */
  predicate Bit2(a: int) {
    (a / 4) % 2 == 1
  }

  /** gp_stack after alloc_stack(size_b): lowered by size_b in 32-bit arithmetic, then by a word if bit 2 is set. */
  function Lowered(gp: int, sizeB: int): (r: int)
    requires 0 <= gp < U32_LIMIT && 0 <= sizeB < U32_LIMIT
    ensures 0 <= r < U32_LIMIT
  {
    var g := Wrap(gp - sizeB);
    if Bit2(g) then g - 4 else g
  }

  /**
   * A stack below an 8-byte aligned gp_stack, of a size that is a whole number
   * of words, leaves gp_stack 8-byte aligned; without wrap-around it spans at
   * least size_b bytes and at most one word more.
   */
  lemma LoweredAligned(gp: int, sizeB: int)
    requires 0 <= gp < U32_LIMIT && 0 <= sizeB < U32_LIMIT
    requires gp % 8 == 0 && sizeB % 4 == 0
    ensures Lowered(gp, sizeB) % 8 == 0
    ensures sizeB <= gp ==> gp - sizeB - 4 <= Lowered(gp, sizeB) <= gp - sizeB
  {
    var g := Wrap(gp - sizeB);
    WrapWord(gp, sizeB);
    WordAligned(g);
  }

  /** An 8-byte aligned address lowered by whole words, modulo 2^32, is word aligned; without wrap-around it is the difference. */
  lemma WrapWord(gp: int, sizeB: int)
    requires 0 <= gp < U32_LIMIT && 0 <= sizeB < U32_LIMIT
    requires gp % 8 == 0 && sizeB % 4 == 0
    ensures Wrap(gp - sizeB) % 4 == 0
    ensures sizeB <= gp ==> Wrap(gp - sizeB) == gp - sizeB
  {
    var a, b := gp / 8, sizeB / 4;
    assert gp == 8 * a && sizeB == 4 * b;
    if sizeB <= gp {
      assert Wrap(gp - sizeB) == gp - sizeB == 4 * (2 * a - b);
    } else {
      assert Wrap(gp - sizeB) == gp - sizeB + 0x1_0000_0000 == 4 * (2 * a - b + 0x4000_0000);
    }
  }

  /** Clearing bit 2 of a word-aligned address by going down a word makes it 8-byte aligned. */
  lemma WordAligned(g: int)
    requires g % 4 == 0
    ensures (if Bit2(g) then g - 4 else g) % 8 == 0
  {
    var q := g / 4;
    assert g == 4 * q;
  }

  /** The addresses of `n` consecutive blocks starting at `base`. */
  function Blocks(base: int, n: nat): (r: seq<int>)
    ensures |r| == n && forall k :: 0 <= k < n ==> r[k] == base + k * BLOCK_SIZE
  {
    seq(n, k requires 0 <= k < n => base + k * BLOCK_SIZE)
  }

  class Memory {
    /** The low end of the last stack handed out. */
    var gpStack: int
    /** The first address past the kernel image, where the heap starts. */
    var pEnd: int
    /** `memQueue`: the ends of the free list. */
    var memQueue: Ends
    var numOfBlocks: int
    /** The `next` word of each block. */
    var next: map<int, int>
    /** The free blocks, head first. */
    ghost var free: seq<int>

    ghost predicate Valid()
      reads this
    {
      0 <= gpStack < U32_LIMIT && IsList(next, NULL, memQueue, free)
    }

    /** The part of memory_init kept here: gp_stack starts at the end of RAM, moved down a word to 8-byte alignment. */
    constructor (ramEnd: int, heapStart: int)
      requires 0 <= ramEnd < U32_LIMIT && ramEnd % 4 == 0
      ensures Valid() && free == [] && pEnd == heapStart && numOfBlocks == 0
      ensures gpStack == (if Bit2(ramEnd) then ramEnd - 4 else ramEnd) && gpStack % 8 == 0
    {
      gpStack := if Bit2(ramEnd) then ramEnd - 4 else ramEnd;
      pEnd := heapStart;
      memQueue := Ends(NULL, NULL);
      numOfBlocks := 0;
      next := map[];
      free := [];
      Empty(map[], NULL);
    }

    /** alloc_stack: returns the old gp_stack as the top of the new stack and lowers gp_stack below it. */
    method AllocStack(sizeB: int) returns (sp: int)
      requires Valid() && 0 <= sizeB < U32_LIMIT
      modifies this`gpStack
      ensures Valid()
      ensures sp == old(gpStack) && gpStack == Lowered(old(gpStack), sizeB)
    {
      sp := gpStack;
      gpStack := Wrap(sp - sizeB);
      if Bit2(gpStack) {
        gpStack := gpStack - 4;
      }
    }

    /**
     * heap_init: carves blocks from p_end upwards while a whole block fits
     * below gp_stack, and links them in ascending address order.  The code
     * needs room for one block: with none it links a block below p_end.
     */
    method HeapInit()
      requires 0 <= gpStack < U32_LIMIT && NULL < pEnd && pEnd + BLOCK_SIZE < gpStack
      modifies this`memQueue, this`numOfBlocks, this`next, this`free
      ensures Valid()
      ensures numOfBlocks >= 1 && free == Blocks(pEnd, numOfBlocks)
      ensures pEnd + numOfBlocks * BLOCK_SIZE < gpStack <= pEnd + (numOfBlocks + 1) * BLOCK_SIZE
    {
      memQueue := Ends(pEnd, memQueue.tail);
      numOfBlocks := 0;
      var blockHead := memQueue.head;
      ghost var blocks: seq<int> := [];
      while blockHead + BLOCK_SIZE < gpStack
        invariant numOfBlocks == |blocks| && blockHead < gpStack && memQueue.head == pEnd
        invariant if blocks == [] then blockHead == pEnd else blocks[0] == pEnd
        invariant forall k :: 0 <= k < |blocks| ==> blocks[k] < blockHead && blocks[k] in next
        invariant forall k :: 0 <= k < |blocks| - 1 ==> next[blocks[k]] == blocks[k + 1] == blocks[k] + BLOCK_SIZE
        invariant blocks != [] ==> next[blocks[|blocks| - 1]] == blockHead == blocks[|blocks| - 1] + BLOCK_SIZE
        invariant forall i, j :: 0 <= i < j < |blocks| ==> blocks[i] < blocks[j]
        decreases gpStack - blockHead
      {
        ghost var b0 := blocks;
        next := next[blockHead := blockHead + BLOCK_SIZE];
        blocks := blocks + [blockHead];
        assert forall k :: 0 <= k < |b0| ==> blocks[k] == b0[k];
        numOfBlocks := numOfBlocks + 1;
        blockHead := blockHead + BLOCK_SIZE;
      }
      var lastBlock := blockHead - BLOCK_SIZE;
      ChainList(next, pEnd, blocks);
      ChainIsBlocks(pEnd, blocks, blockHead);
      next := next[lastBlock := NULL];
      memQueue := Ends(memQueue.head, lastBlock);
      free := Blocks(pEnd, numOfBlocks);
    }

    /** k_request_memory_block: the head of the free list, or NULL when it is empty. */
    method RequestMemoryBlock() returns (b: int)
      requires Valid()
      modifies this`memQueue, this`free
      ensures Valid() && next == old(next)
      ensures old(free) == [] ==> b == NULL && free == [] && memQueue == old(memQueue)
      ensures old(free) != [] ==> b == old(free)[0] && free == old(free)[1..]
    {
      b := memQueue.head;
      if memQueue.head == NULL {
        b := NULL;
      } else if memQueue.head == memQueue.tail {
        Pop(next, NULL, memQueue, free);
        memQueue := Ends(NULL, NULL);
        free := free[1..];
      } else {
        Pop(next, NULL, memQueue, free);
        memQueue := Ends(next[memQueue.head], memQueue.tail);
        free := free[1..];
      }
    }

    /**
     * k_release_memory_block: appends the block at the tail.  Nothing is
     * checked: the caller must pass a block that is not free already.
     */
    method ReleaseMemoryBlock(b: int) returns (r: int)
      requires Valid() && b != NULL && b !in free
      modifies this`memQueue, this`next, this`free
      ensures Valid() && r == RTX_OK
      ensures free == old(free) + [b]
      ensures next == if old(free) == [] then old(next)[b := NULL] else old(next)[b := NULL][old(memQueue).tail := b]
    {
      var next1 := next[b := NULL];
      Frame(next, next1, NULL, memQueue, free);
      Append(next1, NULL, memQueue, free, b);
      next := next1;
      if memQueue.tail != NULL {
        next := next[memQueue.tail := b];
        memQueue := Ends(memQueue.head, b);
      } else {
        memQueue := Ends(b, b);
      }
      free := free + [b];
      r := RTX_OK;
    }
  }

  /** The links heap_init writes make the carved blocks one list, in address order, once the last one's is NULL. */
  lemma ChainList(next: map<int, int>, base: int, blocks: seq<int>)
    requires NULL < base && blocks != [] && blocks[0] == base
    requires forall k :: 0 <= k < |blocks| ==> blocks[k] in next
    requires forall k :: 0 <= k < |blocks| - 1 ==> next[blocks[k]] == blocks[k + 1]
    requires forall i, j :: 0 <= i < j < |blocks| ==> blocks[i] < blocks[j]
    ensures var last := blocks[|blocks| - 1];
      IsList(next[last := NULL], NULL, Ends(base, last), blocks)
  {
    var last := blocks[|blocks| - 1];
    forall k | 0 <= k < |blocks| - 1
      ensures next[last := NULL][blocks[k]] == blocks[k + 1]
    {
      assert blocks[k] < last;
    }
  }

  /** Blocks one BLOCK_SIZE apart from `base` upwards are the first `|blocks|` blocks, and `head` is the next one. */
  lemma {:induction false} ChainIsBlocks(base: int, blocks: seq<int>, head: int)
    requires if blocks == [] then head == base else blocks[0] == base
    requires forall k :: 0 <= k < |blocks| - 1 ==> blocks[k + 1] == blocks[k] + BLOCK_SIZE
    requires blocks != [] ==> head == blocks[|blocks| - 1] + BLOCK_SIZE
    ensures blocks == Blocks(base, |blocks|)
    ensures head == base + |blocks| * BLOCK_SIZE && head + BLOCK_SIZE == base + (|blocks| + 1) * BLOCK_SIZE
    decreases |blocks|
  {
    var n := |blocks|;
    if n > 0 {
      var init := blocks[..n - 1];
      var last := blocks[n - 1];
      assert forall k :: 0 <= k < |init| ==> init[k] == blocks[k];
      ChainIsBlocks(base, init, last);
      assert blocks == init + [last];
      assert last == base + (n - 1) * BLOCK_SIZE && head == last + BLOCK_SIZE;
      assert (n - 1) * BLOCK_SIZE + BLOCK_SIZE == n * BLOCK_SIZE;
      assert n * BLOCK_SIZE + BLOCK_SIZE == (n + 1) * BLOCK_SIZE;
      assert Blocks(base, n) == Blocks(base, n - 1) + [base + (n - 1) * BLOCK_SIZE];
    }
  }

  // ---------------------------------------------------------------------
  // The free list as a value: what successive requests return
  // ---------------------------------------------------------------------

  /** The blocks `n` successive requests return from a free list. */
  function Requests(free: seq<int>, n: nat): (r: seq<int>)
    ensures |r| == n
  {
    if n == 0 then []
    else if free == [] then [NULL] + Requests([], n - 1)
    else [free[0]] + Requests(free[1..], n - 1)
  }

  /** Requests hand out the free blocks in list order, then NULL. */
  lemma {:induction false} RequestsInOrder(free: seq<int>, n: nat)
    ensures forall k :: 0 <= k < n ==> Requests(free, n)[k] == if k < |free| then free[k] else NULL
    decreases n
  {
    if n > 0 {
      if free == [] {
        RequestsInOrder([], n - 1);
      } else {
        RequestsInOrder(free[1..], n - 1);
      }
    }
  }

  /** Reuse is FIFO: a released block comes back only after every block that was free before it. */
  lemma ReleasedLast(free: seq<int>, b: int)
    ensures Requests(free + [b], |free| + 1) == free + [b]
  {
    RequestsInOrder(free + [b], |free| + 1);
  }

  /** Distinct free blocks give distinct non-NULL results. */
  lemma RequestsDistinct(free: seq<int>, n: nat)
    requires Distinct(free) && NULL !in free
    ensures forall i, j :: 0 <= i < j < n && Requests(free, n)[i] != NULL ==> Requests(free, n)[i] != Requests(free, n)[j]
  {
    RequestsInOrder(free, n);
  }

  /**
   * proc4's use of three blocks: the word written 16 bytes into each of three
   * successively requested blocks is still there after the other two writes.
   */
  lemma WritesSurvive(free: seq<int>, ram: map<int, int>)
    requires Distinct(free) && NULL !in free && |free| >= 3
    ensures var b := Requests(free, 3);
      var ram' := ram[b[0] + 16 := 9000][b[1] + 16 := 9001][b[2] + 16 := 9002];
      forall j :: 0 <= j < 3 ==> ram'[b[j] + 16] == 9000 + j
  {
    RequestsInOrder(free, 3);
    assert free[0] != free[1] && free[0] != free[2] && free[1] != free[2];
  }

  /** The blocks of the pool: free ones on the list, the others held by processes. */
  ghost predicate Conserved(free: seq<int>, held: set<int>, pool: set<int>) {
    && Distinct(free) && NULL !in free && NULL !in held
    && (forall x :: x in free ==> x !in held)
    && (set x | x in free) + held == pool
  }

  /** A successful request moves one block from the list to the holders; the list shrinks by one. */
  lemma RequestConserves(free: seq<int>, held: set<int>, pool: set<int>)
    requires Conserved(free, held, pool) && free != []
    ensures Conserved(free[1..], held + {free[0]}, pool) && |free[1..]| == |free| - 1
  {
    var rest := free[1..];
    assert forall x :: x in free <==> x == free[0] || x in rest;
    assert free[0] !in rest;
    assert (set x | x in rest) + (held + {free[0]}) == (set x | x in free) + held;
  }

  /** Releasing a held block moves it back onto the list; the list grows by one. */
  lemma ReleaseConserves(free: seq<int>, held: set<int>, pool: set<int>, b: int)
    requires Conserved(free, held, pool) && b in held
    ensures Conserved(free + [b], held - {b}, pool) && |free + [b]| == |free| + 1
  {
    var free' := free + [b];
    assert forall x :: x in free' <==> x in free || x == b;
    assert (set x | x in free') + (held - {b}) == (set x | x in free) + held;
  }
}
