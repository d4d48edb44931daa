/** Differential minimisation of two violating inputs: words are zeroed, in blocks or singly, or made
equal, as long as the violation is still found; the words where neither works are reported as leaked.

The oracle may answer every call differently, but it leaves the inputs alone.
*/
module InputMinimizer {
  import opened Bytes

  const REGION_SIZES: seq<nat> := [512, 512, 8, 32]
  const WORDS_PER_ACTOR: nat := 1064
  const PER_ACTOR_INPUT_SIZE: nat := 0x4000
  const MAX_BLOCK_SIZE: nat := 64

  /** Words of an actor before region `r`. */
  function RegionOffset(r: nat): nat
    requires r <= |REGION_SIZES|
  {
    if r == 0 then 0 else RegionOffset(r - 1) + REGION_SIZES[r - 1]
  }

  lemma RegionsFillActor()
    ensures RegionOffset(|REGION_SIZES|) == WORDS_PER_ACTOR
  {
    assert RegionOffset(1) == 512 && RegionOffset(2) == 1024 && RegionOffset(3) == 1032;
  }

  lemma RegionFits(r: nat)
    requires r < |REGION_SIZES|
    ensures RegionOffset(r) + REGION_SIZES[r] == RegionOffset(r + 1) <= WORDS_PER_ACTOR
  {
    RegionsFillActor();
  }

  /** The reported address of a word of the flat input. */
  function AddressOf(w: nat): nat {
    w / WORDS_PER_ACTOR * PER_ACTOR_INPUT_SIZE + w % WORDS_PER_ACTOR * 8
  }

  lemma AddressInActor(actor: nat, word: nat)
    requires word < WORDS_PER_ACTOR
    ensures AddressOf(actor * WORDS_PER_ACTOR + word) == actor * PER_ACTOR_INPUT_SIZE + word * 8
  {}

  lemma RegionAddress(actor: nat, offset: nat, i: nat)
    requires offset + i < WORDS_PER_ACTOR
    ensures AddressOf(actor * WORDS_PER_ACTOR + offset + i) == actor * PER_ACTOR_INPUT_SIZE + offset * 8 + i * 8
  {
    AddressInActor(actor, offset + i);
  }

  /** Addresses identify words. */
  lemma AddressesDiffer(v: nat, w: nat)
    requires AddressOf(v) == AddressOf(w)
    ensures v == w
  {}

  predicate PowerOfTwo(n: nat) {
    n in {1, 2, 4, 8, 16, 32, 64}
  }

  /** The largest power of two within a bound of at most 64. */
  function FloorPowerOfTwo(n: nat): (p: nat)
    requires 1 <= n <= MAX_BLOCK_SIZE
    ensures PowerOfTwo(p) && p <= n < 2 * p
  {
    if n >= 64 then 64 else if n >= 32 then 32 else if n >= 16 then 16 else if n >= 8 then 8
    else if n >= 4 then 4 else if n >= 2 then 2 else 1
  }

  /** An aligned block within the region and within a window of 64 words. */
  predicate Fits(size: nat, addr: nat, regionSize: nat) {
    && PowerOfTwo(size) && addr % size == 0
    && addr + size <= regionSize && size <= MAX_BLOCK_SIZE - addr % MAX_BLOCK_SIZE
  }

  /** What may become of a word: leaked words are those that still differ, and they keep their values;
      any other word is zero or keeps the value of the first input. */
  ghost predicate WordMinimised(a: Word, b: Word, a': Word, b': Word, leaked: bool) {
    && (leaked <==> a' != b')
    && (leaked ==> a' == a && b' == b)
    && (!leaked ==> a' == 0 || a' == a)
  }

  /** Words before `pos` are done, the others are untouched. */
  ghost predicate MinimisedUpTo(a: seq<Word>, b: seq<Word>, a': seq<Word>, b': seq<Word>, leaked: seq<nat>, pos: nat) {
    && |a| == |b| == |a'| == |b'|
    && (forall w :: 0 <= w < pos && w < |a| ==> WordMinimised(a[w], b[w], a'[w], b'[w], AddressOf(w) in leaked))
    && (forall w :: pos <= w < |a| ==> a'[w] == a[w] && b'[w] == b[w] && AddressOf(w) !in leaked)
  }

  /** One more block is done. */
  lemma BlockMinimised(a: seq<Word>, b: seq<Word>, a1: seq<Word>, b1: seq<Word>, leaked1: seq<nat>, pos: nat,
                       a2: seq<Word>, b2: seq<Word>, leaked2: seq<nat>, size: nat)
    requires MinimisedUpTo(a, b, a1, b1, leaked1, pos) && |a2| == |b2| == |a| && pos + size <= |a| && size >= 1
    requires forall w :: 0 <= w < |a| && !(pos <= w < pos + size) ==> a2[w] == a1[w] && b2[w] == b1[w]
    requires forall w :: pos <= w < pos + size ==>
               WordMinimised(a1[w], b1[w], a2[w], b2[w], w == pos && leaked2 == leaked1 + [AddressOf(pos)])
    requires leaked2 == leaked1 || leaked2 == leaked1 + [AddressOf(pos)]
    ensures MinimisedUpTo(a, b, a2, b2, leaked2, pos + size)
  {
    hide AddressOf;
    forall w | 0 <= w < |a| ensures AddressOf(w) in leaked2 <==>
                AddressOf(w) in leaked1 || (w == pos && leaked2 == leaked1 + [AddressOf(pos)])
    {
      if AddressOf(w) == AddressOf(pos) { AddressesDiffer(w, pos); }
    }
  }

  type Oracle = (nat, seq<Word>, seq<Word>) -> bool

  /** One of the first calls of the oracle found no violation in these inputs. */
  ghost predicate RefusedBy(violates: Oracle, calls: nat, va: seq<Word>, vb: seq<Word>) {
    exists k :: 0 <= k < calls && !violates(k, va, vb)
  }

  /** An input as it is submitted for word `w`: minimised before it, original behind it. */
  function Trial(minimised: seq<Word>, org: seq<Word>, w: nat, value: Word): seq<Word>
    requires w < |minimised| == |org|
  {
    minimised[..w] + [value] + org[w + 1..]
  }

  /** Every word before `pos` that is not zero in both inputs was refused with zero in both, and every
      reported one also with the value of the first input in both. */
  ghost predicate Justified(violates: Oracle, calls: nat, orgA: seq<Word>, orgB: seq<Word>, a: seq<Word>, b: seq<Word>,
                            leaked: seq<nat>, pos: nat) {
    && |orgA| == |orgB| == |a| == |b|
    && (forall w :: 0 <= w < pos && w < |a| && !(a[w] == 0 == b[w]) ==>
          RefusedBy(violates, calls, Trial(a, orgA, w, 0), Trial(b, orgB, w, 0)))
    && (forall w :: 0 <= w < pos && w < |a| && AddressOf(w) in leaked ==>
          RefusedBy(violates, calls, Trial(a, orgA, w, orgA[w]), Trial(b, orgB, w, orgA[w])))
  }

  lemma LeakedKept(a: Word, b: Word, a': Word, b': Word)
    requires WordMinimised(a, b, a', b', true)
    ensures a' == a && b' == b
  {}

  lemma StaysRefused(violates: Oracle, calls: nat, calls': nat, va: seq<Word>, vb: seq<Word>)
    requires calls <= calls' && RefusedBy(violates, calls, va, vb)
    ensures RefusedBy(violates, calls', va, vb)
  {}

  /** Reports stay justified when a block is done, and its own report is justified by the two refusals. */
  lemma BlockJustified(violates: Oracle, calls: nat, calls': nat, orgA: seq<Word>, orgB: seq<Word>,
                       a1: seq<Word>, b1: seq<Word>, leaked1: seq<nat>, pos: nat,
                       a2: seq<Word>, b2: seq<Word>, leaked2: seq<nat>, size: nat)
    requires Justified(violates, calls, orgA, orgB, a1, b1, leaked1, pos) && calls <= calls'
    requires MinimisedUpTo(orgA, orgB, a2, b2, leaked2, pos + size) && size >= 1 && pos + size <= |a2| == |a1|
    requires forall w :: 0 <= w < pos ==> a2[w] == a1[w] && b2[w] == b1[w]
    requires leaked2 == leaked1 || (size == 1 && leaked2 == leaked1 + [AddressOf(pos)])
    requires MinimisedUpTo(orgA, orgB, a1, b1, leaked1, pos)
    requires if size == 1 && !(a2[pos] == 0 == b2[pos])
             then RefusedBy(violates, calls', a2[pos := 0], b2[pos := 0])
             else forall w :: pos <= w < pos + size ==> a2[w] == 0 == b2[w]
    requires leaked2 != leaked1 ==> RefusedBy(violates, calls', a2, b2[pos := a2[pos]])
    ensures Justified(violates, calls', orgA, orgB, a2, b2, leaked2, pos + size)
  {
    hide RefusedBy, AddressOf, WordMinimised;
    forall w | 0 <= w < pos + size && !(a2[w] == 0 == b2[w])
      ensures RefusedBy(violates, calls', Trial(a2, orgA, w, 0), Trial(b2, orgB, w, 0))
    {
      if w < pos {
        assert a2[..w] == a1[..w] && b2[..w] == b1[..w];
        StaysRefused(violates, calls, calls', Trial(a1, orgA, w, 0), Trial(b1, orgB, w, 0));
      } else {
        assert a2[pos := 0] == Trial(a2, orgA, pos, 0) && b2[pos := 0] == Trial(b2, orgB, pos, 0);
      }
    }
    forall w | 0 <= w < pos + size && AddressOf(w) in leaked2
      ensures RefusedBy(violates, calls', Trial(a2, orgA, w, orgA[w]), Trial(b2, orgB, w, orgA[w]))
    {
      if AddressOf(w) in leaked1 {
        assert w < pos;
        assert a2[..w] == a1[..w] && b2[..w] == b1[..w];
        StaysRefused(violates, calls, calls', Trial(a1, orgA, w, orgA[w]), Trial(b1, orgB, w, orgA[w]));
      } else {
        AddressesDiffer(w, pos);
        LeakedKept(orgA[pos], orgB[pos], a2[pos], b2[pos]);
        assert a2 == Trial(a2, orgA, pos, orgA[pos]) && b2[pos := a2[pos]] == Trial(b2, orgB, pos, orgA[pos]);
      }
    }
  }

  /** An input with a block of zeros. */
  function Zeroed(s: seq<Word>, from: nat, n: nat): (r: seq<Word>)
    requires from + n <= |s|
    ensures |r| == |s|
  {
    s[..from] + seq(n, _ => 0) + s[from + n..]
  }

  /** An input as it is submitted for a block: minimised before it, original behind it. */
  function BlockTrial(minimised: seq<Word>, org: seq<Word>, from: nat, n: nat): seq<Word>
    requires from + n <= |minimised| == |org|
  {
    minimised[..from] + seq(n, _ => 0) + org[from + n..]
  }

  /** Every block at an address that the search may try and that is larger than `size` was refused. */
  ghost predicate LargerRefused(violates: Oracle, calls: nat, orgA: seq<Word>, orgB: seq<Word>, a: seq<Word>,
                                b: seq<Word>, base: nat, regionSize: nat, addr: nat, size: nat)
    requires |orgA| == |orgB| == |a| == |b| && base + regionSize <= |a|
  {
    forall p: nat :: Fits(p, addr, regionSize) && p > size ==>
      RefusedBy(violates, calls, BlockTrial(a, orgA, base + addr, p), BlockTrial(b, orgB, base + addr, p))
  }

  /** The same, as the blocks are tried: in the inputs as they are when the search gets there. */
  ghost predicate LargerBlocksRefused(violates: Oracle, calls: nat, a: seq<Word>, b: seq<Word>, base: nat,
                                      regionSize: nat, addr: nat, size: nat)
    requires |a| == |b| && base + regionSize <= |a|
  {
    forall p: nat :: Fits(p, addr, regionSize) && p > size ==>
      RefusedBy(violates, calls, Zeroed(a, base + addr, p), Zeroed(b, base + addr, p))
  }

  lemma RefusedLater(violates: Oracle, calls: nat, calls': nat, a: seq<Word>, b: seq<Word>, base: nat,
                     regionSize: nat, addr: nat, size: nat)
    requires |a| == |b| && base + regionSize <= |a| && calls <= calls'
    requires LargerBlocksRefused(violates, calls, a, b, base, regionSize, addr, size)
    ensures LargerBlocksRefused(violates, calls', a, b, base, regionSize, addr, size)
  {}

  /** Where the words from `addr` on are the original ones, the tried blocks are the trials. */
  lemma TriedAreTrials(violates: Oracle, calls: nat, orgA: seq<Word>, orgB: seq<Word>, a1: seq<Word>, b1: seq<Word>,
                       a2: seq<Word>, b2: seq<Word>, base: nat, regionSize: nat, addr: nat, size: nat)
    requires |orgA| == |orgB| == |a1| == |b1| == |a2| == |b2| && base + regionSize <= |a1|
    requires LargerBlocksRefused(violates, calls, a1, b1, base, regionSize, addr, size)
    requires forall w :: 0 <= w < base + addr && w < |a1| ==> a2[w] == a1[w] && b2[w] == b1[w]
    requires forall w :: base + addr <= w < |a1| ==> a1[w] == orgA[w] && b1[w] == orgB[w]
    ensures LargerRefused(violates, calls, orgA, orgB, a2, b2, base, regionSize, addr, size)
  {
    hide RefusedBy;
    forall p: nat | Fits(p, addr, regionSize) && p > size
      ensures RefusedBy(violates, calls, BlockTrial(a2, orgA, base + addr, p), BlockTrial(b2, orgB, base + addr, p))
    {
      ZeroedIsTrial(a1, a2, orgA, base + addr, p);
      ZeroedIsTrial(b1, b2, orgB, base + addr, p);
    }
  }

  datatype Block = Block(addr: nat, size: nat)

  /** Consecutive blocks from one position to another. */
  predicate Tiles(blocks: seq<Block>, from: nat, to: nat) {
    if |blocks| == 0 then from == to
    else blocks[0].addr == from && blocks[0].size > 0 && Tiles(blocks[1..], from + blocks[0].size, to)
  }

  lemma {:induction false} TilesExtend(blocks: seq<Block>, from: nat, to: nat, size: nat)
    requires Tiles(blocks, from, to) && size > 0
    ensures Tiles(blocks + [Block(to, size)], from, to + size)
    decreases |blocks|
  {
    if |blocks| == 0 {
      assert ([] + [Block(to, size)])[1..] == [];
      assert blocks + [Block(to, size)] == [Block(to, size)];
    } else {
      TilesExtend(blocks[1..], from + blocks[0].size, to, size);
      assert (blocks + [Block(to, size)])[1..] == blocks[1..] + [Block(to, size)];
    }
  }

  /** For each of the blocks before `pos`, all larger ones were refused. */
  ghost predicate LargestBlocks(violates: Oracle, calls: nat, orgA: seq<Word>, orgB: seq<Word>, a: seq<Word>,
                                b: seq<Word>, base: nat, regionSize: nat, blocks: seq<Block>, pos: nat)
    requires |orgA| == |orgB| == |a| == |b| && base + regionSize <= |a|
  {
    forall k {:trigger blocks[k]} :: 0 <= k < |blocks| ==>
      blocks[k].addr < pos
      && LargerRefused(violates, calls, orgA, orgB, a, b, base, regionSize, blocks[k].addr, blocks[k].size)
  }

  /** Later blocks leave these refusals in force. */
  lemma BlocksStayLargest(violates: Oracle, calls: nat, calls': nat, orgA: seq<Word>, orgB: seq<Word>,
                          a1: seq<Word>, b1: seq<Word>, a2: seq<Word>, b2: seq<Word>,
                          base: nat, regionSize: nat, blocks: seq<Block>, pos: nat, size: nat)
    requires |orgA| == |orgB| == |a1| == |b1| == |a2| == |b2| && base + regionSize <= |a1| && pos < regionSize
    requires LargestBlocks(violates, calls, orgA, orgB, a1, b1, base, regionSize, blocks, pos)
    requires calls <= calls' && size > 0
    requires forall w :: 0 <= w < base + pos ==> a2[w] == a1[w] && b2[w] == b1[w]
    requires LargerRefused(violates, calls', orgA, orgB, a2, b2, base, regionSize, pos, size)
    ensures LargestBlocks(violates, calls', orgA, orgB, a2, b2, base, regionSize,
                          blocks + [Block(pos, size)], pos + size)
  {
    hide RefusedBy;
    var longer := blocks + [Block(pos, size)];
    forall k | 0 <= k < |longer|
      ensures longer[k].addr < pos + size
      ensures LargerRefused(violates, calls', orgA, orgB, a2, b2, base, regionSize, longer[k].addr, longer[k].size)
    {
      if k < |blocks| {
        var from := base + blocks[k].addr;
        assert a2[..from] == a1[..from] && b2[..from] == b1[..from];
        forall p: nat | Fits(p, blocks[k].addr, regionSize) && p > blocks[k].size
          ensures RefusedBy(violates, calls', BlockTrial(a2, orgA, from, p), BlockTrial(b2, orgB, from, p))
        {
          StaysRefused(violates, calls, calls', BlockTrial(a1, orgA, from, p), BlockTrial(b1, orgB, from, p));
        }
      }
    }
  }

  /** From `pos` on the words are the original ones. */
  lemma Untouched(a: seq<Word>, b: seq<Word>, a': seq<Word>, b': seq<Word>, leaked: seq<nat>, pos: nat)
    requires MinimisedUpTo(a, b, a', b', leaked, pos)
    ensures |a| == |b| == |a'| == |b'|
    ensures forall w :: pos <= w < |a| ==> a'[w] == a[w] && b'[w] == b[w]
  {}

  lemma ZeroedIsTrial(before: seq<Word>, minimised: seq<Word>, org: seq<Word>, from: nat, n: nat)
    requires from + n <= |before| == |minimised| == |org|
    requires forall w :: 0 <= w < from ==> minimised[w] == before[w]
    requires forall w :: from <= w < |org| ==> before[w] == org[w]
    ensures Zeroed(before, from, n) == BlockTrial(minimised, org, from, n)
  {
    assert minimised[..from] == before[..from] && before[from + n..] == org[from + n..];
  }

  class DifferentialMinimizer {
    const violates: Oracle
    const a: array<Word>
    const b: array<Word>
    var calls: nat
    var leaked: seq<nat>

    ghost predicate Valid() {
      a != b && a.Length == b.Length
    }

    /** The oracle accepted the inputs as they are now. */
    ghost predicate Accepted()
      reads this, a, b
    {
      exists k :: 0 <= k < calls && violates(k, a[..], b[..])
    }

    /** The oracle found no violation in these inputs. */
    ghost predicate Refused(va: seq<Word>, vb: seq<Word>)
      reads this`calls
    {
      RefusedBy(violates, calls, va, vb)
    }

    constructor (violates: Oracle, a: array<Word>, b: array<Word>)
      requires a != b && a.Length == b.Length
      ensures Valid() && this.violates == violates && this.a == a && this.b == b && calls == 0 && leaked == []
    {
      this.violates, this.a, this.b, calls, leaked := violates, a, b, 0, [];
    }

    method CheckForViolation() returns (found: bool)
      modifies this`calls
      ensures if found then Accepted() else Refused(a[..], b[..])
      ensures forall va, vb :: old(Refused(va, vb)) ==> Refused(va, vb)
      ensures calls == old(calls) + 1
    {
      ghost var k := calls;
      found := violates(calls, a[..], b[..]);
      calls := calls + 1;
      assert violates(k, a[..], b[..]) == found && k < calls;
    }

    /** Only the block may differ. */
    twostate predicate SameOutside(from: nat, to: nat)
      requires Valid()
      reads a, b
    {
      forall w :: 0 <= w < a.Length && !(from <= w < to) ==> a[w] == old(a[w]) && b[w] == old(b[w])
    }

    method SetBlock(from: nat, size: nat, va: seq<Word>, vb: seq<Word>)
      requires Valid() && from + size <= a.Length && |va| == |vb| == size
      modifies a, b
      ensures SameOutside(from, from + size)
      ensures a[from..from + size] == va && b[from..from + size] == vb
    {
      for i := 0 to size
        invariant SameOutside(from, from + i)
        invariant forall j :: 0 <= j < i ==> a[from + j] == va[j] && b[from + j] == vb[j]
      {
        a[from + i], b[from + i] := va[i], vb[i];
      }
    }

    /** The size of the first block to try: the largest power of two that the start is a multiple of and
        that stays within the region and within a window of 64 words. */
    static method StartingBlockSize(addr: nat, regionSize: nat) returns (size: nat)
      requires addr < regionSize
      ensures Fits(size, addr, regionSize)
      ensures forall p: nat :: Fits(p, addr, regionSize) ==> p <= size
    {
      size := MAX_BLOCK_SIZE - addr % MAX_BLOCK_SIZE;
      if regionSize - addr < size { size := regionSize - addr; }
      size := FloorPowerOfTwo(size);
      while size > 1 && addr % size != 0
        invariant PowerOfTwo(size) && addr + size <= regionSize && size <= MAX_BLOCK_SIZE - addr % MAX_BLOCK_SIZE
        invariant forall p: nat :: Fits(p, addr, regionSize) ==> p <= size
        decreases size
      {
        size := size / 2;
      }
    }

    /** Zero a block; put it back when the violation is gone. */
    method TryZero(from: nat, size: nat) returns (found: bool)
      requires Valid() && from + size <= a.Length
      modifies a, b, this`calls
      ensures calls > old(calls) && SameOutside(from, from + size)
      ensures found ==> Accepted() && forall w :: from <= w < from + size ==> a[w] == 0 == b[w]
      ensures !found ==> a[..] == old(a[..]) && b[..] == old(b[..])
      ensures !found ==> Refused(Zeroed(old(a[..]), from, size), Zeroed(old(b[..]), from, size))
      ensures forall va, vb :: old(Refused(va, vb)) ==> Refused(va, vb)
    {
      hide RefusedBy;
      var zeros := seq(size, _ => 0);
      var orgA, orgB := a[from..from + size], b[from..from + size];
      SetBlock(from, size, zeros, zeros);
      assert a[..] == Zeroed(old(a[..]), from, size) && b[..] == Zeroed(old(b[..]), from, size);
      found := CheckForViolation();
      if !found {
        SetBlock(from, size, orgA, orgB);
      }
      forall w | from <= w < from + size
        ensures a[w] == a[from..from + size][w - from] && b[w] == b[from..from + size][w - from]
      {}
    }

    /** Zero the largest block that keeps the violation; all larger ones were refused. */
    method ZeroOutBlock(base: nat, addr: nat, regionSize: nat) returns (size: nat)
      requires Valid() && addr < regionSize && base + regionSize <= a.Length
      modifies a, b, this`calls
      ensures 1 <= size <= regionSize - addr && calls >= old(calls)
      ensures SameOutside(base + addr, base + addr + size)
      ensures size == 1 ==> a[..] == old(a[..]) && b[..] == old(b[..])
      ensures size > 1 ==> Accepted() && forall w :: base + addr <= w < base + addr + size ==> a[w] == 0 == b[w]
      ensures LargerBlocksRefused(violates, calls, old(a[..]), old(b[..]), base, regionSize, addr, size)
    {
      size := StartingBlockSize(addr, regionSize);
      hide Accepted, RefusedBy;
      var from := base + addr;
      while size > 1
        invariant PowerOfTwo(size) && addr + size <= regionSize && calls >= old(calls)
        invariant a[..] == old(a[..]) && b[..] == old(b[..])
        invariant forall p: nat :: Fits(p, addr, regionSize) && p > size ==>
                    Refused(Zeroed(old(a[..]), from, p), Zeroed(old(b[..]), from, p))
        decreases size
      {
        var found := TryZero(from, size);
        if found { return; }
        size := size / 2;
      }
    }

    /** Minimise the block at `addr`: zero it, or zero its first word, or make that word equal, or report it. */
    method ProcessBlock(base: nat, addr: nat, regionSize: nat, address: nat) returns (size: nat)
      requires Valid() && addr < regionSize && base + regionSize <= a.Length && address == AddressOf(base + addr)
      modifies a, b, this`calls, this`leaked
      ensures 1 <= size <= regionSize - addr && calls >= old(calls)
      ensures SameOutside(base + addr, base + addr + size)
      ensures forall w :: base + addr <= w < base + addr + size ==>
                WordMinimised(old(a[w]), old(b[w]), a[w], b[w], w == base + addr && leaked == old(leaked) + [address])
      ensures leaked == old(leaked) || (size == 1 && leaked == old(leaked) + [address])
      ensures var w := base + addr;
              if size == 1 && !(a[w] == 0 == b[w]) then Refused(a[..][w := 0], b[..][w := 0])
              else forall v :: w <= v < w + size ==> a[v] == 0 == b[v]
      ensures leaked != old(leaked) ==> Refused(a[..], b[..][base + addr := a[base + addr]])
      ensures LargerBlocksRefused(violates, calls, old(a[..]), old(b[..]), base, regionSize, addr, size)
      ensures (a[..] == old(a[..]) && b[..] == old(b[..])) || Accepted()
    {
      hide RefusedBy, Accepted, AddressOf, LargerBlocksRefused, Fits;
      size := ZeroOutBlock(base, addr, regionSize);
      if size > 1 { return; }
      ghost var before := calls;
      ProcessWord(base + addr, address);
      RefusedLater(violates, before, calls, old(a[..]), old(b[..]), base, regionSize, addr, size);
    }

    /** Zero a word, or make it equal, or report it. */
    method ProcessWord(w: nat, address: nat)
      requires Valid() && w < a.Length
      modifies a, b, this`calls, this`leaked
      ensures SameOutside(w, w + 1) && calls >= old(calls)
      ensures WordMinimised(old(a[w]), old(b[w]), a[w], b[w], leaked == old(leaked) + [address])
      ensures leaked == old(leaked) || leaked == old(leaked) + [address]
      ensures !(a[w] == 0 == b[w]) ==> Refused(a[..][w := 0], b[..][w := 0])
      ensures leaked != old(leaked) ==> Refused(a[..], b[..][w := a[w]])
      ensures (a[..] == old(a[..]) && b[..] == old(b[..])) || Accepted()
    {
      hide RefusedBy, Accepted;
      assert leaked != leaked + [address];
      var orgA, orgB := a[w], b[w];
      ghost var va, vb := a[..], b[..];
      a[w], b[w] := 0, 0;
      assert a[..] == va[w := 0] && b[..] == vb[w := 0];
      var found := CheckForViolation();
      if found { return; }
      a[w], b[w] := orgA, orgB;
      assert a[..] == va && b[..] == vb;
      if a[w] == b[w] { return; }
      b[w] := a[w];
      assert a[..] == va && b[..] == vb[w := va[w]] && b[..][w := 0] == vb[w := 0];
      found := CheckForViolation();
      if found { return; }
      a[w], b[w] := orgA, orgB;
      assert a[..] == va && b[..] == vb;
      leaked := leaked + [address];
    }

    /** Everything found so far: the words before `pos` are minimised, every report among them is
        justified, and unless nothing has changed, the oracle accepted exactly the present inputs. */
    ghost predicate Progress(orgA: seq<Word>, orgB: seq<Word>, pos: nat)
      reads this, a, b
    {
      && Valid() && MinimisedUpTo(orgA, orgB, a[..], b[..], leaked, pos)
      && Justified(violates, calls, orgA, orgB, a[..], b[..], leaked, pos)
      && ((a[..] == orgA && b[..] == orgB) || Accepted())
    }

    method ProcessNext(base: nat, addr: nat, regionSize: nat, address: nat, ghost orgA: seq<Word>,
                       ghost orgB: seq<Word>)
      returns (size: nat)
      requires Progress(orgA, orgB, base + addr)
      requires addr < regionSize && base + regionSize <= a.Length && address == AddressOf(base + addr)
      modifies a, b, this`calls, this`leaked
      ensures 1 <= size <= regionSize - addr && Progress(orgA, orgB, base + addr + size)
      ensures SameOutside(base + addr, base + addr + size) && calls >= old(calls)
      ensures |orgA| == |orgB| == a.Length
      ensures LargerRefused(violates, calls, orgA, orgB, a[..], b[..], base, regionSize, addr, size)
    {
      hide AddressOf, MinimisedUpTo, WordMinimised, Justified, RefusedBy, Accepted, LargerRefused, LargerBlocksRefused;
      Untouched(orgA, orgB, a[..], b[..], leaked, base + addr);
      ghost var a1, b1, leaked1, calls1 := a[..], b[..], leaked, calls;
      size := ProcessBlock(base, addr, regionSize, address);
      BlockMinimised(orgA, orgB, a1, b1, leaked1, base + addr, a[..], b[..], leaked, size);
      BlockJustified(violates, calls1, calls, orgA, orgB, a1, b1, leaked1, base + addr, a[..], b[..], leaked, size);
      TriedAreTrials(violates, calls, orgA, orgB, a1, b1, a[..], b[..], base, regionSize, addr, size);
      if old(Accepted()) { AcceptedStays(); }
    }

    twostate lemma AcceptedStays()
      requires old(Accepted()) && calls >= old(calls)
      ensures a[..] == old(a[..]) && b[..] == old(b[..]) ==> Accepted()
    {}

    /** The blocks tile the region up to `pos`, and each is the largest one that could be zeroed where it
        starts. */
    ghost predicate RegionProgress(orgA: seq<Word>, orgB: seq<Word>, base: nat, regionSize: nat, blocks: seq<Block>,
                                   pos: nat)
      reads this, a, b
    {
      && Progress(orgA, orgB, base + pos) && |orgA| == |orgB| == a.Length && base + regionSize <= a.Length
      && Tiles(blocks, 0, pos)
      && LargestBlocks(violates, calls, orgA, orgB, a[..], b[..], base, regionSize, blocks, pos)
    }

    method ProcessTile(base: nat, addr: nat, regionSize: nat, address: nat, ghost orgA: seq<Word>,
                       ghost orgB: seq<Word>, ghost blocks: seq<Block>)
      returns (size: nat)
      requires RegionProgress(orgA, orgB, base, regionSize, blocks, addr)
      requires addr < regionSize && address == AddressOf(base + addr)
      modifies a, b, this`calls, this`leaked
      ensures 1 <= size <= regionSize - addr
      ensures RegionProgress(orgA, orgB, base, regionSize, blocks + [Block(addr, size)], addr + size)
    {
      assert Valid();
      hide AddressOf, Progress, Tiles, LargestBlocks, LargerRefused;
      ghost var a1, b1, calls1 := a[..], b[..], calls;
      size := ProcessNext(base, addr, regionSize, address, orgA, orgB);
      BlocksStayLargest(violates, calls1, calls, orgA, orgB, a1, b1, a[..], b[..], base, regionSize, blocks,
                        addr, size);
      TilesExtend(blocks, 0, addr, size);
    }

    /** Minimise one region block by block. */
    method ProcessRegion(actor: nat, regionOffset: nat, regionSize: nat, ghost orgA: seq<Word>, ghost orgB: seq<Word>)
      returns (ghost blocks: seq<Block>)
      requires Valid() && regionOffset + regionSize <= WORDS_PER_ACTOR && (actor + 1) * WORDS_PER_ACTOR <= a.Length
      requires Progress(orgA, orgB, actor * WORDS_PER_ACTOR + regionOffset)
      modifies a, b, this`calls, this`leaked
      ensures RegionProgress(orgA, orgB, actor * WORDS_PER_ACTOR + regionOffset, regionSize, blocks, regionSize)
    {
      var base := actor * WORDS_PER_ACTOR + regionOffset;
      RegionStarts(orgA, orgB, base, regionSize);
      hide AddressOf, RegionProgress;
      blocks := [];
      var i := 0;
      while i < regionSize
        invariant i <= regionSize && RegionProgress(orgA, orgB, base, regionSize, blocks, i)
      {
        RegionAddress(actor, regionOffset, i);
        var address := actor * PER_ACTOR_INPUT_SIZE + regionOffset * 8 + i * 8;
        var size := ProcessTile(base, i, regionSize, address, orgA, orgB, blocks);
        blocks := blocks + [Block(i, size)];
        i := i + size;
      }
    }

    lemma RegionStarts(orgA: seq<Word>, orgB: seq<Word>, base: nat, regionSize: nat)
      requires Progress(orgA, orgB, base) && base + regionSize <= a.Length
      ensures RegionProgress(orgA, orgB, base, regionSize, [], 0)
    {}

    /** Minimise all regions of an actor. */
    method ProcessActor(actor: nat, ghost orgA: seq<Word>, ghost orgB: seq<Word>)
      requires Valid() && Progress(orgA, orgB, actor * WORDS_PER_ACTOR) && (actor + 1) * WORDS_PER_ACTOR <= a.Length
      modifies a, b, this`calls, this`leaked
      ensures Progress(orgA, orgB, (actor + 1) * WORDS_PER_ACTOR)
    {
      hide Progress;
      RegionsFillActor();
      var offset := 0;
      for r := 0 to |REGION_SIZES|
        invariant offset == RegionOffset(r) && offset <= WORDS_PER_ACTOR
        invariant Progress(orgA, orgB, actor * WORDS_PER_ACTOR + offset)
      {
        RegionFits(r);
        var _ := ProcessRegion(actor, offset, REGION_SIZES[r], orgA, orgB);
        offset := offset + REGION_SIZES[r];
      }
    }

    /** The whole pass.  With `Justified` at the end, the oracle refused the final inputs before a word and
        the original ones behind it, zeroed at the word for every word that is not zero in both final
        inputs, and made equal at it for every reported one. */
    method Run(nActors: nat)
      requires Valid() && a.Length == nActors * WORDS_PER_ACTOR && calls == 0 && leaked == []
      modifies a, b, this`calls, this`leaked
      ensures forall w :: 0 <= w < a.Length ==>
                WordMinimised(old(a[w]), old(b[w]), a[w], b[w], AddressOf(w) in leaked)
      ensures (a[..] == old(a[..]) && b[..] == old(b[..])) || Accepted()
      ensures Justified(violates, calls, old(a[..]), old(b[..]), a[..], b[..], leaked, a.Length)
    {
      hide WordMinimised;
      ghost var orgA, orgB := a[..], b[..];
      for actor := 0 to nActors
        invariant Progress(orgA, orgB, actor * WORDS_PER_ACTOR)
      {
        ProcessActor(actor, orgA, orgB);
      }
    }
  }
}
