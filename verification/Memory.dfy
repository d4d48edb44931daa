/** Byte memory of the emulator and the store logs that undo speculative writes.

A store log is a list of (address, bytes) pairs.  Every entry written by the generic memory hook
holds eight bytes whatever the size of the store, so the entries of one log overlap freely; undoing
a log writes its entries back from the newest to the oldest.
*/
module Memory {
  import opened Bytes

  /** The mapped data area; addresses are offsets from its start.  An address outside the area reads
      as zero and ignores writes. */
  type Mem = seq<Byte>

  datatype LogEntry = LogEntry(addr: int, bytes: seq<Byte>)

  const LOG_ENTRY_SIZE: nat := 8

  function ByteAt(m: Mem, a: int): Byte {
    if 0 <= a < |m| then m[a] else 0
  }

  function Read(m: Mem, a: int, n: nat): (bs: seq<Byte>)
    ensures |bs| == n
    ensures forall k :: 0 <= k < n ==> bs[k] == ByteAt(m, a + k)
  {
    seq<Byte>(n, k => ByteAt(m, a + k))
  }

  function Write(m: Mem, a: int, bs: seq<Byte>): (r: Mem)
    ensures |r| == |m|
    ensures forall x :: 0 <= x < |m| ==> r[x] == if a <= x < a + |bs| then bs[x - a] else m[x]
  {
    seq(|m|, x requires 0 <= x < |m| => if a <= x < a + |bs| then bs[x - a] else m[x])
  }

  /** Undo one log: newest entry first. */
  function Undo(m: Mem, log: seq<LogEntry>): Mem
    decreases |log|
  {
    if |log| == 0 then m
    else Undo(Write(m, log[|log| - 1].addr, log[|log| - 1].bytes), log[..|log| - 1])
  }

  /** Undo a stack of logs down to, and including, level `i`: the top log first. */
  function UndoDownTo(m: Mem, logs: seq<seq<LogEntry>>, i: nat): Mem
    requires i <= |logs|
    decreases |logs|
  {
    if |logs| == i then m
    else UndoDownTo(Undo(m, logs[|logs| - 1]), logs[..|logs| - 1], i)
  }

  /** Writing eight saved bytes back undoes a store exactly when the store left every mapped byte
      beyond the eighth as it was; in particular it always undoes a store of at most eight bytes. */
  lemma EightBytesUndoStore(m: Mem, a: int, bs: seq<Byte>)
    ensures Write(Write(m, a, bs), a, Read(m, a, LOG_ENTRY_SIZE)) == m
            <==> forall x :: 0 <= x < |m| && a + LOG_ENTRY_SIZE <= x < a + |bs| ==> bs[x - a] == m[x]
  {
    var saved := Read(m, a, LOG_ENTRY_SIZE);
    var stored := Write(m, a, bs);
    var undone := Write(stored, a, saved);
    forall x | 0 <= x < |m|
      ensures undone[x] == if a + LOG_ENTRY_SIZE <= x < a + |bs| then bs[x - a] else m[x]
    {
      if a <= x < a + LOG_ENTRY_SIZE {
        assert saved[x - a] == ByteAt(m, a + (x - a));
      }
    }
  }

  /** The saved eight bytes do not cover a sixteen-byte store. */
  lemma WideStoreEscapesUndo(m: Mem)
    requires |m| == 16 && m[8] == 0
    ensures exists bs: seq<Byte> ::
              |bs| == 16 && Write(Write(m, 0, bs), 0, Read(m, 0, LOG_ENTRY_SIZE)) != m
  {
    var bs: seq<Byte> := seq(16, _ => 1);
    EightBytesUndoStore(m, 0, bs);
    assert bs[8 - 0] != m[8];
    assert Write(Write(m, 0, bs), 0, Read(m, 0, LOG_ENTRY_SIZE)) != m;
  }

  /** Logging a store of at most eight bytes, and performing it or not, changes no undone memory. */
  lemma LoggedStoreUndone(m: Mem, log: seq<LogEntry>, a: int, bs: seq<Byte>)
    requires |bs| <= LOG_ENTRY_SIZE
    ensures Undo(Write(m, a, bs), log + [LogEntry(a, Read(m, a, LOG_ENTRY_SIZE))]) == Undo(m, log)
  {
    EightBytesUndoStore(m, a, bs);
    var longer := log + [LogEntry(a, Read(m, a, LOG_ENTRY_SIZE))];
    assert longer[..|longer| - 1] == log;
  }

  lemma EmptyWrite(m: Mem, a: int)
    ensures Write(m, a, []) == m
  {}

  /** Every mapped byte of the range holds the given value. */
  predicate Holds(m: Mem, a: int, bs: seq<Byte>) {
    forall x :: 0 <= x < |m| && a <= x < a + |bs| ==> m[x] == bs[x - a]
  }

  /** A cancelled store is reinstated by the entry that holds its value. */
  lemma CancelledStoreReinstated(m: Mem, a: int, before: seq<Byte>, stored: seq<Byte>)
    requires |before| == |stored| && Holds(m, a, stored)
    ensures Undo(Write(m, a, before), [LogEntry(a, stored)]) == m
  {
    assert Write(Write(m, a, before), a, stored) == m;
    assert [LogEntry(a, stored)][..0] == [];
  }

  /** Changing the top log and the memory together so that the top level still undoes to the same
      memory preserves the undone memory of every level. */
  lemma TopLevelOnly(m1: Mem, m2: Mem, lower: seq<seq<LogEntry>>, top1: seq<LogEntry>, top2: seq<LogEntry>, i: nat)
    requires i <= |lower| && Undo(m1, top1) == Undo(m2, top2)
    ensures UndoDownTo(m1, lower + [top1], i) == UndoDownTo(m2, lower + [top2], i)
  {
    assert (lower + [top1])[..|lower|] == lower == (lower + [top2])[..|lower|];
  }
}
