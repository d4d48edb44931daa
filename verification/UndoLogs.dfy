/** The layered undo-log invariant: undoing the store logs from the top down to a level gives, byte
for byte, the memory at that level's checkpoint. */
module UndoLogs {
  import opened Bytes
  import opened Memory
  import opened BranchDecoder
  import opened Instructions
  import opened ContractModel

  ghost predicate SnapshotsHold(k: Core) {
    && |k.spec.logs| == |k.spec.checkpoints|
    && forall i :: 0 <= i < |k.spec.checkpoints| ==>
         UndoDownTo(k.cpu.mem, k.spec.logs, i) == k.spec.checkpoints[i].snapshot
  }

  /** The store that waits to be bypassed is still in memory. */
  ghost predicate PendingStoreHolds(k: Core) {
    match k.spec.previousStore
    case None => true
    case Some(s) => |s.before| == |s.stored| && Holds(k.cpu.mem, s.addr, s.stored)
  }

  ghost predicate Layered(c: Config, k: Core) {
    && SnapshotsHold(k) && !k.spec.failed
    && (c.clause == Bpas ==> PendingStoreHolds(k))
    && (c.clause == Seq ==> k.Level() == 0)
  }

  /** Stores fit a log entry and, when they may be bypassed, come one per instruction. */
  ghost predicate Loggable(c: Config, p: Program) {
    WellFormed(p) && NarrowStores(p) && (c.clause == Bpas ==> SingleStores(p))
  }

  /** The instruction executed next faults outside speculation. */
  predicate ArchitecturalFault(c: Config, p: Program, m: State) {
    && m.status == Running && !IsExit(p, m.core.pc)
    && m.core.Level() == 0 && !Bypasses(c, m.core)
    && p.exec(m.core.pc, m.core.cpu).fault != 0
  }

  lemma PushLayers(k: Core, next: int)
    requires SnapshotsHold(k)
    ensures SnapshotsHold(Push(k, next))
  {
    var r := Push(k, next);
    var n := |k.spec.logs|;
    assert r.spec.logs[..n] == k.spec.logs;
    forall i | 0 <= i < |r.spec.checkpoints|
      ensures UndoDownTo(r.cpu.mem, r.spec.logs, i) == r.spec.checkpoints[i].snapshot
    {
      if i < n { assert Undo(r.cpu.mem, r.spec.logs[n]) == k.cpu.mem; }
      else { assert UndoDownTo(r.cpu.mem, r.spec.logs, n) == Undo(r.cpu.mem, []); }
    }
  }

  /** A rollback restores the registers, flags and memory of the checkpoint exactly. */
  lemma PopRestores(k: Core)
    requires SnapshotsHold(k) && k.Level() > 0
    ensures var top := k.spec.checkpoints[k.Level() - 1];
            Pop(k).cpu == Cpu(top.regs, top.flags, top.snapshot) && Pop(k).pc == top.next
            && Pop(k).spec.window == top.window
    ensures SnapshotsHold(Pop(k)) && PendingStoreHolds(Pop(k))
  {
    var n := |k.spec.logs| - 1;
    var undone := Undo(k.cpu.mem, k.spec.logs[n]);
    assert UndoDownTo(k.cpu.mem, k.spec.logs, n) == UndoDownTo(undone, k.spec.logs[..n], n);
    forall i | 0 <= i < n
      ensures UndoDownTo(undone, k.spec.logs[..n], i) == k.spec.checkpoints[i].snapshot
    {
      assert UndoDownTo(k.cpu.mem, k.spec.logs, i) == UndoDownTo(undone, k.spec.logs[..n], i);
    }
  }

  /** Replacing the top log and the memory so that they undo to the same memory keeps all layers. */
  lemma TopReplaced(k: Core, r: Core)
    requires SnapshotsHold(k) && k.Level() > 0
    requires r.spec.checkpoints == k.spec.checkpoints && |r.spec.logs| == |k.spec.logs|
    requires var n := k.Level() - 1;
             r.spec.logs[..n] == k.spec.logs[..n] && Undo(r.cpu.mem, r.spec.logs[n]) == Undo(k.cpu.mem, k.spec.logs[n])
    ensures SnapshotsHold(r)
  {
    var n := k.Level() - 1;
    forall i | 0 <= i <= n
      ensures UndoDownTo(r.cpu.mem, r.spec.logs, i) == UndoDownTo(k.cpu.mem, k.spec.logs, i)
    {
      assert k.spec.logs == k.spec.logs[..n] + [k.spec.logs[n]];
      assert r.spec.logs == k.spec.logs[..n] + [r.spec.logs[n]];
      TopLevelOnly(r.cpu.mem, k.cpu.mem, k.spec.logs[..n], r.spec.logs[n], k.spec.logs[n], i);
    }
  }

  lemma MispredictLayers(c: Config, p: Program, k: Core)
    requires Layered(c, k) && ValidEncoding(p.code(k.pc).code) && c.clause == Cond
    ensures Layered(c, Mispredict(p, k))
  {
    var executed := k.(cpu := k.cpu.(regs := BranchRegs(p, k)));
    assert SnapshotsHold(executed);
    PushLayers(executed, BranchTarget(p, k, Decoding(p, k).willJump));
  }

  /** The bypassed path starts on the memory before the store, and undoing it reinstates the store. */
  lemma BypassLayers(c: Config, k: Core)
    requires Layered(c, k) && Bypasses(c, k)
    ensures Layered(c, BypassStore(k))
    ensures var s, r := k.spec.previousStore.value, BypassStore(k);
            && r.cpu == k.cpu.(mem := Write(k.cpu.mem, s.addr, s.before))
            && Undo(r.cpu.mem, r.spec.logs[k.Level()]) == k.cpu.mem
  {
    var s := k.spec.previousStore.value;
    var pushed := Push(k, k.pc);
    var r := BypassStore(k);
    PushLayers(k, k.pc);
    CancelledStoreReinstated(k.cpu.mem, s.addr, s.before, s.stored);
    assert pushed.spec.logs[..k.Level()] == k.spec.logs == r.spec.logs[..k.Level()];
    TopReplaced(pushed, r);
  }

  lemma AccessLayers(c: Config, k: Core, a: Access, performed: bool)
    requires SnapshotsHold(k) && |a.bytes| <= LOG_ENTRY_SIZE
    ensures SnapshotsHold(Access1(c, k, a, performed))
  {
    var r := Access1(c, k, a, performed);
    if k.Level() == 0 || !a.write { return; }
    var n := k.Level() - 1;
    LoggedStoreUndone(k.cpu.mem, k.spec.logs[n], a.addr, a.bytes);
    LoggedStoreUndone(k.cpu.mem, k.spec.logs[n], a.addr, []);
    EmptyWrite(k.cpu.mem, a.addr);
    TopReplaced(k, r);
  }

  lemma AccessesLayers(c: Config, k: Core, accesses: seq<Access>, faulting: bool)
    requires SnapshotsHold(k)
    requires forall i :: 0 <= i < |accesses| ==> |accesses[i].bytes| <= LOG_ENTRY_SIZE
    ensures SnapshotsHold(RunAccesses(c, k, accesses, faulting))
    decreases |accesses|
  {
    if |accesses| > 0 {
      AccessLayers(c, k, accesses[0], !(faulting && |accesses| == 1));
      AccessesLayers(c, Access1(c, k, accesses[0], !(faulting && |accesses| == 1)), accesses[1..], faulting);
    }
  }

  predicate OneStore(accesses: seq<Access>) {
    forall i, j :: 0 <= i < j < |accesses| ==> !(accesses[i].write && accesses[j].write)
  }

  predicate NoStore(accesses: seq<Access>) {
    forall i :: 0 <= i < |accesses| ==> !accesses[i].write
  }

  /** With one store per instruction, the store that is remembered is the one in memory. */
  lemma PendingStoreKept(c: Config, k: Core, accesses: seq<Access>)
    requires PendingStoreHolds(k) && OneStore(accesses)
    requires k.spec.previousStore.None? || NoStore(accesses)
    ensures PendingStoreHolds(RunAccesses(c, k, accesses, false))
    decreases |accesses|
  {
    if |accesses| > 0 {
      PendingStoreKept(c, Access1(c, k, accesses[0], true), accesses[1..]);
    }
  }

  /** With one store per instruction, the bypass hook never raises an error. */
  lemma NeverFails(c: Config, k: Core, accesses: seq<Access>, faulting: bool)
    requires OneStore(accesses)
    requires k.spec.previousStore.None? || NoStore(accesses)
    ensures RunAccesses(c, k, accesses, faulting).spec.failed == k.spec.failed
    decreases |accesses|
  {
    if |accesses| > 0 {
      NeverFails(c, Access1(c, k, accesses[0], !(faulting && |accesses| == 1)), accesses[1..], faulting);
    }
  }

  /** A call that looks like a repetition of the remembered store is tolerated: a single byte of it, and the
      whole store again only if its value fits a byte. */
  lemma RepeatedStoreTolerated(c: Config, s: Speculator, mem: Mem, a: Access, k: nat)
    requires c.clause == Bpas && a.write && s.previousStore.None? && !s.failed && k < |a.bytes|
    ensures var once := RememberStore(c, s, mem, a);
            && !once.failed
            && (RememberStore(c, once, mem, a).failed <==> LittleEndian(a.bytes) >= 256)
            && forall b: Byte ::
                 RememberStore(c, once, mem, Access(true, a.addr + k, 1, [b])).failed <==> b != a.bytes[k]
  {
    var first := a.bytes[0] as int;
    assert LittleEndian(a.bytes) == first + 256 * LittleEndian(a.bytes[1..]);
    forall b: Byte ensures LittleEndian([b]) == b as int { assert [b][1..] == []; }
  }

  lemma ExecuteLayers(c: Config, p: Program, m: State)
    requires Loggable(c, p) && StacksAgree(c, m) && (c.tracking ==> m.tracker.inst.Some?)
    requires Layered(c, m.core) && m.core.spec.previousStore.None?
    requires c.clause == Bpas && m.core.Level() == 0 ==> p.exec(m.core.pc, m.core.cpu).fault == 0
    ensures Layered(c, Execute(c, p, m).core)
  {
    var o := p.exec(m.core.pc, m.core.cpu);
    var k := RunAccesses(c, m.core, o.accesses, o.fault != 0);
    RunAccessesKeeps(c, m.core, o.accesses, o.fault != 0);
    AccessesLayers(c, m.core, o.accesses, o.fault != 0);
    if c.clause != Bpas {
      NoPendingStore(c, m.core, o.accesses, o.fault != 0);
    } else {
      NeverFails(c, m.core, o.accesses, o.fault != 0);
      if o.fault == 0 { PendingStoreKept(c, m.core, o.accesses); }
    }
    RetireLayers(c, p, Accessed(c, p, m), o);
  }

  lemma RetireLayers(c: Config, p: Program, m: State, o: Outcome)
    requires StacksAgree(c, m) && SnapshotsHold(m.core) && !m.core.spec.failed
    requires c.clause != Bpas ==> m.core.spec.previousStore.None?
    requires c.clause == Seq ==> m.core.Level() == 0
    requires c.clause == Bpas && (o.fault == 0 || m.core.Level() == 0) ==> PendingStoreHolds(m.core)
    ensures Layered(c, ExecuteEnd(c, p, m, o).core)
  {
    if m.core.Level() > 0 { PopRestores(m.core); }
  }

  lemma WrongPathLayers(c: Config, p: Program, m: State)
    requires StacksAgree(c, m) && m.status == Running && Layered(c, m.core)
    requires ValidEncoding(p.code(m.core.pc).code) && Mispredicts(c, p, m.core)
    ensures Layered(c, TakeWrongPath(c, p, m).core)
    ensures Layered(c, RollBack(c, TakeWrongPath(c, p, m)).core)
  {
    MispredictLayers(c, p, m.core);
    PopRestores(Mispredict(p, m.core));
  }

  lemma BypassPathLayers(c: Config, m: State)
    requires StacksAgree(c, m) && m.status == Running && Layered(c, m.core)
    ensures Layered(c, TakeBypass(c, m).core) && TakeBypass(c, m).core.spec.previousStore.None?
    ensures TakeBypass(c, m).core.Level() > 0 ==> Layered(c, RollBack(c, TakeBypass(c, m)).core)
  {
    if Bypasses(c, m.core) { BypassLayers(c, m.core); }
    if TakeBypass(c, m).core.Level() > 0 { PopRestores(TakeBypass(c, m).core); }
  }

  lemma VisitLayers(c: Config, p: Program, m: State)
    requires Loggable(c, p) && StacksAgree(c, m) && m.status == Running
    requires Layered(c, m.core)
    requires c.clause == Bpas && m.core.Level() == 0 && !Bypasses(c, m.core) ==>
               p.exec(m.core.pc, m.core.cpu).fault == 0
    ensures Layered(c, Visit(c, p, m).core)
  {
    var seen := Arrive(c, p, m);
    assert Layered(c, seen.core);
    if Mispredicts(c, p, seen.core) {
      WrongPathLayers(c, p, seen);
    } else {
      BypassPathLayers(c, seen);
      if !MustStop(c, p, seen.core) { ExecuteLayers(c, p, TakeBypass(c, seen)); }
    }
  }

  /** Under store bypassing, a store that faults outside speculation stays remembered although it was never
      performed: bypassing it at the fault handler and rolling back leaves the memory as it was if and only
      if the value was there already. */
  lemma FaultingStoreReinstated(c: Config, p: Program, x: State, a: Access)
    requires Loggable(c, p) && StacksAgree(c, x) && (c.tracking ==> x.tracker.inst.Some?) && x.status == Running
    requires c.clause == Bpas && x.core.Level() == 0 < c.maxNesting
    requires x.core.spec.previousStore.None? && !x.core.spec.failed && !x.hadFault
    requires var o := p.exec(x.core.pc, x.core.cpu);
             o.fault in p.handledFaults && o.fault != 0 && p.faultHandler != p.exit && o.accesses == [a] && a.write
    ensures var r := Execute(c, p, x);
            && r.status == Running && r.core.pc == p.faultHandler && r.core.cpu == x.core.cpu
            && TakeBypass(c, r).core.Level() == 1
            && (RollBack(c, TakeBypass(c, r)).core.cpu.mem == x.core.cpu.mem
                <==> Holds(x.core.cpu.mem, a.addr, a.bytes))
  {
    var mem := x.core.cpu.mem;
    assert [a][1..] == [];
    assert RunAccesses(c, x.core, [a], true) == Access1(c, x.core, a, false);
    StoreReinstated(mem, a.addr, a.bytes);
    hide Taint.Rollback, Taint.TaintAddress, TrackAccesses, Write, Undo, Read;
  }

  lemma StoreReinstated(mem: Mem, a: int, bs: seq<Byte>)
    ensures Write(mem, a, Read(mem, a, |bs|)) == mem
    ensures Undo(mem, [LogEntry(a, bs)]) == mem <==> Holds(mem, a, bs)
  {
    forall x | 0 <= x < |mem| && a <= x < a + |bs| ensures Read(mem, a, |bs|)[x - a] == mem[x] {
      assert Read(mem, a, |bs|)[x - a] == ByteAt(mem, a + (x - a));
    }
    var log := [LogEntry(a, bs)];
    assert log[..|log| - 1] == [] && log[|log| - 1] == LogEntry(a, bs);
    assert Undo(mem, log) == Undo(Write(mem, a, bs), []) == Write(mem, a, bs);
  }

  /** Every step keeps the layers, except an architectural fault under store bypassing. */
  lemma StepLayers(c: Config, p: Program, m: State)
    requires Loggable(c, p) && StacksAgree(c, m) && Layered(c, m.core)
    requires c.clause == Bpas ==> !ArchitecturalFault(c, p, m)
    ensures Layered(c, Step(c, p, m).core)
  {
    if m.status == Running {
      if IsExit(p, m.core.pc) || (m.reentry && m.core.pc != p.start && m.core.pc == p.faultHandler &&
                                  m.core.spec.inSpeculation) {
        if m.core.Level() > 0 { PopRestores(m.core); }
      } else {
        VisitLayers(c, p, m);
      }
    }
  }
}
