/** The speculators and the tracer as objects: the checkpoint stack, the store logs, the speculation
window and the trace are updated in place, each method proved against module ContractModel. */
module Speculators {
  import opened Bytes
  import opened Common
  import opened Memory
  import opened BranchDecoder
  import opened Instructions
  import opened TaintTracking
  import opened ContractModel

  /** The state of the emulator that the hooks read and write. */
  class Emulator {
    var cpu: Cpu
    var pc: int

    constructor (cpu: Cpu, pc: int)
      ensures this.cpu == cpu && this.pc == pc
    {
      this.cpu, this.pc := cpu, pc;
    }

    method MemWrite(addr: int, bytes: seq<Byte>)
      modifies this`cpu
      ensures cpu == old(cpu).(mem := Write(old(cpu).mem, addr, bytes))
    {
      cpu := cpu.(mem := Write(cpu.mem, addr, bytes));
    }
  }

  /** The constant-time tracer: program counters and addresses. */
  class CTTracer {
    const tracker: TaintTracker
    var trace: seq<Entry>

    constructor (tracker: TaintTracker)
      ensures this.tracker == tracker && trace == []
    {
      this.tracker, trace := tracker, [];
    }

    method ObserveInstruction(pc: int, level: nat)
      modifies this, tracker`pendingTaint
      ensures trace == old(trace) + [Entry(Pc(pc), level)]
      ensures tracker.Model() == if tracker.enabled then Taint.TaintPc(old(tracker.Model())) else old(tracker.Model())
    {
      trace := trace + [Entry(Pc(pc), level)];
      tracker.TaintProgramCounter();
    }

    method ObserveMemAccess(addr: int, level: nat)
      modifies this, tracker`pendingTaint
      ensures trace == old(trace) + [Entry(Address(addr), level)]
      ensures tracker.Model() ==
                if tracker.enabled then Taint.TaintAddress(old(tracker.Model())) else old(tracker.Model())
    {
      trace := trace + [Entry(Address(addr), level)];
      tracker.TaintMemoryAddress();
    }
  }

  class UnicornSpeculator {
    const c: Config
    const emulator: Emulator
    const tracker: TaintTracker
    var checkpoints: seq<Checkpoint>
    var storeLogs: seq<seq<LogEntry>>
    var inSpeculation: bool
    var speculationWindow: nat
    var previousStore: Option<Store>
    var failed: bool

    /** The speculator and the emulator it drives, as a value. */
    function Core(): Core
      reads this, emulator
    {
      ContractModel.Core(emulator.cpu, emulator.pc,
                         Speculator(checkpoints, storeLogs, inSpeculation, speculationWindow, previousStore, failed))
    }

    constructor (c: Config, emulator: Emulator, tracker: TaintTracker)
      ensures this.c == c && this.emulator == emulator && this.tracker == tracker
      ensures Core() == ContractModel.Core(emulator.cpu, emulator.pc, INITIAL_SPECULATOR)
    {
      this.c, this.emulator, this.tracker := c, emulator, tracker;
      checkpoints, storeLogs, inSpeculation, speculationWindow := [], [], false, 0;
      previousStore, failed := None, false;
    }

    function Nesting(): nat
      reads this
    {
      |checkpoints|
    }

    predicate MaxNestingReached()
      reads this
    {
      Nesting() >= c.maxNesting
    }

    method TakeCheckpoint(next: int, includeCurrentInst: bool)
      modifies this`checkpoints, this`storeLogs, this`inSpeculation, tracker
      ensures Core() == Push(old(Core()), next)
      ensures tracker.Model() == if tracker.enabled then Taint.TakeCheckpoint(old(tracker.Model()), includeCurrentInst)
                                 else old(tracker.Model())
    {
      var saved := Checkpoint(emulator.cpu.regs, emulator.cpu.flags, next, speculationWindow, emulator.cpu.mem);
      checkpoints := checkpoints + [saved];
      storeLogs := storeLogs + [[]];
      inSpeculation := true;
      tracker.Checkpoint(includeCurrentInst);
    }

    /** Write the logged bytes back, the newest entry first. */
    method UndoStores(log: seq<LogEntry>)
      modifies emulator`cpu
      ensures emulator.cpu == old(emulator.cpu).(mem := Undo(old(emulator.cpu.mem), log))
    {
      var changes := log;
      while |changes| > 0
        invariant emulator.cpu == old(emulator.cpu).(mem := emulator.cpu.mem)
        invariant Undo(emulator.cpu.mem, changes) == Undo(old(emulator.cpu.mem), log)
      {
        var change := changes[|changes| - 1];
        changes := changes[..|changes| - 1];
        emulator.MemWrite(change.addr, change.bytes);
      }
    }

    /** Return to the last checkpoint and give the address to resume at. */
    method Rollback() returns (next: int)
      requires |checkpoints| > 0 && |storeLogs| > 0 && inSpeculation
      requires tracker.enabled ==> |tracker.checkpoints| > 0
      modifies this, emulator`cpu, tracker
      ensures Core().(pc := next) == Pop(old(Core()))
      ensures tracker.Model() == if tracker.enabled then Taint.Rollback(old(tracker.Model())) else old(tracker.Model())
    {
      previousStore := None;
      var saved := checkpoints[|checkpoints| - 1];
      checkpoints := checkpoints[..|checkpoints| - 1];
      if |checkpoints| == 0 {
        inSpeculation := false;
      }
      emulator.cpu := emulator.cpu.(regs := saved.regs);
      speculationWindow := saved.window;

      var changes := storeLogs[|storeLogs| - 1];
      storeLogs := storeLogs[..|storeLogs| - 1];
      UndoStores(changes);
      emulator.cpu := emulator.cpu.(flags := saved.flags);
      tracker.RollBack();
      next := saved.next;
    }

    /** Force a conditional branch onto its wrong path. */
    method SpeculateBranch(p: Program) returns (redirected: bool)
      requires ValidEncoding(p.code(emulator.pc).code) && c.clause == Cond
      modifies this`checkpoints, this`storeLogs, this`inSpeculation, emulator, tracker
      ensures redirected == Mispredicts(c, p, old(Core()))
      ensures Core() == if redirected then Mispredict(p, old(Core())) else old(Core())
      ensures redirected ==>
                var i, b := p.code(old(emulator.pc)),
                  ManualBranch(p.code(old(emulator.pc)).code, old(emulator.cpu.flags), RegValue(old(emulator.cpu.regs), C));
                && b.Branch?
                && (emulator.pc == old(emulator.pc) + i.Size() + (if b.taken then 0 else b.displacement)
                    <==> b.taken || FaithfulDisplacement(i.code))
      ensures tracker.Model() == if redirected && tracker.enabled then Taint.TakeCheckpoint(old(tracker.Model()), true)
                                 else old(tracker.Model())
    {
      hide Decode;
      if MaxNestingReached() { return false; }
      var address, size := emulator.pc, p.code(emulator.pc).Size();
      if size > MAX_INSTRUCTION_SIZE { return false; }
      var rcx := RegValue(emulator.cpu.regs, C);
      var decoded := Decode(p.code(address).code, emulator.cpu.flags, rcx);
      DecodedTarget(p.code(address).code, emulator.cpu.flags, rcx);
      DecodedIsManual(p.code(address).code, emulator.cpu.flags, rcx);
      hide ManualBranch, FaithfulDisplacement;
      if decoded.target == 0 { return false; }
      if decoded.isLoop {
        emulator.cpu := emulator.cpu.(regs := emulator.cpu.regs[C := Decrement(rcx)]);
      }
      TakeCheckpoint(if decoded.willJump then address + size + decoded.target else address + size, true);
      emulator.pc := if decoded.willJump then address + size else address + size + decoded.target;
      return true;
    }

    /** Cancel the store of the previous instruction, keeping its value in the store log. */
    method SpeculateBypass()
      requires c.clause == Bpas
      modifies this, emulator, tracker
      ensures Core() == if Bypasses(c, old(Core())) then BypassStore(old(Core())) else ForgetStore(c, old(Core()))
      ensures Bypasses(c, old(Core())) ==>
                var s := old(previousStore).value;
                emulator.cpu == old(emulator.cpu).(mem := Write(old(emulator.cpu.mem), s.addr, s.before))
      ensures tracker.Model() == if Bypasses(c, old(Core())) && tracker.enabled
                                 then Taint.TakeCheckpoint(old(tracker.Model()), false) else old(tracker.Model())
    {
      if MaxNestingReached() {
        previousStore := None;
        return;
      }
      if previousStore.Some? {
        var store := previousStore.value;
        TakeCheckpoint(emulator.pc, false);
        assert storeLogs == old(storeLogs) + [[]] by { assert storeLogs == Core().spec.logs; }
        emulator.MemWrite(store.addr, store.before);
        var top := |storeLogs| - 1;
        storeLogs := storeLogs[top := storeLogs[top] + [LogEntry(store.addr, store.stored)]];
        assert storeLogs[top] == [LogEntry(store.addr, store.stored)];
        assert storeLogs == old(storeLogs) + [[LogEntry(store.addr, store.stored)]];
      }
      previousStore := None;
    }

    /** The hook before every instruction; `stop` asks the emulator to stop, `redirected` says that the
        program counter was rewritten. */
    method HandleInstruction(p: Program) returns (stop: bool, redirected: bool)
      requires ValidEncoding(p.code(emulator.pc).code)
      requires c.clause != Bpas ==> previousStore.None?
      modifies this, emulator, tracker
      ensures stop == MustStop(c, p, CountWindow(old(Core())))
      ensures redirected == Mispredicts(c, p, CountWindow(old(Core())))
      ensures Core() == Speculated(c, p, CountWindow(old(Core())))
      ensures tracker.Model() ==
                if tracker.enabled && redirected then Taint.TakeCheckpoint(old(tracker.Model()), true)
                else if tracker.enabled && Bypasses(c, old(Core()))
                then Taint.TakeCheckpoint(old(tracker.Model()), false)
                else old(tracker.Model())
    {
      stop, redirected := false, false;
      if inSpeculation {
        speculationWindow := speculationWindow + 1;
        if p.code(emulator.pc).IsBarrier() { stop := true; }
        if speculationWindow > c.maxWindow { stop := true; }
      }
      match c.clause
      case Seq => {}
      case Cond => redirected := SpeculateBranch(p);
      case Bpas => SpeculateBypass();
    }

    /** Remember a store so that the next instruction can bypass it. */
    method SpeculateMemAccess(a: Access)
      requires c.clause == Bpas && WellFormedAccess(a)
      modifies this`previousStore, this`failed
      ensures Core().spec == RememberStore(c, old(Core()).spec, emulator.cpu.mem, a)
    {
      if a.write {
        if previousStore.Some? {
          var first := previousStore.value;
          if first.addr <= a.addr && a.addr + |a.bytes| <= first.addr + |first.stored| {
            var sliced := first.stored[a.addr - first.addr .. a.addr + |a.bytes| - first.addr][0];
            if (sliced as int) == LittleEndian(a.bytes) { return; }
          }
          failed := true;
          return;
        }
        previousStore := Some(Store(a.addr, Read(emulator.cpu.mem, a.addr, |a.bytes|), a.bytes));
      }
    }

    /** The hook before every memory access. */
    method HandleMemAccess(a: Access)
      requires WellFormedAccess(a)
      modifies this`storeLogs, this`previousStore, this`failed
      ensures Core().spec == RememberStore(c, LogStore(old(Core()).spec, emulator.cpu.mem, a), emulator.cpu.mem, a)
    {
      if a.write && |storeLogs| > 0 {
        var top := |storeLogs| - 1;
        var previous := Read(emulator.cpu.mem, a.addr, LOG_ENTRY_SIZE);
        storeLogs := storeLogs[top := storeLogs[top] + [LogEntry(a.addr, previous)]];
      }
      if c.clause == Bpas {
        SpeculateMemAccess(a);
      }
    }
  }

  lemma DecodedIsManual(code: seq<int>, f: Flags, rcx: Word)
    requires ValidEncoding(code)
    ensures ManualBranch(code, f, rcx).Branch? ==>
              Decode(code, f, rcx).willJump == ManualBranch(code, f, rcx).taken
  {
    if ManualBranch(code, f, rcx).Branch? { DecodedOutcome(code, f, rcx); }
  }

  /** What the speculation hook does to the core. */
  function Speculated(c: Config, p: Program, k: Core): Core
    requires ValidEncoding(p.code(k.pc).code)
  {
    if Mispredicts(c, p, k) then Mispredict(p, k)
    else if Bypasses(c, k) then BypassStore(k)
    else ForgetStore(c, k)
  }
}
