/** The contract model: the emulator, the speculators, the constant-time tracer and the state machine
that drives them, as functions from state to state.

A step of the machine is one turn of the state machine's loop around one instruction: re-entry
checks, the hooks before the instruction, the instruction with its memory hooks, and the rollback or
fault handling that follows when the emulator stops.
*/
module ContractModel {
  import opened Bytes
  import opened Common
  import opened Memory
  import opened BranchDecoder
  import opened Instructions
  import opened Taint

  /** Execution clauses: sequential, conditional-branch misprediction, speculative store bypass. */
  datatype Clause = Seq | Cond | Bpas

  datatype Config = Config(clause: Clause, maxNesting: nat, maxWindow: nat, tracking: bool)

  /** A saved emulator context with the resume address and the speculation window.  `snapshot` is the
      memory at the moment of the checkpoint; no operation reads it. */
  datatype Checkpoint = Checkpoint(regs: Registers, flags: Flags, next: int, window: nat, snapshot: Mem)

  /** A store that may be bypassed at the next instruction: what it replaced and what it wrote. */
  datatype Store = Store(addr: int, before: seq<Byte>, stored: seq<Byte>)

  /** The state of the speculator; `failed` records that it raised NotImplementedError. */
  datatype Speculator = Speculator(
    checkpoints: seq<Checkpoint>,
    logs: seq<seq<LogEntry>>,
    inSpeculation: bool,
    window: nat,
    previousStore: Option<Store>,
    failed: bool)

  /** The emulator and the speculator that drives it. */
  datatype Core = Core(cpu: Cpu, pc: int, spec: Speculator)
  {
    function Level(): nat {
      |spec.checkpoints|
    }
  }

  datatype Observation = Pc(addr: int) | Address(addr: int)

  /** A trace entry; `level` is the nesting at which it was recorded and is not part of the trace
      that the model returns. */
  datatype Entry = Entry(obs: Observation, level: nat)

  datatype Status = Running | Halted | Error

  /** `reentry` holds when the emulator is about to be started at the program counter. */
  datatype State = State(
    core: Core,
    reentry: bool,
    tracker: Tracker,
    trace: seq<Entry>,
    hadFault: bool,
    status: Status)

  const INITIAL_SPECULATOR := Speculator([], [], false, 0, None, false)

  function Initial(p: Program, cpu: Cpu): State {
    State(Core(cpu, p.start, INITIAL_SPECULATOR), true, INITIAL_TRACKER, [], false, Running)
  }

  predicate IsExit(p: Program, pc: int) {
    pc >= p.exit
  }

  // ---------------------------------------------------------------------------------------------
  // Stack discipline

  ghost predicate WindowsGrow(cs: seq<Checkpoint>, window: nat) {
    && (|cs| == 0 ==> window == 0)
    && (|cs| > 0 ==> cs[0].window == 0 && cs[|cs| - 1].window <= window)
    && forall i, j :: 0 <= i <= j < |cs| ==> cs[i].window <= cs[j].window
  }

  /** Checkpoints and store logs have one height within the nesting bound, speculation is on exactly
      when they are not empty, the saved windows never decrease from zero upwards, and only store
      bypassing remembers a store. */
  ghost predicate SpeculatorAgrees(c: Config, s: Speculator) {
    && |s.logs| == |s.checkpoints| <= c.maxNesting
    && (s.inSpeculation <==> |s.checkpoints| > 0)
    && WindowsGrow(s.checkpoints, s.window)
    && (c.clause != Bpas ==> s.previousStore.None?)
  }

  /** The taint checkpoints are as many as the speculator's while tracking, and the machine halts only
      outside speculation. */
  ghost predicate StacksAgree(c: Config, m: State) {
    && SpeculatorAgrees(c, m.core.spec)
    && |m.tracker.checkpoints| == (if c.tracking then m.core.Level() else 0)
    && (m.status == Halted ==> m.core.Level() == 0)
  }

  // ---------------------------------------------------------------------------------------------
  // Checkpoints

  function Push(k: Core, next: int): Core {
    var saved := Checkpoint(k.cpu.regs, k.cpu.flags, next, k.spec.window, k.cpu.mem);
    k.(spec := k.spec.(checkpoints := k.spec.checkpoints + [saved], logs := k.spec.logs + [[]], inSpeculation := true))
  }

  function Pop(k: Core): Core
    requires |k.spec.checkpoints| > 0 && |k.spec.logs| > 0
  {
    var n := |k.spec.checkpoints| - 1;
    var top := k.spec.checkpoints[n];
    var log := k.spec.logs[|k.spec.logs| - 1];
    Core(Cpu(top.regs, top.flags, Undo(k.cpu.mem, log)), top.next,
         Speculator(k.spec.checkpoints[..n], k.spec.logs[..|k.spec.logs| - 1], n > 0, top.window, None, k.spec.failed))
  }

  function RollBack(c: Config, m: State): (r: State)
    requires StacksAgree(c, m) && m.core.Level() > 0
    ensures StacksAgree(c, r)
  {
    m.(core := Pop(m.core), reentry := true, tracker := if c.tracking then Taint.Rollback(m.tracker) else m.tracker)
  }

  // ---------------------------------------------------------------------------------------------
  // Hooks before an instruction

  function ObserveInstruction(c: Config, p: Program, m: State): State {
    var pc := m.core.pc;
    m.(tracker := if c.tracking then TaintPc(TrackInstruction(m.tracker, p.code(pc))) else m.tracker,
       trace := m.trace + [Entry(Pc(pc), m.core.Level())])
  }

  function CountWindow(k: Core): Core {
    if k.spec.inSpeculation then k.(spec := k.spec.(window := k.spec.window + 1)) else k
  }

  /** A barrier or an expired window stops the emulator before the instruction executes. */
  predicate MustStop(c: Config, p: Program, k: Core) {
    k.spec.inSpeculation && (p.code(k.pc).IsBarrier() || k.spec.window > c.maxWindow)
  }

  function Decoding(p: Program, k: Core): Decoded
    requires ValidEncoding(p.code(k.pc).code)
  {
    Decode(p.code(k.pc).code, k.cpu.flags, RegValue(k.cpu.regs, C))
  }

  predicate Mispredicts(c: Config, p: Program, k: Core)
    requires ValidEncoding(p.code(k.pc).code)
  {
    && c.clause == Cond
    && k.Level() < c.maxNesting
    && p.code(k.pc).Size() <= MAX_INSTRUCTION_SIZE
    && Decoding(p, k).target != 0
  }

  /** Where the branch goes according to the decoder, for an outcome. */
  function BranchTarget(p: Program, k: Core, jump: bool): int
    requires ValidEncoding(p.code(k.pc).code)
  {
    k.pc + p.code(k.pc).Size() + if jump then Decoding(p, k).target else 0
  }

  /** The speculator decrements the count of a LOOP itself, since the emulator never executes it. */
  function BranchRegs(p: Program, k: Core): Registers
    requires ValidEncoding(p.code(k.pc).code)
  {
    if Decoding(p, k).isLoop then k.cpu.regs[C := Decrement(RegValue(k.cpu.regs, C))] else k.cpu.regs
  }

  /** Checkpoint the correct outcome of the branch and continue on the wrong path. */
  function Mispredict(p: Program, k: Core): Core
    requires ValidEncoding(p.code(k.pc).code)
  {
    var jump := Decoding(p, k).willJump;
    Push(k.(cpu := k.cpu.(regs := BranchRegs(p, k))), BranchTarget(p, k, jump)).(pc := BranchTarget(p, k, !jump))
  }

  predicate Bypasses(c: Config, k: Core) {
    c.clause == Bpas && k.spec.previousStore.Some? && k.Level() < c.maxNesting
  }

  /** Cancel the store of the previous instruction; the checkpoint resumes at the current one. */
  function BypassStore(k: Core): Core
    requires k.spec.previousStore.Some?
  {
    var s := k.spec.previousStore.value;
    var k' := Push(k, k.pc);
    k'.(cpu := k.cpu.(mem := Write(k.cpu.mem, s.addr, s.before)),
        spec := k'.spec.(logs := k.spec.logs + [[LogEntry(s.addr, s.stored)]], previousStore := None))
  }

  function ForgetStore(c: Config, k: Core): Core {
    if c.clause == Bpas then k.(spec := k.spec.(previousStore := None)) else k
  }

  // ---------------------------------------------------------------------------------------------
  // The instruction and its memory hooks

  /** While in speculation, every store logs the eight bytes at its address. */
  function LogStore(s: Speculator, mem: Mem, a: Access): Speculator {
    if a.write && |s.logs| > 0 then
      var top := |s.logs| - 1;
      s.(logs := s.logs[top := s.logs[top] + [LogEntry(a.addr, Read(mem, a.addr, LOG_ENTRY_SIZE))]])
    else s
  }

  /** Remember a store for bypassing.  A second store of the same instruction is an error, unless it
      looks like a repeated call for a slice of the first. */
  function RememberStore(c: Config, s: Speculator, mem: Mem, a: Access): Speculator {
    if c.clause != Bpas || !a.write then s
    else if s.previousStore.None? then
      s.(previousStore := Some(Store(a.addr, Read(mem, a.addr, |a.bytes|), a.bytes)))
    else
      var first := s.previousStore.value;
      if first.addr <= a.addr && a.addr + |a.bytes| <= first.addr + |first.stored| && |a.bytes| > 0
         && (first.stored[a.addr - first.addr] as int) == LittleEndian(a.bytes)
      then s
      else s.(failed := true)
  }

  /** The speculator's memory hook followed by the access; the last access of a faulting instruction
      only reaches the hook. */
  function Access1(c: Config, k: Core, a: Access, performed: bool): Core {
    k.(spec := RememberStore(c, LogStore(k.spec, k.cpu.mem, a), k.cpu.mem, a),
       cpu := if a.write && performed then k.cpu.(mem := Write(k.cpu.mem, a.addr, a.bytes)) else k.cpu)
  }

  function RunAccesses(c: Config, k: Core, accesses: seq<Access>, faulting: bool): Core
    decreases |accesses|
  {
    if |accesses| == 0 then k
    else RunAccesses(c, Access1(c, k, accesses[0], !(faulting && |accesses| == 1)), accesses[1..], faulting)
  }

  function TrackAccesses(t: Tracker, accesses: seq<Access>): Tracker
    requires t.inst.Some?
    decreases |accesses|
  {
    if |accesses| == 0 then t
    else
      var a := accesses[0];
      TrackAccesses(TaintAddress(TrackAccess(t, a.addr, a.size, a.write)), accesses[1..])
  }

  function Addresses(accesses: seq<Access>, level: nat): (es: seq<Entry>)
    ensures |es| == |accesses|
    ensures forall i :: 0 <= i < |es| ==> es[i] == Entry(Address(accesses[i].addr), level)
  {
    seq(|accesses|, i requires 0 <= i < |accesses| => Entry(Address(accesses[i].addr), level))
  }

  // ---------------------------------------------------------------------------------------------
  // The state machine

  function Observed(c: Config, m: State, k: Core, accesses: seq<Access>): State
    requires c.tracking ==> m.tracker.inst.Some?
  {
    m.(core := k, tracker := if c.tracking then TrackAccesses(m.tracker, accesses) else m.tracker,
       trace := m.trace + Addresses(accesses, k.Level()))
  }

  /** A fault restores the context from before the instruction and shows the stack write of the
      exception; it then rolls back, or enters the fault handler the first time. */
  function ShowFault(c: Config, p: Program, m: State): State {
    m.(tracker := if c.tracking then TaintAddress(m.tracker) else m.tracker,
       trace := m.trace + [Entry(Address(p.stackTop), m.core.Level())])
  }

  function EnterHandler(p: Program, m: State, fault: nat): State {
    if m.hadFault || fault !in p.handledFaults then m.(hadFault := true, status := Error)
    else if p.faultHandler == p.exit then m.(hadFault := true, status := Halted)
    else m.(hadFault := true, core := m.core.(pc := p.faultHandler), reentry := true)
  }

  lemma RunAccessesKeeps(c: Config, k: Core, accesses: seq<Access>, faulting: bool)
    ensures var r := RunAccesses(c, k, accesses, faulting);
            && r.spec.checkpoints == k.spec.checkpoints && |r.spec.logs| == |k.spec.logs|
            && r.spec.inSpeculation == k.spec.inSpeculation && r.spec.window == k.spec.window
            && r.cpu.regs == k.cpu.regs && r.cpu.flags == k.cpu.flags && r.pc == k.pc
    decreases |accesses|
  {}

  /** Only store bypassing remembers stores. */
  lemma NoPendingStore(c: Config, k: Core, accesses: seq<Access>, faulting: bool)
    requires c.clause != Bpas && k.spec.previousStore.None?
    ensures RunAccesses(c, k, accesses, faulting).spec.previousStore.None?
    ensures RunAccesses(c, k, accesses, faulting).spec.failed == k.spec.failed
    decreases |accesses|
  {}

  lemma TrackAccessesKeeps(t: Tracker, accesses: seq<Access>)
    requires t.inst.Some?
    ensures var r := TrackAccesses(t, accesses);
            && r.checkpoints == t.checkpoints && r.inst.Some? && r.inst.value.inst == t.inst.value.inst
            && r.deps == t.deps && r.tainted == t.tainted
    decreases |accesses|
  {}

  function Accessed(c: Config, p: Program, m: State): (r: State)
    requires StacksAgree(c, m) && (c.tracking ==> m.tracker.inst.Some?)
    ensures StacksAgree(c, r) && r.core.pc == m.core.pc && r.status == m.status
  {
    var o := p.exec(m.core.pc, m.core.cpu);
    RunAccessesKeeps(c, m.core, o.accesses, o.fault != 0);
    assert c.clause != Bpas ==> RunAccesses(c, m.core, o.accesses, o.fault != 0).spec.previousStore.None? by {
      if c.clause != Bpas { NoPendingStore(c, m.core, o.accesses, o.fault != 0); }
    }
    assert c.tracking ==> |TrackAccesses(m.tracker, o.accesses).checkpoints| == |m.tracker.checkpoints| by {
      if c.tracking { TrackAccessesKeeps(m.tracker, o.accesses); }
    }
    Observed(c, m, RunAccesses(c, m.core, o.accesses, o.fault != 0), o.accesses)
  }

  function Execute(c: Config, p: Program, m: State): (r: State)
    requires StacksAgree(c, m) && (c.tracking ==> m.tracker.inst.Some?)
    ensures StacksAgree(c, r)
  {
    ExecuteEnd(c, p, Accessed(c, p, m), p.exec(m.core.pc, m.core.cpu))
  }

  function ExecuteEnd(c: Config, p: Program, m: State, o: Outcome): (r: State)
    requires StacksAgree(c, m)
    ensures StacksAgree(c, r)
  {
    if m.core.spec.failed then m.(status := Error)
    else if o.fault == 0 then
      m.(core := m.core.(cpu := m.core.cpu.(regs := o.regs, flags := o.flags), pc := o.next), reentry := false)
    else if m.core.spec.inSpeculation then RollBack(c, ShowFault(c, p, m))
    else EnterHandler(p, ShowFault(c, p, m), o.fault)
  }

  /** The misprediction hook: the checkpoint of the taint tracker includes the branch. */
  function TakeWrongPath(c: Config, p: Program, m: State): (r: State)
    requires StacksAgree(c, m) && m.status == Running
    requires ValidEncoding(p.code(m.core.pc).code) && Mispredicts(c, p, m.core)
    ensures StacksAgree(c, r) && r.core.Level() == m.core.Level() + 1
  {
    m.(core := Mispredict(p, m.core), reentry := false,
       tracker := if c.tracking then TakeCheckpoint(m.tracker, true) else m.tracker)
  }

  /** The bypass hook: the checkpoint of the taint tracker leaves the current instruction out. */
  function TakeBypass(c: Config, m: State): (r: State)
    requires StacksAgree(c, m) && m.status == Running
    ensures StacksAgree(c, r) && r.core.Level() >= m.core.Level() && r.tracker.inst == m.tracker.inst
  {
    if Bypasses(c, m.core) then
      m.(core := BypassStore(m.core), tracker := if c.tracking then TakeCheckpoint(m.tracker, false) else m.tracker)
    else m.(core := ForgetStore(c, m.core))
  }

  /** Everything before the speculator's decision. */
  function Arrive(c: Config, p: Program, m: State): (r: State)
    requires StacksAgree(c, m)
    ensures StacksAgree(c, r) && r.status == m.status && r.core.Level() == m.core.Level()
    ensures c.tracking ==> r.tracker.inst.Some?
  {
    ObserveInstruction(c, p, m).(core := CountWindow(m.core))
  }

  /** The speculator's decision: take a wrong path, bypass a store, stop, or let the emulator execute. */
  function Decide(c: Config, p: Program, seen: State): (r: State)
    requires StacksAgree(c, seen) && ValidEncoding(p.code(seen.core.pc).code)
    requires seen.status == Running && (c.tracking ==> seen.tracker.inst.Some?)
    ensures StacksAgree(c, r)
  {
    var mispredicted := Mispredicts(c, p, seen.core);
    var ready := if mispredicted then TakeWrongPath(c, p, seen) else TakeBypass(c, seen);
    if MustStop(c, p, seen.core) then RollBack(c, ready)
    else if mispredicted then ready
    else Execute(c, p, ready)
  }

  /** One visit to the instruction at the program counter. */
  function Visit(c: Config, p: Program, m: State): (r: State)
    requires StacksAgree(c, m) && ValidEncoding(p.code(m.core.pc).code)
    requires m.status == Running
    ensures StacksAgree(c, r)
  {
    Decide(c, p, Arrive(c, p, m))
  }

  function Step(c: Config, p: Program, m: State): (r: State)
    requires StacksAgree(c, m) && WellFormed(p)
    ensures StacksAgree(c, r)
  {
    if m.status != Running then m
    else if IsExit(p, m.core.pc) then
      if m.core.spec.inSpeculation then RollBack(c, m) else m.(status := Halted)
    else if m.reentry && m.core.pc != p.start && m.core.pc == p.faultHandler && m.core.spec.inSpeculation then
      RollBack(c, m)
    else Visit(c, p, m)
  }
}
