/** Instructions as the contract model sees them: declared operands, bytes, and the effect that the
emulator gives them.  The emulator itself is an arbitrary deterministic function. */
module Instructions {
  import opened Bytes
  import opened Memory
  import opened BranchDecoder

  /** Normalised register names. */
  datatype Reg = A | B | C | D | SI | DI | SP | BP | Extended(n: nat) | RIP | System(name: string)

  datatype Flag = CF | PF | AF | ZF | SF | TF | IF | DF | OF

  function Mask(f: Flag): Flags {
    match f
    case CF => FLAGS_CF
    case PF => FLAGS_PF
    case AF => 0x010
    case ZF => FLAGS_ZF
    case SF => FLAGS_SF
    case TF => 0x100
    case IF => 0x200
    case DF => 0x400
    case OF => FLAGS_OF
  }

  predicate FlagBit(flags: Flags, f: Flag) {
    flags & Mask(f) != 0
  }

  /** How an instruction uses a flag: the tags `r`, `w`, `r/w`, `r/cw`, `cw` and `undef`. */
  datatype FlagUse = Reads | Writes | ReadsWrites | ReadsMayWrite | MayWrite | Undefined

  datatype Instr = Instr(
    name: string,
    code: seq<int>,
    controlFlow: bool,
    srcRegs: set<Reg>,
    destRegs: set<Reg>,
    addressRegs: set<Reg>,
    flagUse: map<Flag, FlagUse>,
    firstRegWidth: nat)
  {
    function Size(): nat {
      |code|
    }

    /** Flags tagged as undefined count as sources. */
    function SrcFlags(): set<Flag> {
      set f | f in flagUse && flagUse[f] in {Reads, ReadsWrites, ReadsMayWrite, Undefined}
    }

    function DestFlags(): set<Flag> {
      set f | f in flagUse && flagUse[f] in {Writes, ReadsWrites, ReadsMayWrite}
    }

    function OverwrittenFlags(): set<Flag> {
      set f | f in flagUse && flagUse[f] == Writes
    }

    /** A full-width MOV or LEA replaces its only destination register. */
    predicate Overrides() {
      ("mov" <= name || name == "lea") && |destRegs| == 1 && firstRegWidth == 64
    }

    predicate IsRep() {
      exists i :: 0 <= i <= |name| && "rep" <= name[i..]
    }

    predicate IsBarrier() {
      name in {"mfence", "lfence"}
    }
  }

  type Registers = map<Reg, Word>

  function RegValue(regs: Registers, r: Reg): Word {
    if r in regs then regs[r] else 0
  }

  datatype Cpu = Cpu(regs: Registers, flags: Flags, mem: Mem)

  /** A memory access that reaches the memory hook; only a store carries bytes. */
  datatype Access = Access(write: bool, addr: int, size: nat, bytes: seq<Byte>)

  /** What the emulator does with one instruction: its accesses in order, a fault number or zero,
      and the registers, flags and program counter afterwards.  A faulting instruction performs all
      its accesses but the last. */
  datatype Outcome = Outcome(accesses: seq<Access>, fault: nat, regs: Registers, flags: Flags, next: int)

  /** A loaded test case.  Every address from `exit` on is an exit address. */
  datatype Program = Program(
    start: int,
    exit: int,
    faultHandler: int,
    stackTop: int,
    handledFaults: set<nat>,
    code: int -> Instr,
    exec: (int, Cpu) -> Outcome)

  predicate WellFormedAccess(a: Access) {
    1 <= a.size && |a.bytes| == (if a.write then a.size else 0)
  }

  ghost predicate WellFormed(p: Program) {
    && (forall pc :: ValidEncoding(p.code(pc).code))
    && (forall pc, cpu, k :: 0 <= k < |p.exec(pc, cpu).accesses| ==> WellFormedAccess(p.exec(pc, cpu).accesses[k]))
  }

  /** Stores of at most eight bytes. */
  ghost predicate NarrowStores(p: Program) {
    forall pc, cpu, k :: 0 <= k < |p.exec(pc, cpu).accesses| ==>
      |p.exec(pc, cpu).accesses[k].bytes| <= LOG_ENTRY_SIZE
  }

  /** At most one store per instruction. */
  ghost predicate SingleStores(p: Program) {
    forall pc, cpu, j, k :: 0 <= j < k < |p.exec(pc, cpu).accesses| ==>
      !(p.exec(pc, cpu).accesses[j].write && p.exec(pc, cpu).accesses[k].write)
  }

  /** The emulator executes conditional branches as the manual says. */
  ghost predicate ManualBranches(p: Program)
    requires WellFormed(p)
  {
    forall pc, cpu: Cpu ::
      var i := p.code(pc);
      var b := ManualBranch(i.code, cpu.flags, RegValue(cpu.regs, C));
      b.Branch? ==> p.exec(pc, cpu) == BranchOutcome(pc, i, cpu, b)
  }

  function BranchOutcome(pc: int, i: Instr, cpu: Cpu, b: Branch): Outcome
    requires b.Branch?
  {
    Outcome([], 0, if b.rcx == RegValue(cpu.regs, C) then cpu.regs else cpu.regs[C := b.rcx], cpu.flags,
            pc + i.Size() + if b.taken then b.displacement else 0)
  }

  /** No conditional branch with a negative one-byte displacement. */
  ghost predicate FaithfulDisplacements(p: Program)
    requires WellFormed(p)
  {
    forall pc :: FaithfulDisplacement(p.code(pc).code)
  }
}
