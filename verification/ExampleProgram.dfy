/** A program that meets all hypotheses of the theorems about the contract model: a conditional branch
over a load, and a store. */
module ExampleProgram {
  import opened Bytes
  import opened Memory
  import opened BranchDecoder
  import opened Instructions
  import opened ContractModel
  import opened Transparency
  import opened Termination
  import opened Coverage
  import opened Noninterference
  import opened ControlFlow
  import opened GeneratedPrograms

  /** jz over the load; a load through B into A; a store of A through C; no-operations. */
  const JZ := Instr("jz", [0x74, 0x03], true, {RIP}, {RIP}, {}, map[ZF := Reads], 0)
  const LOAD := Instr("mov", [0x48, 0x8B, 0x03], false, {B}, {A}, {B}, map[], 64)
  const STORE := Instr("mov", [0x48, 0x89, 0x01], false, {A, C}, {}, {C}, map[], 64)
  const NOP := Instr("nop", [0x90], false, {}, {}, {}, map[], 0)

  function CodeAt(pc: int): Instr {
    if pc == 0 then JZ else if pc == 2 then LOAD else if pc == 5 then STORE else NOP
  }

  function WordOfBytes(bs: seq<Byte>): Word {
    if |bs| == 0 then 0 else ((bs[0] as int) + 256 * WordOfBytes(bs[1..])) % WORD_LIMIT
  }

  function BytesOfWord(w: Word, n: nat): (bs: seq<Byte>)
    ensures |bs| == n
  {
    if n == 0 then [] else [(w % 256) as Byte] + BytesOfWord(w / 256, n - 1)
  }

  function Load(cpu: Cpu): Outcome {
    var a := RegValue(cpu.regs, B);
    Outcome([Access(false, a, 8, [])], 0, cpu.regs[A := WordOfBytes(Read(cpu.mem, a, 8))], cpu.flags, 5)
  }

  function Store(cpu: Cpu): Outcome {
    Outcome([Access(true, RegValue(cpu.regs, C), 8, BytesOfWord(RegValue(cpu.regs, A), 8))], 0, cpu.regs, cpu.flags, 8)
  }

  function Exec(pc: int, cpu: Cpu): Outcome {
    if pc == 0 then BranchOutcome(0, JZ, cpu, ManualBranch(JZ.code, cpu.flags, RegValue(cpu.regs, C)))
    else if pc == 2 then Load(cpu)
    else if pc == 5 then Store(cpu)
    else Outcome([], 0, cpu.regs, cpu.flags, pc + 1)
  }

  const EXAMPLE := Program(0, 8, 8, 0, {}, CodeAt, Exec)

  /** jz is taken exactly when ZF is set. */
  lemma JzOutcome(cpu: Cpu)
    ensures Exec(0, cpu) == Outcome([], 0, cpu.regs, cpu.flags, if FlagBit(cpu.flags, ZF) then 5 else 2)
  {
    assert ConditionCode(4, BitsOf(cpu.flags)) == BitsOf(cpu.flags).zf;
    hide BitsOf;
  }

  lemma SameBytesRead(a: Cpu, b: Cpu)
    requires |a.mem| == |b.mem| && RegValue(a.regs, B) == RegValue(b.regs, B)
    requires forall x :: 0 <= x < |a.mem| && ReadsByte(Load(a).accesses, x) ==> ByteAt(a.mem, x) == ByteAt(b.mem, x)
    ensures Load(a).regs[A] == Load(b).regs[A]
  {
    var from: int := RegValue(a.regs, B);
    forall x: int | from <= x < from + 8 ensures ByteAt(a.mem, x) == ByteAt(b.mem, x) {
      assert Touches(Load(a).accesses[0], x);
    }
    assert Read(a.mem, from, 8) == Read(b.mem, from, 8);
  }

  lemma JzCovered(a: Cpu, b: Cpu)
    requires |a.mem| == |b.mem|
    ensures CoveredAt(EXAMPLE, 0, a, b)
  {
    JzOutcome(a);
    JzOutcome(b);
    assert ZF in JZ.SrcFlags() && JZ.DestFlags() == {};
    hide Exec, FlagBit;
  }

  lemma LoadCovered(a: Cpu, b: Cpu)
    requires |a.mem| == |b.mem|
    ensures CoveredAt(EXAMPLE, 2, a, b)
  {
    assert LOAD.DestFlags() == {} && B in LOAD.srcRegs;
    if RegValue(a.regs, B) == RegValue(b.regs, B) && SameSources(LOAD, Load(a).accesses, a, b) {
      SameBytesRead(a, b);
    }
    hide WordOfBytes, Read, FlagBit;
  }

  lemma StoreCovered(a: Cpu, b: Cpu)
    ensures CoveredAt(EXAMPLE, 5, a, b)
  {
    assert STORE.DestFlags() == {} && A in STORE.srcRegs;
    hide BytesOfWord, FlagBit;
  }

  lemma ExampleCovered()
    ensures Covered(EXAMPLE)
  {
    forall pc, a: Cpu, b: Cpu | |a.mem| == |b.mem| ensures CoveredAt(EXAMPLE, pc, a, b) {
      if pc == 0 { JzCovered(a, b); }
      else if pc == 2 { LoadCovered(a, b); }
      else if pc == 5 { StoreCovered(a, b); }
      else { NopCovered(pc, a, b); }
    }
  }

  lemma NopCovered(pc: int, a: Cpu, b: Cpu)
    requires pc != 0 && pc != 2 && pc != 5
    ensures CoveredAt(EXAMPLE, pc, a, b)
  {
    assert NOP.DestFlags() == {};
    hide FlagBit;
  }

  lemma ExampleAccesses(pc: int, cpu: Cpu)
    ensures var accesses := Exec(pc, cpu).accesses;
            |accesses| <= 1 && (|accesses| == 1 ==>
                                accesses[0].size == 8 && |accesses[0].bytes| == if accesses[0].write then 8 else 0)
  {
    JzOutcome(cpu);
    hide ManualBranch, BranchOutcome;
  }

  lemma ExampleEncodings(pc: int)
    ensures ValidEncoding(CodeAt(pc).code) && FaithfulDisplacement(CodeAt(pc).code)
  {}

  lemma ExampleWellFormed()
    ensures WellFormed(EXAMPLE) && NarrowStores(EXAMPLE) && SingleStores(EXAMPLE) && FaithfulDisplacements(EXAMPLE)
  {
    hide Exec, CodeAt, ValidEncoding, FaithfulDisplacement;
    forall pc { ExampleEncodings(pc); }
    forall pc, cpu: Cpu { ExampleAccesses(pc, cpu); }
  }

  lemma ExampleForward()
    requires WellFormed(EXAMPLE)
    ensures ForwardOnly(EXAMPLE)
  {
    forall cpu: Cpu { JzOutcome(cpu); }
    hide ManualBranch, BranchOutcome;
  }

  lemma ExampleBranches()
    requires WellFormed(EXAMPLE)
    ensures ManualBranches(EXAMPLE)
  {
    hide BranchOutcome, ConditionCode;
  }

  /** The hypotheses hold together, for every clause, nesting bound, window and initial state. */
  lemma HypothesesMet(c: Config, cpu: Cpu, n: nat)
    requires c.tracking
    ensures Sound(c, EXAMPLE) && ForwardOnly(EXAMPLE) && Erasable(c, EXAMPLE, cpu, n)
  {
    hide WellFormed, NarrowStores, SingleStores, FaithfulDisplacements, ManualBranches, Covered, ForwardOnly;
    ExampleWellFormed();
    ExampleCovered();
    ExampleForward();
    ExampleBranches();
    forall a: ArchState ensures !FaultsAt(EXAMPLE, a) { NeverFaults(a); }
    hide FaultsAt;
  }

  lemma NeverFaults(a: ArchState)
    ensures !FaultsAt(EXAMPLE, a)
  {
    JzOutcome(a.cpu);
  }

  // ---------------------------------------------------------------------------------------------
  // The program as one that is laid out from a generated function of three blocks

  const SUCCESSORS: seq<seq<nat>> := [[1, 2], [2], [3]]
  const START: seq<int> := [0, 2, 5, 8]

  lemma JumpLeadsTo()
    ensures LeadsTo(3, SUCCESSORS, START, 0, 5)
  {
    var t := Jump(Block(2));
    assert Branches(3, SUCCESSORS[0])[1] == t && START[t.target.i] == 5;
  }

  lemma ExampleDecode(pc: int, f: Flags, rcx: Word)
    ensures Decode(CodeAt(pc).code, f, rcx).target == if pc == 0 then 3 else 0
  {}

  lemma ExampleInBlock(i: nat, pc: int)
    requires WellFormed(EXAMPLE) && i < 3 && START[i] <= pc < START[i + 1]
    ensures InBlock(EXAMPLE, 3, SUCCESSORS, START, i, pc)
  {
    JumpLeadsTo();
    forall cpu: Cpu { JzOutcome(cpu); }
    forall f, rcx { ExampleDecode(pc, f, rcx); }
    hide LeadsTo, Decode, ManualBranch, BranchOutcome, FlagBit;
  }

  /** The hypotheses about generated programs hold together. */
  lemma ExampleIsGenerated()
    ensures WellFormed(EXAMPLE) && Dag(3, SUCCESSORS, 1, 2) && LaidOutFrom(EXAMPLE, 3, SUCCESSORS, START)
  {
    ExampleWellFormed();
    hide InBlock, Decode, WellFormed;
    forall pc | 0 <= pc < 8 ensures InSomeBlock(EXAMPLE, 3, SUCCESSORS, START, pc) {
      var i := if pc < 2 then 0 else if pc < 5 then 1 else 2;
      ExampleInBlock(i, pc);
    }
    forall pc, f, rcx { ExampleDecode(pc, f, rcx); }
    forall pc | pc < 0 ensures Straight(EXAMPLE, pc) {}
  }
}
