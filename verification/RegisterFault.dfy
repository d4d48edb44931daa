/** Why taint soundness asks that an instruction without memory accesses faults in every state or in none:
a division on a mispredicted path shows its fault on the trace, but its operand is never tainted. */
module RegisterFault {
  import opened Common
  import opened Bytes
  import opened BranchDecoder
  import opened Instructions
  import opened Taint
  import opened ContractModel
  import opened UndoLogs
  import opened Runs
  import opened Coverage
  import opened Noninterference

  /** jz over a division that faults when A is zero. */
  const JZ := Instr("jz", [0x74, 0x01], true, {RIP}, {RIP}, {}, map[ZF := Reads], 0)
  const DIV := Instr("div", [0xF7], false, {A}, {}, {}, map[], 64)
  const NOP := Instr("nop", [0x90], false, {}, {}, {}, map[], 0)

  const EXIT := 4
  const DIVIDE_ERROR: nat := 21

  function CodeAt(pc: int): Instr {
    if pc == 0 then JZ else if pc == 2 then DIV else NOP
  }

  function Exec(pc: int, cpu: Cpu): Outcome {
    if pc == 0 then BranchOutcome(0, JZ, cpu, ManualBranch(JZ.code, cpu.flags, RegValue(cpu.regs, C)))
    else
      var fault := if pc == 2 && RegValue(cpu.regs, A) == 0 then DIVIDE_ERROR else 0;
      Outcome([], fault, cpu.regs, cpu.flags, pc + 1)
  }

  const PROGRAM := Program(0, EXIT, EXIT, 0, {}, CodeAt, Exec)
  const CONFIG := Config(Cond, 1, 10, true)

  /** The branch is taken, so the division is only executed on the wrong path. */
  function Start(a: Word): Cpu {
    Cpu(map[A := a], FLAGS_ZF, [])
  }

  /** Declared operands cover the effects of an instruction, and its sources determine whether it faults. */
  ghost predicate SourcesDecideAt(p: Program, pc: int, a: Cpu, b: Cpu) {
    var i, o, q := p.code(pc), p.exec(pc, a), p.exec(pc, b);
    && (SameAddressRegs(i, a, b) ==> SameFootprint(o.accesses, q.accesses))
    && (SameSources(i, o.accesses, a, b) ==> o.fault == q.fault)
    && (o.fault == 0 ==> DeclaredEffects(i, pc, a, o))
    && (o.fault == 0 == q.fault && SameSources(i, o.accesses, a, b) ==> DeterminedEffects(i, a, b, o, q))
  }

  lemma JzOutcome(cpu: Cpu)
    ensures Exec(0, cpu) == Outcome([], 0, cpu.regs, cpu.flags, if FlagBit(cpu.flags, ZF) then 3 else 2)
  {
    assert ConditionCode(4, BitsOf(cpu.flags)) == BitsOf(cpu.flags).zf;
    hide BitsOf;
  }

  lemma ProgramFits()
    ensures Loggable(CONFIG, PROGRAM) && ManualBranches(PROGRAM)
  {
    forall pc, cpu: Cpu ensures Exec(pc, cpu).accesses == [] {
      if pc == 0 { JzOutcome(cpu); }
    }
    hide BranchOutcome, ConditionCode;
  }

  /** The branch taints the program counter and the flag it tests. */
  lemma JzTaints()
    ensures var t := TakeCheckpoint(TaintPc(Taint.TrackInstruction(INITIAL_TRACKER, JZ)), true);
            t.inst.None? && t.tainted <= {RegLabel(RIP), FlagLabel(ZF)} && |t.checkpoints| == 1
  {
    var t := TaintPc(Taint.TrackInstruction(INITIAL_TRACKER, JZ));
    var u := Tracked(JZ, {}, {});
    assert t.deps == NO_DEPENDENCIES && t.pending == {RegLabel(RIP)} && t.inst == Some(u) && t.tainted == {} by {
      assert JZ.OverwrittenFlags() == {};
    }
    assert PendingTaint({RegLabel(RIP)}, u) == {RegLabel(RIP)};
    assert JZ.SrcFlags() == {ZF};
    assert SrcDependencies(NO_DEPENDENCIES, u) <= {RegLabel(RIP), FlagLabel(ZF)};
    assert AddDependencies(NO_DEPENDENCIES, u).Reg(RIP) <= {RegLabel(RIP), FlagLabel(ZF)};
  }

  /** The state after the misprediction. */
  ghost predicate OnWrongPath(m: State, a: Word) {
    && m.core.pc == 2 && m.core.Level() == 1 && m.core.cpu == Start(a) && m.core.spec.window == 0
    && m.core.spec.previousStore.None? && !m.core.spec.failed && m.core.spec.inSpeculation
    && m.status == Running && !m.hadFault && !m.reentry && m.trace == [Entry(Pc(0), 0)]
    && m.tracker.inst.None? && m.tracker.tainted <= {RegLabel(RIP), FlagLabel(ZF)} && |m.tracker.checkpoints| == 1
  }

  lemma JzDecoded(a: Word)
    ensures ValidEncoding(JZ.code) && Decode(JZ.code, FLAGS_ZF, 0) == Decoded(1, true, false)
    ensures RegValue(Start(a).regs, C) == 0
  {
    assert FLAGS_ZF & FLAGS_ZF != 0;
  }

  lemma FirstStep(a: Word)
    requires WellFormed(PROGRAM)
    ensures OnWrongPath(Step(CONFIG, PROGRAM, Initial(PROGRAM, Start(a))), a)
  {
    JzTaints();
    JzDecoded(a);
    hide TakeCheckpoint, TaintPc, Taint.TrackInstruction, Decode, WellFormed, ValidEncoding, Exec;
    var m := Initial(PROGRAM, Start(a));
    var seen := Arrive(CONFIG, PROGRAM, m);
    assert Decoding(PROGRAM, seen.core) == Decoded(1, true, false);
    assert Mispredicts(CONFIG, PROGRAM, seen.core) && !MustStop(CONFIG, PROGRAM, seen.core);
    hide MustStop, Execute;
  }

  /** The division taints nothing, whether it faults or not. */
  lemma DivTaints(t: Tracker)
    requires t.inst.None? && |t.checkpoints| == 1
    ensures var u := TaintPc(Taint.TrackInstruction(t, DIV));
            && u.inst.Some? && u.tainted == t.tainted && u.checkpoints == t.checkpoints
            && TaintedLabels(Taint.Rollback(TaintAddress(u))) == t.tainted
  {
    var u := TaintPc(Taint.TrackInstruction(t, DIV));
    assert u.pending == {} && TaintAddress(u).pending == {} && u.inst == Some(Tracked(DIV, {}, {}));
    assert TaintedBy(u.deps, {}, u.inst.value) == {};
    hide AddDependencies, RemoveOverwritten, SrcDependencies;
  }

  /** Without accesses, execution is decided by the fault alone. */
  lemma ExecutedWithoutAccesses(m: State)
    requires StacksAgree(CONFIG, m) && m.tracker.inst.Some? && Exec(m.core.pc, m.core.cpu).accesses == []
    ensures Execute(CONFIG, PROGRAM, m) == ExecuteEnd(CONFIG, PROGRAM, m, Exec(m.core.pc, m.core.cpu))
  {
    hide ExecuteEnd, Exec;
    assert m.trace + Addresses([], m.core.Level()) == m.trace;
  }

  lemma DivArrives(m: State, a: Word)
    requires WellFormed(PROGRAM) && StacksAgree(CONFIG, m) && OnWrongPath(m, a)
    ensures var seen := Arrive(CONFIG, PROGRAM, m);
            && seen.core == m.core.(spec := m.core.spec.(window := 1)) && seen.hadFault == m.hadFault
            && seen.tracker == TaintPc(Taint.TrackInstruction(m.tracker, DIV)) && seen.status == Running
            && seen.trace == m.trace + [Entry(Pc(2), 1)]
            && Decide(CONFIG, PROGRAM, seen) == Execute(CONFIG, PROGRAM, seen)
  {
    hide TaintPc, Taint.TrackInstruction, Execute, Exec, WellFormed, Decoding;
  }

  /** The division faults and is shown, or it does not. */
  lemma SecondStep(m: State, a: Word)
    requires WellFormed(PROGRAM) && StacksAgree(CONFIG, m) && OnWrongPath(m, a)
    ensures var r := Step(CONFIG, PROGRAM, m);
            && r.trace == m.trace + [Entry(Pc(2), 1)] + (if a == 0 then [Entry(Address(0), 1)] else [])
            && !r.hadFault && (a == 0 ==> TaintedLabels(r.tracker) == m.tracker.tainted)
  {
    DivArrives(m, a);
    DivTaints(m.tracker);
    assert Exec(2, Start(a)) == Outcome([], if a == 0 then DIVIDE_ERROR else 0, Start(a).regs, Start(a).flags, 3);
    hide TaintPc, Taint.TrackInstruction, TaintAddress, Taint.Rollback, TaintedLabels;
    hide Arrive, Decide, WellFormed, Exec, Execute;
    var seen := Arrive(CONFIG, PROGRAM, m);
    ExecutedWithoutAccesses(seen);
    assert Step(CONFIG, PROGRAM, m) == ExecuteEnd(CONFIG, PROGRAM, seen, Exec(2, Start(a)));
    hide Step, Pop;
  }

  lemma JzSourcesDecide(a: Cpu, b: Cpu)
    ensures SourcesDecideAt(PROGRAM, 0, a, b)
  {
    JzOutcome(a);
    JzOutcome(b);
    assert ZF in JZ.SrcFlags() && JZ.DestFlags() == {};
    hide Exec, FlagBit;
  }

  lemma OthersSourcesDecide(pc: int, a: Cpu, b: Cpu)
    requires pc != 0
    ensures SourcesDecideAt(PROGRAM, pc, a, b)
  {
    assert DIV.DestFlags() == {} && NOP.DestFlags() == {} && A in DIV.srcRegs;
    hide FlagBit;
  }

  /** Two runs in lockstep that execute an instruction without memory accesses on a mispredicted path stay
      alike on the trace if and only if the instruction faults in both or in neither. */
  lemma FaultsMustAgree(t: set<Label>, c: Config, p: Program, m: State, n: State)
    requires Seen(t, c, p, m, n) && m.core.Level() > 0 && (c.tracking ==> m.tracker.inst.Some?)
    requires p.exec(m.core.pc, m.core.cpu).accesses == [] == p.exec(n.core.pc, n.core.cpu).accesses
    ensures n.core.Level() > 0 && (c.tracking ==> n.tracker.inst.Some?)
    ensures Execute(c, p, m).trace == Execute(c, p, n).trace
            <==> (p.exec(m.core.pc, m.core.cpu).fault == 0 <==> p.exec(n.core.pc, n.core.cpu).fault == 0)
  {
    SilentExecution(c, p, m);
    SilentExecution(c, p, n);
    hide Execute;
  }

  lemma SilentExecution(c: Config, p: Program, m: State)
    requires StacksAgree(c, m) && m.core.Level() > 0 && (c.tracking ==> m.tracker.inst.Some?) && !m.core.spec.failed
    requires p.exec(m.core.pc, m.core.cpu).accesses == []
    ensures Execute(c, p, m).trace ==
              m.trace + if p.exec(m.core.pc, m.core.cpu).fault == 0 then []
                        else [Entry(Address(p.stackTop), m.core.Level())]
  {
    assert m.trace + Addresses([], m.core.Level()) == m.trace;
    assert m.trace + [] == m.trace;
    hide Pop, Taint.Rollback, TaintAddress, Addresses;
  }

  /** Sources decide every effect and every fault, two inputs agree on all that the run of the first one
      tainted, and yet their traces differ. */
  lemma RegisterFaultsLeak()
    ensures Loggable(CONFIG, PROGRAM) && ManualBranches(PROGRAM)
    ensures forall pc, a: Cpu, b: Cpu :: SourcesDecideAt(PROGRAM, pc, a, b)
    ensures var m := Run(CONFIG, PROGRAM, Initial(PROGRAM, Start(0)), 2);
            var k := Run(CONFIG, PROGRAM, Initial(PROGRAM, Start(1)), 2);
            && !m.hadFault && InputsAgree(TaintedLabels(m.tracker), Start(0), Start(1))
            && m.trace != k.trace
  {
    hide SourcesDecideAt, Step, TaintedLabels, Exec, Run, FlagBit;
    hide NarrowStores, SingleStores, ManualBranches, WellFormed;
    ProgramFits();
    forall pc, a: Cpu, b: Cpu ensures SourcesDecideAt(PROGRAM, pc, a, b) {
      if pc == 0 { JzSourcesDecide(a, b); } else { OthersSourcesDecide(pc, a, b); }
    }
    TwoSteps(0);
    TwoSteps(1);
  }

  lemma TwoSteps(a: Word)
    requires WellFormed(PROGRAM)
    ensures var m := Run(CONFIG, PROGRAM, Initial(PROGRAM, Start(a)), 2);
            && m.trace == [Entry(Pc(0), 0), Entry(Pc(2), 1)] + (if a == 0 then [Entry(Address(0), 1)] else [])
            && !m.hadFault && (a == 0 ==> TaintedLabels(m.tracker) <= {RegLabel(RIP), FlagLabel(ZF)})
  {
    hide Step, WellFormed, TaintedLabels;
    var m := Initial(PROGRAM, Start(a));
    FirstStep(a);
    SecondStep(Step(CONFIG, PROGRAM, m), a);
    assert Run(CONFIG, PROGRAM, m, 0) == m;
    assert Run(CONFIG, PROGRAM, m, 1) == Step(CONFIG, PROGRAM, m);
    assert Run(CONFIG, PROGRAM, m, 2) == Step(CONFIG, PROGRAM, Step(CONFIG, PROGRAM, m));
  }
}
