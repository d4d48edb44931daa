/** Speculation is architecturally invisible: whatever the clause, nesting bound and window, the
registers, flags and memory that survive the rollbacks are those of the sequential run. */
module Transparency {
  import opened Memory
  import opened BranchDecoder
  import opened Instructions
  import opened ContractModel
  import opened UndoLogs
  import opened Runs

  /** The architectural state: the current one outside speculation, otherwise the state that the
      bottom checkpoint holds. */
  function ArchCpu(k: Core): Cpu {
    if k.Level() == 0 then k.cpu
    else Cpu(k.spec.checkpoints[0].regs, k.spec.checkpoints[0].flags, k.spec.checkpoints[0].snapshot)
  }

  function ArchPc(k: Core): int {
    if k.Level() == 0 then k.pc else k.spec.checkpoints[0].next
  }

  /** The observations made at nesting 0. */
  function ArchTrace(trace: seq<Entry>): seq<Observation> {
    if |trace| == 0 then []
    else
      var last := trace[|trace| - 1];
      ArchTrace(trace[..|trace| - 1]) + if last.level == 0 then [last.obs] else []
  }

  lemma {:induction false} ArchTraceAppend(t: seq<Entry>, u: seq<Entry>)
    ensures ArchTrace(t + u) == ArchTrace(t) + ArchTrace(u)
    decreases |u|
  {
    if |u| == 0 {
      assert t + u == t;
    } else {
      ArchTraceAppend(t, u[..|u| - 1]);
      assert (t + u)[..|t + u| - 1] == t + u[..|u| - 1];
    }
  }

  lemma {:induction false} SpeculativeEntries(t: seq<Entry>, u: seq<Entry>)
    requires forall i :: 0 <= i < |u| ==> u[i].level > 0
    ensures ArchTrace(t + u) == ArchTrace(t)
    decreases |u|
  {
    if |u| == 0 {
      assert t + u == t;
    } else {
      SpeculativeEntries(t, u[..|u| - 1]);
      assert (t + u)[..|t + u| - 1] == t + u[..|u| - 1];
    }
  }

  // ---------------------------------------------------------------------------------------------
  // The sequential semantics

  /** What the test case does to the machine state when nothing speculates. */
  datatype ArchState = ArchState(cpu: Cpu, pc: int, hadFault: bool, status: Status)

  function Stored(mem: Mem, accesses: seq<Access>, faulting: bool): Mem
    decreases |accesses|
  {
    if |accesses| == 0 then mem
    else
      var a := accesses[0];
      var performed := a.write && !(faulting && |accesses| == 1);
      Stored(if performed then Write(mem, a.addr, a.bytes) else mem, accesses[1..], faulting)
  }

  function ArchStep(p: Program, a: ArchState): ArchState {
    if a.status != Running then a
    else if IsExit(p, a.pc) then a.(status := Halted)
    else
      var o := p.exec(a.pc, a.cpu);
      Retired(p, a.(cpu := a.cpu.(mem := Stored(a.cpu.mem, o.accesses, o.fault != 0))), o)
  }

  /** After its stores, an instruction retires, or its fault enters the handler once. */
  function Retired(p: Program, a: ArchState, o: Outcome): ArchState {
    if o.fault == 0 then a.(cpu := Cpu(o.regs, o.flags, a.cpu.mem), pc := o.next)
    else
      var faulted := a.(hadFault := true);
      if a.hadFault || o.fault !in p.handledFaults then faulted.(status := Error)
      else if p.faultHandler == p.exit then faulted.(status := Halted)
      else faulted.(pc := p.faultHandler)
  }

  function ArchRun(p: Program, a: ArchState, n: nat): ArchState {
    if n == 0 then a else ArchStep(p, ArchRun(p, a, n - 1))
  }

  /** What one sequential step shows to an observer of program counters and addresses. */
  function Shown(p: Program, a: ArchState): seq<Observation> {
    if a.status != Running || IsExit(p, a.pc) then [] else [Pc(a.pc)] + ShownByExecution(p, a)
  }

  function ShownByExecution(p: Program, a: ArchState): seq<Observation> {
    var o := p.exec(a.pc, a.cpu);
    ArchTrace(Addresses(o.accesses, 0)) + if o.fault != 0 then [Address(p.stackTop)] else []
  }

  function ShownBy(p: Program, a: ArchState, n: nat): seq<Observation> {
    if n == 0 then [] else ShownBy(p, a, n - 1) + Shown(p, ArchRun(p, a, n - 1))
  }

  function Erase(m: State): ArchState {
    ArchState(ArchCpu(m.core), ArchPc(m.core), m.hadFault, m.status)
  }

  ghost predicate SameArch(m: State, r: State) {
    Erase(m) == Erase(r)
  }

  // ---------------------------------------------------------------------------------------------
  // Steps in speculation

  lemma PopKeepsArch(k: Core)
    requires SnapshotsHold(k) && k.Level() > 0
    ensures ArchCpu(Pop(k)) == ArchCpu(k) && ArchPc(Pop(k)) == ArchPc(k)
  {
    PopRestores(k);
  }

  lemma AccessInSpeculation(c: Config, p: Program, m: State)
    requires Loggable(c, p) && StacksAgree(c, m) && (c.tracking ==> m.tracker.inst.Some?)
    requires Layered(c, m.core) && m.core.spec.previousStore.None? && m.core.Level() > 0
    ensures var done := Accessed(c, p, m);
            && SameArch(m, done) && ArchTrace(done.trace) == ArchTrace(m.trace)
            && SnapshotsHold(done.core) && !done.core.spec.failed && done.core.Level() == m.core.Level()
  {
    var o := p.exec(m.core.pc, m.core.cpu);
    RunAccessesKeeps(c, m.core, o.accesses, o.fault != 0);
    AccessesLayers(c, m.core, o.accesses, o.fault != 0);
    if c.clause == Bpas { NeverFails(c, m.core, o.accesses, o.fault != 0); }
    else { NoPendingStore(c, m.core, o.accesses, o.fault != 0); }
    SpeculativeEntries(m.trace, Addresses(o.accesses, m.core.Level()));
  }

  lemma ExecuteInSpeculation(c: Config, p: Program, m: State)
    requires Loggable(c, p) && StacksAgree(c, m) && (c.tracking ==> m.tracker.inst.Some?)
    requires Layered(c, m.core) && m.core.spec.previousStore.None? && m.core.Level() > 0
    ensures SameArch(m, Execute(c, p, m)) && ArchTrace(Execute(c, p, m).trace) == ArchTrace(m.trace)
  {
    AccessInSpeculation(c, p, m);
    hide Accessed;
    var done := Accessed(c, p, m);
    SpeculativeEntries(done.trace, [Entry(Address(p.stackTop), done.core.Level())]);
    PopKeepsArch(done.core);
  }

  lemma DecisionInSpeculation(c: Config, p: Program, m: State)
    requires Loggable(c, p) && StacksAgree(c, m) && m.status == Running && Layered(c, m.core)
    requires m.core.Level() > 0
    ensures Mispredicts(c, p, m.core) ==>
              SameArch(m, TakeWrongPath(c, p, m)) && SameArch(m, RollBack(c, TakeWrongPath(c, p, m)))
    ensures SameArch(m, TakeBypass(c, m)) && SameArch(m, RollBack(c, TakeBypass(c, m)))
  {
    BypassPathLayers(c, m);
    PopKeepsArch(TakeBypass(c, m).core);
    if Mispredicts(c, p, m.core) {
      WrongPathLayers(c, p, m);
      PopKeepsArch(TakeWrongPath(c, p, m).core);
    }
  }

  lemma VisitInSpeculation(c: Config, p: Program, m: State)
    requires Loggable(c, p) && StacksAgree(c, m) && m.status == Running && Layered(c, m.core)
    requires m.core.Level() > 0
    ensures SameArch(m, Visit(c, p, m)) && ArchTrace(Visit(c, p, m).trace) == ArchTrace(m.trace)
  {
    var seen := Arrive(c, p, m);
    SpeculativeEntries(m.trace, [Entry(Pc(m.core.pc), m.core.Level())]);
    assert Layered(c, seen.core) && SameArch(m, seen);
    DecisionInSpeculation(c, p, seen);
    if !Mispredicts(c, p, seen.core) && !MustStop(c, p, seen.core) {
      BypassPathLayers(c, seen);
      ExecuteInSpeculation(c, p, TakeBypass(c, seen));
    }
    hide Execute, Push, Pop;
  }

  /** A step in speculation touches neither the architectural state nor its observations. */
  lemma StepInSpeculation(c: Config, p: Program, m: State)
    requires Loggable(c, p) && StacksAgree(c, m) && m.status == Running && Layered(c, m.core)
    requires m.core.Level() > 0
    ensures SameArch(m, Step(c, p, m)) && ArchTrace(Step(c, p, m).trace) == ArchTrace(m.trace)
  {
    PopKeepsArch(m.core);
    if !(IsExit(p, m.core.pc) || (m.reentry && m.core.pc != p.start && m.core.pc == p.faultHandler)) {
      VisitInSpeculation(c, p, m);
    }
  }

  // ---------------------------------------------------------------------------------------------
  // Steps outside speculation

  lemma AccessesStore(c: Config, k: Core, accesses: seq<Access>, faulting: bool)
    ensures RunAccesses(c, k, accesses, faulting).cpu.mem == Stored(k.cpu.mem, accesses, faulting)
    decreases |accesses|
  {}

  lemma AccessOutsideSpeculation(c: Config, p: Program, m: State)
    requires Loggable(c, p) && StacksAgree(c, m) && (c.tracking ==> m.tracker.inst.Some?)
    requires m.core.Level() == 0 && !m.core.spec.failed && m.core.spec.previousStore.None?
    ensures var o, done := p.exec(m.core.pc, m.core.cpu), Accessed(c, p, m);
            && done.core.Level() == 0 && !done.core.spec.failed && done.hadFault == m.hadFault
            && done.core.cpu == m.core.cpu.(mem := Stored(m.core.cpu.mem, o.accesses, o.fault != 0))
            && ArchTrace(done.trace) == ArchTrace(m.trace) + ArchTrace(Addresses(o.accesses, 0))
  {
    var o := p.exec(m.core.pc, m.core.cpu);
    RunAccessesKeeps(c, m.core, o.accesses, o.fault != 0);
    AccessesStore(c, m.core, o.accesses, o.fault != 0);
    if c.clause == Bpas { NeverFails(c, m.core, o.accesses, o.fault != 0); }
    else { NoPendingStore(c, m.core, o.accesses, o.fault != 0); }
    ArchTraceAppend(m.trace, Addresses(o.accesses, 0));
  }

  lemma EndOutsideSpeculation(c: Config, p: Program, m: State, o: Outcome)
    requires StacksAgree(c, m) && m.core.Level() == 0 && !m.core.spec.failed
    ensures Erase(ExecuteEnd(c, p, m, o)) == Retired(p, Erase(m), o)
    ensures ArchTrace(ExecuteEnd(c, p, m, o).trace) ==
              ArchTrace(m.trace) + if o.fault != 0 then [Address(p.stackTop)] else []
  {
    ArchTraceAppend(m.trace, [Entry(Address(p.stackTop), 0)]);
    assert ArchTrace([Entry(Address(p.stackTop), 0)]) == [Address(p.stackTop)];
  }

  lemma ExecuteOutsideSpeculation(c: Config, p: Program, m: State)
    requires Loggable(c, p) && StacksAgree(c, m) && (c.tracking ==> m.tracker.inst.Some?)
    requires m.core.Level() == 0 && m.status == Running && !m.core.spec.failed && m.core.spec.previousStore.None?
    requires !IsExit(p, m.core.pc)
    ensures Erase(Execute(c, p, m)) == ArchStep(p, Erase(m))
    ensures ArchTrace(Execute(c, p, m).trace) == ArchTrace(m.trace) + ShownByExecution(p, Erase(m))
  {
    AccessOutsideSpeculation(c, p, m);
    EndOutsideSpeculation(c, p, Accessed(c, p, m), p.exec(m.core.pc, m.core.cpu));
    hide Accessed, ExecuteEnd;
  }

  lemma ArriveOutsideSpeculation(c: Config, p: Program, m: State)
    requires Loggable(c, p) && StacksAgree(c, m) && m.status == Running && Layered(c, m.core)
    requires m.core.Level() == 0 && !Bypasses(c, m.core)
    ensures var ready := TakeBypass(c, Arrive(c, p, m));
            && Visit(c, p, m) ==
               (if Mispredicts(c, p, m.core) then TakeWrongPath(c, p, Arrive(c, p, m)) else Execute(c, p, ready))
            && Erase(ready) == Erase(m) && ready.core.Level() == 0 && ready.status == Running
            && !ready.core.spec.failed && ready.core.spec.previousStore.None? && ready.core.pc == m.core.pc
            && (c.tracking ==> ready.tracker.inst.Some?)
            && ArchTrace(ready.trace) == ArchTrace(m.trace) + [Pc(m.core.pc)]
  {
    ArchTraceAppend(m.trace, [Entry(Pc(m.core.pc), 0)]);
    assert ArchTrace([Entry(Pc(m.core.pc), 0)]) == [Pc(m.core.pc)];
    hide Execute, Mispredict;
  }

  /** Outside speculation, a visit that starts none is a sequential step. */
  lemma VisitOutsideSpeculation(c: Config, p: Program, m: State)
    requires Loggable(c, p) && StacksAgree(c, m) && m.status == Running && Layered(c, m.core)
    requires m.core.Level() == 0 && !IsExit(p, m.core.pc)
    requires !Mispredicts(c, p, m.core) && !Bypasses(c, m.core)
    ensures Erase(Visit(c, p, m)) == ArchStep(p, Erase(m))
    ensures ArchTrace(Visit(c, p, m).trace) == ArchTrace(m.trace) + Shown(p, Erase(m))
  {
    hide Visit, Execute, ShownByExecution, ArchStep, ArchTrace;
    ArriveOutsideSpeculation(c, p, m);
    ExecuteOutsideSpeculation(c, p, TakeBypass(c, Arrive(c, p, m)));
    hide TakeBypass, Arrive, Mispredicts;
  }

  /** A mispredicted branch checkpoints its correct outcome, except exactly when it is taken and its
      displacement is a negative rel8, which the decoder reads as a positive one. */
  lemma MispredictOutsideSpeculation(c: Config, p: Program, m: State)
    requires Loggable(c, p) && StacksAgree(c, m) && m.status == Running && Layered(c, m.core)
    requires m.core.Level() == 0 && !IsExit(p, m.core.pc)
    requires ManualBranches(p) && Mispredicts(c, p, m.core)
    ensures var code := p.code(m.core.pc).code;
            var b := ManualBranch(code, m.core.cpu.flags, RegValue(m.core.cpu.regs, C));
            Erase(Visit(c, p, m)) == ArchStep(p, Erase(m)) <==> (b.taken ==> FaithfulDisplacement(code))
    ensures ArchTrace(Visit(c, p, m).trace) == ArchTrace(m.trace) + Shown(p, Erase(m))
  {
    var i := p.code(m.core.pc);
    DecodedTarget(i.code, m.core.cpu.flags, RegValue(m.core.cpu.regs, C));
    var b := ManualBranch(i.code, m.core.cpu.flags, RegValue(m.core.cpu.regs, C));
    DecodedOutcome(i.code, m.core.cpu.flags, RegValue(m.core.cpu.regs, C));
    assert p.exec(m.core.pc, m.core.cpu) == BranchOutcome(m.core.pc, i, m.core.cpu, b);
    ArriveOutsideSpeculation(c, p, m);
    hide Decode, ManualBranch, Execute, TakeBypass, Visit;
    assert ArchTrace(Addresses([], 0)) == [];
  }

  /** A bypass checkpoints the state with the store in place and leaves it to the rollback. */
  lemma BypassOutsideSpeculation(c: Config, p: Program, m: State)
    requires Loggable(c, p) && StacksAgree(c, m) && m.status == Running && Layered(c, m.core)
    requires m.core.Level() == 0 && Bypasses(c, m.core)
    ensures SameArch(m, Visit(c, p, m))
  {
    var seen := Arrive(c, p, m);
    BypassPathLayers(c, seen);
    var ready := TakeBypass(c, seen);
    assert SameArch(m, ready) && ready.core.Level() == 1;
    ExecuteInSpeculation(c, p, ready);
    hide Execute;
  }

  // ---------------------------------------------------------------------------------------------
  // Runs

  const SEQUENTIAL := Config(Seq, 0, 0, false)

  predicate FaultsAt(p: Program, a: ArchState) {
    a.status == Running && !IsExit(p, a.pc) && p.exec(a.pc, a.cpu).fault != 0
  }

  ghost predicate SequentiallyFaultFree(p: Program, a: ArchState, n: nat) {
    forall k :: 0 <= k < n ==> !FaultsAt(p, ArchRun(p, a, k))
  }

  /** What the clauses ask of the program: misprediction, branches that the emulator executes as the
      manual says and the decoder reads alike; store bypassing, no architectural fault. */
  ghost predicate Erasable(c: Config, p: Program, cpu: Cpu, n: nat) {
    && Loggable(c, p)
    && (c.clause == Cond ==> ManualBranches(p) && FaithfulDisplacements(p))
    && (c.clause == Bpas ==> SequentiallyFaultFree(p, Erase(Initial(p, cpu)), n))
  }

  /** One step either leaves the architectural state alone or is one sequential step. */
  lemma StepErases(c: Config, p: Program, m: State) returns (moved: bool)
    requires Loggable(c, p) && (c.clause == Cond ==> ManualBranches(p) && FaithfulDisplacements(p))
    requires StacksAgree(c, m) && Layered(c, m.core)
    ensures Erase(Step(c, p, m)) == if moved then ArchStep(p, Erase(m)) else Erase(m)
    ensures c.clause != Bpas ==>
              ArchTrace(Step(c, p, m).trace) == ArchTrace(m.trace) + if moved then Shown(p, Erase(m)) else []
    ensures c.clause == Seq ==> moved
  {
    if m.status != Running {
      moved := true;
    } else if m.core.Level() > 0 {
      moved := false;
      StepInSpeculation(c, p, m);
    } else if IsExit(p, m.core.pc) {
      moved := true;
    } else if Mispredicts(c, p, m.core) {
      moved := true;
      MispredictOutsideSpeculation(c, p, m);
    } else if Bypasses(c, m.core) {
      moved := false;
      BypassOutsideSpeculation(c, p, m);
    } else {
      moved := true;
      VisitOutsideSpeculation(c, p, m);
    }
    hide Visit, Shown, RollBack;
  }

  /** After any number of steps, at any nesting bound and window, the architectural state is the one
      that the sequential run reaches in some number of steps; without store bypassing, what was
      observed outside speculation is exactly what the sequential run shows in those steps. */
  lemma {:induction false} SpeculationErased(c: Config, p: Program, cpu: Cpu, n: nat) returns (j: nat)
    requires Erasable(c, p, cpu, n)
    ensures j <= n && (c.clause == Seq ==> j == n)
    ensures var a, m := Erase(Initial(p, cpu)), Run(c, p, Initial(p, cpu), n);
            && Layered(c, m.core)
            && Erase(m) == ArchRun(p, a, j)
            && (c.clause != Bpas ==> ArchTrace(m.trace) == ShownBy(p, a, j))
  {
    var a := Erase(Initial(p, cpu));
    hide Step, ArchStep, Shown;
    if n == 0 {
      j := 0;
    } else {
      j := SpeculationErased(c, p, cpu, n - 1);
      var m := Run(c, p, Initial(p, cpu), n - 1);
      if c.clause == Bpas {
        assert !FaultsAt(p, ArchRun(p, a, j));
      }
      StepLayers(c, p, m);
      var moved := StepErases(c, p, m);
      if moved { j := j + 1; }
    }
  }

  lemma {:induction false} ArchFinishedStays(p: Program, a: ArchState, n: nat, k: nat)
    requires n <= k && ArchRun(p, a, n).status != Running
    ensures ArchRun(p, a, k) == ArchRun(p, a, n) && ShownBy(p, a, k) == ShownBy(p, a, n)
    decreases k
  {
    if n < k { ArchFinishedStays(p, a, n, k - 1); }
  }

  /** A finished run of the misprediction or bypass clause ends in the architectural state of the
      sequential speculator's finished run, with the same registers, flags and memory when it halts;
      without store bypassing, the observations it made at nesting 0 are the trace of that run. */
  lemma FinishedRunsAgree(c: Config, p: Program, cpu: Cpu, n: nat, k: nat)
    requires Erasable(c, p, cpu, n) && Loggable(SEQUENTIAL, p)
    requires Run(c, p, Initial(p, cpu), n).status != Running
    requires Run(SEQUENTIAL, p, Initial(p, cpu), k).status != Running
    ensures var m, s := Run(c, p, Initial(p, cpu), n), Run(SEQUENTIAL, p, Initial(p, cpu), k);
            && SameArch(m, s)
            && (m.status == Halted ==> m.core.cpu == s.core.cpu)
            && (c.clause != Bpas ==> ArchTrace(m.trace) == ArchTrace(s.trace))
  {
    var j := SpeculationErased(c, p, cpu, n);
    var i := SpeculationErased(SEQUENTIAL, p, cpu, k);
    var a := Erase(Initial(p, cpu));
    if i <= j { ArchFinishedStays(p, a, i, j); } else { ArchFinishedStays(p, a, j, i); }
  }
}
