/** The meaning of the execution clauses, without checkpoints, store logs or a decoder: every path of
execution has a whole machine state of its own.  A mispredicted branch suspends the right path and goes
on along the wrong one; a bypassed store suspends the path with the store and goes on with the memory
from before it; a suspended path goes on as it is.  Every run of the contract model is such a run.
*/
module SpeculativeSemantics {
  import opened Bytes
  import opened Common
  import opened Memory
  import opened BranchDecoder
  import opened Instructions
  import opened ContractModel
  import opened UndoLogs
  import opened Runs
  import opened Transparency
  import opened Termination

  /** `age` counts the instructions met in speculation. */
  datatype Path = Path(cpu: Cpu, pc: int, age: nat)

  /** `beforeStore` is the memory before the previous instruction, if that was a store to be bypassed. */
  datatype World = World(
    path: Path,
    suspended: seq<Path>,
    beforeStore: Option<Mem>,
    reentry: bool,
    trace: seq<Entry>,
    hadFault: bool,
    status: Status)
  {
    function Depth(): nat {
      |suspended|
    }
  }

  function Start(p: Program, cpu: Cpu): World {
    World(Path(cpu, p.start, 0), [], None, true, [], false, Running)
  }

  /** The path that was suspended last goes on. */
  function Resume(w: World): World
    requires w.Depth() > 0
  {
    var n := w.Depth() - 1;
    w.(path := w.suspended[n], suspended := w.suspended[..n], beforeStore := None, reentry := true)
  }

  function BranchAt(p: Program, path: Path): Branch
    requires WellFormed(p)
  {
    ManualBranch(p.code(path.pc).code, path.cpu.flags, RegValue(path.cpu.regs, C))
  }

  /** A conditional branch that leads anywhere else is mispredicted, within the nesting bound. */
  predicate Forks(c: Config, p: Program, w: World)
    requires WellFormed(p)
  {
    var b := BranchAt(p, w.path);
    && c.clause == Cond && w.Depth() < c.maxNesting && p.code(w.path.pc).Size() <= MAX_INSTRUCTION_SIZE
    && b.Branch? && b.displacement != 0
  }

  /** Behind the branch, as the emulator executes it. */
  function RightPath(p: Program, path: Path): Path {
    var o := p.exec(path.pc, path.cpu);
    path.(cpu := Cpu(o.regs, o.flags, path.cpu.mem), pc := o.next)
  }

  /** The other way: to the target of a branch that is not taken, and past one that is. */
  function WrongPath(p: Program, path: Path): Path
    requires WellFormed(p) && BranchAt(p, path).Branch?
  {
    var b := BranchAt(p, path);
    RightPath(p, path).(pc := path.pc + p.code(path.pc).Size() + if b.taken then 0 else b.displacement)
  }

  predicate BypassesStore(c: Config, w: World) {
    c.clause == Bpas && w.beforeStore.Some? && w.Depth() < c.maxNesting
  }

  /** The path with the store is suspended, and the one without it goes on. */
  function WithoutStore(w: World): World
    requires w.beforeStore.Some?
  {
    w.(path := w.path.(cpu := w.path.cpu.(mem := w.beforeStore.value)), suspended := w.suspended + [w.path],
       beforeStore := None)
  }

  /** A speculative path ends at a barrier and when its window has expired. */
  predicate Expires(c: Config, p: Program, w: World) {
    w.Depth() > 0 && (p.code(w.path.pc).IsBarrier() || w.path.age > c.maxWindow)
  }

  /** The instruction is shown, and it ages a speculative path. */
  function Met(w: World): World {
    w.(trace := w.trace + [Entry(Pc(w.path.pc), w.Depth())],
       path := w.path.(age := if w.Depth() > 0 then w.path.age + 1 else w.path.age))
  }

  /** All accesses are shown in order, then a fault; a fault ends a speculative path, and enters the fault
      handler once. */
  function Executed(c: Config, p: Program, w: World): World {
    var o := p.exec(w.path.pc, w.path.cpu);
    var mem := Stored(w.path.cpu.mem, o.accesses, o.fault != 0);
    var shown := w.(trace := w.trace + Addresses(o.accesses, w.Depth()));
    if o.fault == 0 then
      shown.(path := w.path.(cpu := Cpu(o.regs, o.flags, mem), pc := o.next), reentry := false,
             beforeStore := if c.clause == Bpas && !NoStore(o.accesses) then Some(w.path.cpu.mem) else None)
    else
      var faulted := Faulted(p, shown.(path := w.path.(cpu := w.path.cpu.(mem := mem))));
      if w.Depth() > 0 then Resume(faulted) else Handled(p, faulted, o.fault)
  }

  function Faulted(p: Program, w: World): World {
    w.(trace := w.trace + [Entry(Address(p.stackTop), w.Depth())])
  }

  function Handled(p: Program, w: World, fault: nat): World {
    var handled := w.(hadFault := true);
    if w.hadFault || fault !in p.handledFaults then handled.(status := Error)
    else if p.faultHandler == p.exit then handled.(status := Halted)
    else handled.(path := w.path.(pc := p.faultHandler), reentry := true)
  }

  /** What speculation makes of an instruction.  Where a path has to end, a branch is still passed along the
      right path, and a store that could be bypassed is kept for good. */
  function Speculated(c: Config, p: Program, w: World): World
    requires WellFormed(p)
  {
    if Forks(c, p, w) then
      if Expires(c, p, w) then w.(path := RightPath(p, w.path), beforeStore := None, reentry := true)
      else w.(path := WrongPath(p, w.path), suspended := w.suspended + [RightPath(p, w.path)], reentry := false)
    else if BypassesStore(c, w) then
      if Expires(c, p, w) then w.(beforeStore := None, reentry := true) else Executed(c, p, WithoutStore(w))
    else if Expires(c, p, w) then Resume(w)
    else Executed(c, p, w.(beforeStore := None))
  }

  /** An instruction is met: the path is neither at an exit nor just back in the fault handler. */
  predicate Meets(p: Program, w: World) {
    && w.status == Running && !IsExit(p, w.path.pc)
    && !(w.reentry && w.path.pc != p.start && w.path.pc == p.faultHandler && w.Depth() > 0)
  }

  function SpecStep(c: Config, p: Program, w: World): World
    requires WellFormed(p)
  {
    if Meets(p, w) then Speculated(c, p, Met(w))
    else if w.status != Running then w
    else if w.Depth() > 0 then Resume(w)
    else w.(status := Halted)
  }

  function SpecRun(c: Config, p: Program, w: World, n: nat): World
    requires WellFormed(p)
  {
    if n == 0 then w else SpecStep(c, p, SpecRun(c, p, w, n - 1))
  }

  // ---------------------------------------------------------------------------------------------
  // The paths of the contract model

  function Suspended(cp: Checkpoint): Path {
    Path(Cpu(cp.regs, cp.flags, cp.snapshot), cp.next, cp.window)
  }

  /** Forgetting the store logs: a checkpoint is a suspended path, and a pending store is the memory
      without it. */
  function Paths(m: State): World {
    var k, s := m.core, m.core.spec;
    World(Path(k.cpu, k.pc, s.window),
          seq(|s.checkpoints|, i requires 0 <= i < |s.checkpoints| => Suspended(s.checkpoints[i])),
          match s.previousStore case None => None case Some(t) => Some(Write(k.cpu.mem, t.addr, t.before)),
          m.reentry, m.trace, m.hadFault, m.status)
  }

  lemma RollBackResumes(c: Config, m: State)
    requires StacksAgree(c, m) && SnapshotsHold(m.core) && m.core.Level() > 0
    ensures Paths(RollBack(c, m)) == Resume(Paths(m))
  {
    PopRestores(m.core);
    var n := m.core.Level() - 1;
    assert Paths(m).suspended[..n] == Paths(RollBack(c, m)).suspended;
    hide Undo, Taint.Rollback;
  }

  /** The memory behind the cancelled store is the memory before it. */
  lemma StoreCancelled(mem: Mem, a: int, bs: seq<Byte>)
    ensures Write(Write(mem, a, bs), a, Read(mem, a, |bs|)) == mem
  {
    var saved := Read(mem, a, |bs|);
    forall x | 0 <= x < |mem| && a <= x < a + |bs| ensures saved[x - a] == mem[x] {
      assert saved[x - a] == ByteAt(mem, a + (x - a));
    }
  }

  /** The only store of an instruction waits to be bypassed, and cancelling it gives the memory before. */
  lemma {:induction false} StoreWaits(c: Config, k: Core, accesses: seq<Access>)
    requires c.clause == Bpas && OneStore(accesses) && k.spec.previousStore.None?
    ensures var r := RunAccesses(c, k, accesses, false);
            match r.spec.previousStore
            case None => NoStore(accesses) && r.cpu.mem == k.cpu.mem
            case Some(t) => !NoStore(accesses) && Write(r.cpu.mem, t.addr, t.before) == k.cpu.mem
    decreases |accesses|
  {
    if |accesses| > 0 {
      var a, rest := accesses[0], accesses[1..];
      var k1 := Access1(c, k, a, true);
      if a.write {
        assert forall i :: 0 <= i < |rest| ==> rest[i] == accesses[i + 1];
        assert NoStore(rest);
        NothingStored(c, k1, rest);
        StoreCancelled(k.cpu.mem, a.addr, a.bytes);
      } else {
        StoreWaits(c, k1, rest);
        assert forall i :: 0 <= i < |rest| ==> rest[i] == accesses[i + 1];
        assert NoStore(accesses) <==> NoStore(rest);
      }
    }
  }

  lemma {:induction false} NothingStored(c: Config, k: Core, accesses: seq<Access>)
    requires NoStore(accesses)
    ensures RunAccesses(c, k, accesses, false).cpu.mem == k.cpu.mem
    ensures RunAccesses(c, k, accesses, false).spec.previousStore == k.spec.previousStore
    decreases |accesses|
  {
    if |accesses| > 0 { NothingStored(c, Access1(c, k, accesses[0], true), accesses[1..]); }
  }

  lemma AccessedPaths(c: Config, p: Program, m: State)
    requires Loggable(c, p) && StacksAgree(c, m) && (c.tracking ==> m.tracker.inst.Some?)
    requires Layered(c, m.core) && m.core.spec.previousStore.None?
    ensures var o, r := p.exec(m.core.pc, m.core.cpu), Accessed(c, p, m);
            && r.core.cpu == m.core.cpu.(mem := Stored(m.core.cpu.mem, o.accesses, o.fault != 0))
            && r.core.spec.checkpoints == m.core.spec.checkpoints && r.core.spec.window == m.core.spec.window
            && r.trace == m.trace + Addresses(o.accesses, m.core.Level())
            && r.core.pc == m.core.pc && r.hadFault == m.hadFault && r.reentry == m.reentry && r.status == m.status
            && SnapshotsHold(r.core) && !r.core.spec.failed
            && (c.clause == Bpas && o.fault == 0 ==>
                  match r.core.spec.previousStore
                  case None => NoStore(o.accesses)
                  case Some(t) => !NoStore(o.accesses) && Write(r.core.cpu.mem, t.addr, t.before) == m.core.cpu.mem)
  {
    var o := p.exec(m.core.pc, m.core.cpu);
    RunAccessesKeeps(c, m.core, o.accesses, o.fault != 0);
    AccessesStore(c, m.core, o.accesses, o.fault != 0);
    AccessesLayers(c, m.core, o.accesses, o.fault != 0);
    if c.clause == Bpas {
      NeverFails(c, m.core, o.accesses, o.fault != 0);
      if o.fault == 0 { StoreWaits(c, m.core, o.accesses); }
    } else {
      NoPendingStore(c, m.core, o.accesses, o.fault != 0);
    }
    hide RunAccesses, TrackAccesses, NoStore;
  }

  /** A fault ends the path, or is handled. */
  lemma FaultRefines(c: Config, p: Program, m: State, fault: nat)
    requires StacksAgree(c, m) && SnapshotsHold(m.core) && (m.core.Level() == 0 ==> c.clause != Bpas)
    ensures m.core.Level() > 0 ==>
              Paths(RollBack(c, ShowFault(c, p, m))) == Resume(Faulted(p, Paths(m)))
    ensures m.core.Level() == 0 ==>
              Paths(EnterHandler(p, ShowFault(c, p, m), fault)) == Handled(p, Faulted(p, Paths(m)), fault)
  {
    assert Paths(ShowFault(c, p, m)).suspended == Paths(m).suspended;
    if m.core.Level() > 0 {
      RollBackResumes(c, ShowFault(c, p, m));
    } else {
      assert Paths(EnterHandler(p, ShowFault(c, p, m), fault)).suspended == Paths(m).suspended;
    }
    hide RollBack, SnapshotsHold, Taint.TaintAddress;
  }

  lemma ExecuteRefines(c: Config, p: Program, m: State)
    requires Loggable(c, p) && StacksAgree(c, m) && (c.tracking ==> m.tracker.inst.Some?)
    requires Layered(c, m.core) && m.core.spec.previousStore.None?
    requires c.clause == Bpas && m.core.Level() == 0 ==> p.exec(m.core.pc, m.core.cpu).fault == 0
    ensures Paths(Execute(c, p, m)) == Executed(c, p, Paths(m))
  {
    AccessedPaths(c, p, m);
    hide Accessed, Stored, NoStore, RollBack, SnapshotsHold, Write, EnterHandler, Handled, ShowFault, Resume;
    var o, r := p.exec(m.core.pc, m.core.cpu), Accessed(c, p, m);
    assert Paths(r).suspended == Paths(m).suspended;
    if o.fault != 0 {
      FaultRefines(c, p, r, o.fault);
    }
  }

  lemma ArriveRefines(c: Config, p: Program, m: State)
    requires StacksAgree(c, m)
    ensures Paths(Arrive(c, p, m)) == Met(Paths(m))
  {
    hide Taint.TrackInstruction, Taint.TaintPc;
    assert Paths(Arrive(c, p, m)).suspended == Paths(m).suspended;
  }

  lemma ForksRefines(c: Config, p: Program, m: State)
    requires WellFormed(p)
    ensures Mispredicts(c, p, m.core) <==> Forks(c, p, Paths(m))
  {
    DecodedTarget(p.code(m.core.pc).code, m.core.cpu.flags, RegValue(m.core.cpu.regs, C));
    hide Decode, ManualBranch;
  }

  /** What the decoder finds of a mispredicted branch is what the emulator would do. */
  lemma BranchDecoded(c: Config, p: Program, k: Core)
    requires WellFormed(p) && ManualBranches(p) && FaithfulDisplacements(p) && Mispredicts(c, p, k)
    ensures var o, b, d := p.exec(k.pc, k.cpu), BranchAt(p, Path(k.cpu, k.pc, k.spec.window)), Decoding(p, k);
            && b.Branch? && d.target == b.displacement && d.willJump == b.taken
            && o.regs == BranchRegs(p, k) && o.flags == k.cpu.flags && o.next == BranchTarget(p, k, b.taken)
  {
    var i := p.code(k.pc);
    DecodedTarget(i.code, k.cpu.flags, RegValue(k.cpu.regs, C));
    DecodedOutcome(i.code, k.cpu.flags, RegValue(k.cpu.regs, C));
    var b := ManualBranch(i.code, k.cpu.flags, RegValue(k.cpu.regs, C));
    assert FaithfulDisplacement(i.code);
    assert p.exec(k.pc, k.cpu) == BranchOutcome(k.pc, i, k.cpu, b);
    hide Decode, ManualBranch, FaithfulDisplacement;
  }

  lemma WrongPathRefines(c: Config, p: Program, m: State)
    requires Loggable(c, p) && StacksAgree(c, m) && m.status == Running && Layered(c, m.core)
    requires ManualBranches(p) && FaithfulDisplacements(p) && Mispredicts(c, p, m.core)
    ensures BranchAt(p, Paths(m).path).Branch?
    ensures var w := Paths(m);
            Paths(TakeWrongPath(c, p, m)) ==
            w.(path := WrongPath(p, w.path), suspended := w.suspended + [RightPath(p, w.path)], reentry := false)
  {
    BranchDecoded(c, p, m.core);
    hide ManualBranches, FaithfulDisplacements, BranchRegs, Decoding, Layered, BranchAt, Taint.TakeCheckpoint, Loggable;
    var w, r := Paths(m), TakeWrongPath(c, p, m);
    assert Paths(r).suspended == w.suspended + [RightPath(p, w.path)];
  }

  /** Where the path has to end at once, the branch has been passed along the right path. */
  lemma BranchPassed(c: Config, p: Program, m: State)
    requires Loggable(c, p) && StacksAgree(c, m) && m.status == Running && Layered(c, m.core)
    requires ManualBranches(p) && FaithfulDisplacements(p) && Mispredicts(c, p, m.core)
    ensures var w := Paths(m);
            Paths(RollBack(c, TakeWrongPath(c, p, m))) ==
            w.(path := RightPath(p, w.path), beforeStore := None, reentry := true)
  {
    WrongPathRefines(c, p, m);
    WrongPathLayers(c, p, m);
    var w, r := Paths(m), TakeWrongPath(c, p, m);
    SnapshotsOf(c, r.core);
    hide RollBack, TakeWrongPath, Layered, SnapshotsHold, WrongPath, RightPath, BranchAt, ManualBranches, Loggable;
    RollBackResumes(c, r);
    assert Paths(r).suspended[..w.Depth()] == w.suspended;
  }

  lemma SnapshotsOf(c: Config, k: Core)
    requires Layered(c, k)
    ensures SnapshotsHold(k)
  {}

  lemma BypassRefines(c: Config, p: Program, m: State)
    requires Loggable(c, p) && StacksAgree(c, m) && m.status == Running && Layered(c, m.core)
    requires Bypasses(c, m.core)
    ensures var w, r := Paths(m), TakeBypass(c, m);
            && Paths(r) == WithoutStore(w)
            && Paths(RollBack(c, r)) == w.(beforeStore := None, reentry := true)
  {
    var w, r := Paths(m), TakeBypass(c, m);
    assert Paths(r).suspended == w.suspended + [w.path];
    BypassPathLayers(c, m);
    RollBackResumes(c, r);
    assert Paths(r).suspended[..w.Depth()] == w.suspended;
    hide RollBack, Taint.TakeCheckpoint, Write;
  }

  lemma ForgetRefines(c: Config, m: State)
    requires StacksAgree(c, m) && m.status == Running && !Bypasses(c, m.core)
    ensures Paths(TakeBypass(c, m)) == Paths(m).(beforeStore := None)
  {
    assert Paths(TakeBypass(c, m)).suspended == Paths(m).suspended;
  }

  /** Without a misprediction a path that must stop ends, but for a store that was about to be bypassed. */
  lemma StopRefines(c: Config, p: Program, m: State)
    requires Loggable(c, p) && StacksAgree(c, m) && m.status == Running && Layered(c, m.core)
    requires !Forks(c, p, Paths(m)) && MustStop(c, p, m.core)
    ensures Paths(RollBack(c, TakeBypass(c, m))) == Speculated(c, p, Paths(m))
  {
    if Bypasses(c, m.core) {
      BypassRefines(c, p, m);
    } else {
      ForgetRefines(c, m);
      BypassPathLayers(c, m);
      SnapshotsOf(c, TakeBypass(c, m).core);
      RollBackResumes(c, TakeBypass(c, m));
    }
    hide RollBack, Layered, Loggable, WellFormed, TakeBypass, Executed, Forks;
  }

  /** The state behind the bypass hook. */
  lemma ReadyRefines(c: Config, p: Program, m: State)
    requires Loggable(c, p) && StacksAgree(c, m) && m.status == Running && Layered(c, m.core)
    ensures var w, r := Paths(m), TakeBypass(c, m);
            && Layered(c, r.core) && r.core.spec.previousStore.None? && r.core.pc == m.core.pc
            && Paths(r) == (if BypassesStore(c, w) then WithoutStore(w) else w.(beforeStore := None))
            && (r.core.Level() == 0 ==> r.core.cpu == m.core.cpu && !Bypasses(c, m.core))
  {
    hide Layered, Loggable, RollBack, WithoutStore, WellFormed;
    BypassPathLayers(c, m);
    if Bypasses(c, m.core) { BypassRefines(c, p, m); } else { ForgetRefines(c, m); }
  }

  /** Otherwise the instruction executes, on the memory before the bypassed store if there is one. */
  lemma GoRefines(c: Config, p: Program, m: State)
    requires Loggable(c, p) && StacksAgree(c, m) && m.status == Running && Layered(c, m.core)
    requires (c.tracking ==> m.tracker.inst.Some?) && !Forks(c, p, Paths(m)) && !MustStop(c, p, m.core)
    requires c.clause == Bpas && m.core.Level() == 0 && !Bypasses(c, m.core) ==>
               p.exec(m.core.pc, m.core.cpu).fault == 0
    ensures Paths(Execute(c, p, TakeBypass(c, m))) == Speculated(c, p, Paths(m))
  {
    hide Layered, Executed, Execute, Forks, WithoutStore, TakeBypass, Bypasses, BypassesStore;
    ReadyRefines(c, p, m);
    ExecuteRefines(c, p, TakeBypass(c, m));
  }

  lemma DecideRefines(c: Config, p: Program, m: State)
    requires Loggable(c, p) && StacksAgree(c, m) && m.status == Running && Layered(c, m.core)
    requires c.tracking ==> m.tracker.inst.Some?
    requires c.clause == Cond ==> ManualBranches(p) && FaithfulDisplacements(p)
    requires c.clause == Bpas && m.core.Level() == 0 && !Bypasses(c, m.core) ==>
               p.exec(m.core.pc, m.core.cpu).fault == 0
    ensures Paths(Decide(c, p, m)) == Speculated(c, p, Paths(m))
  {
    hide Executed, Execute, RollBack, Resume, TakeBypass, WrongPath, RightPath, TakeWrongPath, Layered;
    if Mispredicts(c, p, m.core) {
      ForksRefines(c, p, m);
      WrongPathRefines(c, p, m);
      BranchPassed(c, p, m);
    } else {
      ForksRefines(c, p, m);
      if MustStop(c, p, m.core) { StopRefines(c, p, m); } else { GoRefines(c, p, m); }
    }
    hide ManualBranches, FaithfulDisplacements, Forks, Mispredicts, Loggable;
  }

  /** A step of the contract model is a step of its paths. */
  lemma StepRefines(c: Config, p: Program, m: State)
    requires Loggable(c, p) && StacksAgree(c, m) && Layered(c, m.core)
    requires c.clause == Cond ==> ManualBranches(p) && FaithfulDisplacements(p)
    requires c.clause == Bpas ==> !ArchitecturalFault(c, p, m)
    ensures Paths(Step(c, p, m)) == SpecStep(c, p, Paths(m))
  {
    hide Decide, Speculated, RollBack, Resume;
    if m.status == Running {
      if m.core.Level() > 0 { RollBackResumes(c, m); }
      if !IsExit(p, m.core.pc) {
        ArriveRefines(c, p, m);
        DecideRefines(c, p, Arrive(c, p, m));
      }
    }
  }

  /** Every run of the contract model is, path by path, entry by entry, a run of the semantics: it shows the
      same trace, at the same nesting. */
  lemma {:induction false} RunRefines(c: Config, p: Program, cpu: Cpu, n: nat)
    requires Erasable(c, p, cpu, n)
    ensures Paths(Run(c, p, Initial(p, cpu), n)) == SpecRun(c, p, Start(p, cpu), n)
  {
    hide Step, SpecStep;
    if n > 0 {
      RunRefines(c, p, cpu, n - 1);
      var m := Run(c, p, Initial(p, cpu), n - 1);
      var j := SpeculationErased(c, p, cpu, n - 1);
      if c.clause == Bpas { assert !FaultsAt(p, ArchRun(p, Erase(Initial(p, cpu)), j)); }
      StepRefines(c, p, m);
    }
  }

  /** The complete run, with its trace, is the complete run of the semantics. */
  lemma CompleteRefines(c: Config, p: Program, cpu: Cpu) returns (n: nat)
    requires WellFormed(p) && ForwardOnly(p) && (forall k: nat :: Erasable(c, p, cpu, k))
    ensures Paths(Complete(c, p, Initial(p, cpu))) == SpecRun(c, p, Start(p, cpu), n)
    ensures SpecRun(c, p, Start(p, cpu), n).status != Running
  {
    hide SpecRun, Run, Complete, ForwardOnly;
    n := Halts(c, p, Initial(p, cpu));
    assert Erasable(c, p, cpu, n);
    hide Erasable;
    RunRefines(c, p, cpu, n);
  }

  // ---------------------------------------------------------------------------------------------
  // What a step shows

  /** The machine meets an instruction: it is neither at an exit nor just back in the fault handler. */
  predicate Visits(p: Program, m: State) {
    && m.status == Running && !IsExit(p, m.core.pc)
    && !(m.reentry && m.core.pc != p.start && m.core.pc == p.faultHandler && m.core.Level() > 0)
  }

  /** What executing an instruction shows at the present nesting. */
  function ShownAt(p: Program, w: World): seq<Entry> {
    var o := p.exec(w.path.pc, w.path.cpu);
    Addresses(o.accesses, w.Depth()) + if o.fault != 0 then [Entry(Address(p.stackTop), w.Depth())] else []
  }

  /** A step that meets an instruction shows its program counter, and if the instruction executes, each of
      its accesses in order and a fault, at the nesting that a bypassed store may have raised.  Any other
      step shows nothing. */
  lemma StepShows(c: Config, p: Program, m: State)
    requires Loggable(c, p) && StacksAgree(c, m) && Layered(c, m.core)
    ensures var w := Met(Paths(m));
            Step(c, p, m).trace ==
              if !Visits(p, m) then m.trace
              else m.trace + [Entry(Pc(m.core.pc), m.core.Level())] +
                   if Forks(c, p, w) || Expires(c, p, w) then []
                   else ShownAt(p, if BypassesStore(c, w) then WithoutStore(w) else w)
  {
    hide Layered, Forks, Expires, BypassesStore, WithoutStore, ShownAt, Decide, Pop, Taint.Rollback;
    if Visits(p, m) {
      ArriveRefines(c, p, m);
      ArriveKeepsLayers(c, p, m);
      DecisionShows(c, p, Arrive(c, p, m));
    }
  }

  lemma ArriveKeepsLayers(c: Config, p: Program, m: State)
    requires StacksAgree(c, m) && Layered(c, m.core)
    ensures Layered(c, Arrive(c, p, m).core)
  {}

  lemma DecisionShows(c: Config, p: Program, m: State)
    requires Loggable(c, p) && StacksAgree(c, m) && Layered(c, m.core) && m.status == Running
    requires c.tracking ==> m.tracker.inst.Some?
    ensures var w := Paths(m);
            Decide(c, p, m).trace == m.trace +
                                     if Forks(c, p, w) || Expires(c, p, w) then []
                                     else ShownAt(p, if BypassesStore(c, w) then WithoutStore(w) else w)
  {
    hide Layered, TakeBypass, Forks, Mispredicts, Execute, Bypasses, ShownAt, Mispredict, Pop, Taint.Rollback;
    ForksRefines(c, p, m);
    ReadyRefines(c, p, m);
    if !MustStop(c, p, m.core) && !Mispredicts(c, p, m.core) {
      ExecuteShows(c, p, TakeBypass(c, m));
      if !BypassesStore(c, Paths(m)) { ShownLocally(p, Paths(TakeBypass(c, m)), Paths(m)); }
    }
  }

  /** A pending store that is kept changes nothing. */
  lemma ShownLocally(p: Program, v: World, w: World)
    requires v.path == w.path && v.suspended == w.suspended
    ensures ShownAt(p, v) == ShownAt(p, w)
  {}

  lemma ExecuteShows(c: Config, p: Program, m: State)
    requires Loggable(c, p) && StacksAgree(c, m) && (c.tracking ==> m.tracker.inst.Some?)
    requires Layered(c, m.core) && m.core.spec.previousStore.None?
    ensures Execute(c, p, m).trace == m.trace + ShownAt(p, Paths(m))
  {
    hide Accessed, ExecuteEnd, Loggable, Layered, StacksAgree;
    AccessedShows(c, p, m);
    var o := p.exec(m.core.pc, m.core.cpu);
    EndShows(c, p, Accessed(c, p, m), o);
    assert m.trace + Addresses(o.accesses, m.core.Level()) + [] == m.trace + Addresses(o.accesses, m.core.Level());
  }

  lemma AccessedShows(c: Config, p: Program, m: State)
    requires Loggable(c, p) && StacksAgree(c, m) && (c.tracking ==> m.tracker.inst.Some?)
    requires Layered(c, m.core) && m.core.spec.previousStore.None?
    ensures Accessed(c, p, m).trace == m.trace + Addresses(p.exec(m.core.pc, m.core.cpu).accesses, m.core.Level())
    ensures !Accessed(c, p, m).core.spec.failed && Accessed(c, p, m).core.Level() == m.core.Level()
  {
    hide Accessed;
    AccessedPaths(c, p, m);
  }

  lemma EndShows(c: Config, p: Program, m: State, o: Outcome)
    requires StacksAgree(c, m) && !m.core.spec.failed
    ensures ExecuteEnd(c, p, m, o).trace ==
              m.trace + if o.fault != 0 then [Entry(Address(p.stackTop), m.core.Level())] else []
  {
    hide Pop, Taint.Rollback, Taint.TaintAddress;
  }

  // ---------------------------------------------------------------------------------------------
  // Wrong paths and bypassed stores

  /** A mispredicted branch never goes where the emulator would; it goes the other way of the manual,
      except exactly when it is not taken and its displacement is a negative rel8. */
  lemma WrongPathIsWrong(c: Config, p: Program, m: State)
    requires Loggable(c, p) && ManualBranches(p) && StacksAgree(c, m) && m.status == Running
    requires Forks(c, p, Met(Paths(m))) && !Expires(c, p, Met(Paths(m)))
    ensures var pc, b, r := m.core.pc, BranchAt(p, Paths(m).path), Visit(c, p, m);
            && r.core.pc != p.exec(pc, m.core.cpu).next
            && (r.core.pc == pc + p.code(pc).Size() + (if b.taken then 0 else b.displacement)
                <==> b.taken || FaithfulDisplacement(p.code(pc).code))
            && r.core.Level() == m.core.Level() + 1
  {
    var seen, i := Arrive(c, p, m), p.code(m.core.pc);
    ForksRefines(c, p, seen);
    DecodedTarget(i.code, m.core.cpu.flags, RegValue(m.core.cpu.regs, C));
    DecodedOutcome(i.code, m.core.cpu.flags, RegValue(m.core.cpu.regs, C));
    var b := ManualBranch(i.code, m.core.cpu.flags, RegValue(m.core.cpu.regs, C));
    assert p.exec(m.core.pc, m.core.cpu) == BranchOutcome(m.core.pc, i, m.core.cpu, b);
    hide Decode, ManualBranch, FaithfulDisplacement, Execute, RollBack, BranchRegs;
  }

  /** Behind a store, the bypass hook gives the registers and flags after the instruction and the memory
      from before it. */
  lemma StoreBypassed(c: Config, p: Program, x: State)
    requires Loggable(c, p) && StacksAgree(c, x) && (c.tracking ==> x.tracker.inst.Some?)
    requires Layered(c, x.core) && x.core.spec.previousStore.None? && x.status == Running
    requires c.clause == Bpas && x.core.Level() < c.maxNesting
    requires var o := p.exec(x.core.pc, x.core.cpu); o.fault == 0 && !NoStore(o.accesses)
    ensures var o, r := p.exec(x.core.pc, x.core.cpu), Execute(c, p, x);
            && r.status == Running && r.core.cpu.mem == Stored(x.core.cpu.mem, o.accesses, false)
            && TakeBypass(c, r).core.cpu == Cpu(o.regs, o.flags, x.core.cpu.mem)
            && TakeBypass(c, r).core.Level() == x.core.Level() + 1
  {
    AccessedPaths(c, p, x);
    hide Accessed, Stored, NoStore, Write;
  }

  /** The step from `r` to `q` executes the instruction at hand on a new path with the memory `mem`. */
  predicate StartsPath(p: Program, r: State, q: State, mem: Mem) {
    var o, level := p.exec(r.core.pc, Cpu(r.core.cpu.regs, r.core.cpu.flags, mem)), r.core.Level() + 1;
    && q.trace == r.trace + [Entry(Pc(r.core.pc), level - 1)] + Addresses(o.accesses, level)
                  + (if o.fault == 0 then [] else [Entry(Address(p.stackTop), level)])
    && (o.fault == 0 ==>
          && q.core.Level() == level && q.core.pc == o.next
          && q.core.cpu == Cpu(o.regs, o.flags, Stored(mem, o.accesses, false)))
  }

  /** In a run, a store is followed by a path on which it did not happen: its first instruction executes on
      the memory that the store itself executed on. */
  lemma BypassedPathStarts(c: Config, p: Program, m: State)
    requires Loggable(c, p) && StacksAgree(c, m) && Layered(c, m.core) && c.clause == Bpas
    requires Visits(p, m) && m.core.spec.previousStore.None? && !Expires(c, p, Met(Paths(m)))
    requires var o := p.exec(m.core.pc, m.core.cpu); o.fault == 0 && !NoStore(o.accesses)
    requires var r := Step(c, p, m); Visits(p, r) && r.core.Level() < c.maxNesting && !Expires(c, p, Met(Paths(r)))
    ensures var o, r := p.exec(m.core.pc, m.core.cpu), Step(c, p, m);
            && r.core.cpu == Cpu(o.regs, o.flags, Stored(m.core.cpu.mem, o.accesses, false))
            && StartsPath(p, r, Step(c, p, r), m.core.cpu.mem)
  {
    hide Step, SpecStep, Stored, NoStore, Layered, NarrowStores, SingleStores, Expires, StartsPath;
    StoreStep(c, p, m);
    BypassStep(c, p, Step(c, p, m), m.core.cpu.mem);
  }

  lemma StoreStep(c: Config, p: Program, m: State)
    requires Loggable(c, p) && StacksAgree(c, m) && Layered(c, m.core) && c.clause == Bpas
    requires Visits(p, m) && m.core.spec.previousStore.None? && !Expires(c, p, Met(Paths(m)))
    requires var o := p.exec(m.core.pc, m.core.cpu); o.fault == 0 && !NoStore(o.accesses)
    ensures var o, r := p.exec(m.core.pc, m.core.cpu), Step(c, p, m);
            && Layered(c, r.core) && r.core.cpu == Cpu(o.regs, o.flags, Stored(m.core.cpu.mem, o.accesses, false))
            && Paths(r).beforeStore == Some(m.core.cpu.mem)
  {
    StepRefines(c, p, m);
    StepLayers(c, p, m);
    hide Step, Stored, NoStore, Layered, Expires;
  }

  lemma BypassStep(c: Config, p: Program, r: State, before: Mem)
    requires Loggable(c, p) && StacksAgree(c, r) && Layered(c, r.core) && c.clause == Bpas
    requires Visits(p, r) && Paths(r).beforeStore == Some(before)
    requires r.core.Level() < c.maxNesting && !Expires(c, p, Met(Paths(r)))
    ensures StartsPath(p, r, Step(c, p, r), before)
  {
    assert Bypasses(c, r.core);
    hide Step, Layered, SpecStep, Expires, NarrowStores, SingleStores, StacksAgree, StartsPath;
    StepRefines(c, p, r);
    BypassingStep(c, p, Paths(r));
    ExecutedStarts(c, p, r, Step(c, p, r), before);
  }

  lemma BypassingStep(c: Config, p: Program, w: World)
    requires WellFormed(p) && Meets(p, w) && BypassesStore(c, w) && !Expires(c, p, Met(w))
    ensures SpecStep(c, p, w) == Executed(c, p, WithoutStore(Met(w)))
  {
    hide Executed;
  }

  lemma ExecutedStarts(c: Config, p: Program, r: State, q: State, before: Mem)
    requires Paths(r).beforeStore == Some(before) && Paths(q) == Executed(c, p, WithoutStore(Met(Paths(r))))
    ensures StartsPath(p, r, q, before)
  {
    hide Stored, NoStore;
    assert Paths(q).Depth() == q.core.Level();
    var o, level := p.exec(r.core.pc, Cpu(r.core.cpu.regs, r.core.cpu.flags, before)), r.core.Level() + 1;
    var shown := r.trace + [Entry(Pc(r.core.pc), level - 1)] + Addresses(o.accesses, level);
    assert shown + [] == shown;
  }

  // ---------------------------------------------------------------------------------------------
  // The window

  ghost predicate Faithful(c: Config, p: Program) {
    Loggable(c, p) && (c.clause == Cond ==> ManualBranches(p) && FaithfulDisplacements(p))
  }

  /** On a path whose window has expired nothing executes any more: a branch may be passed without a fork,
      a store that waits to be bypassed is kept, and anything else ends the path. */
  lemma ExpiredStep(c: Config, p: Program, m: State)
    requires Faithful(c, p) && StacksAgree(c, m) && Layered(c, m.core) && Visits(p, m) && m.core.Level() > 0
    requires m.core.spec.window >= c.maxWindow || p.code(m.core.pc).IsBarrier()
    ensures var w, r := Met(Paths(m)), Step(c, p, m);
            && r.trace == m.trace + [Entry(Pc(m.core.pc), m.core.Level())]
            && (if Forks(c, p, w) then Paths(r) == w.(path := RightPath(p, w.path), reentry := true)
                else if BypassesStore(c, w) then Paths(r) == w.(beforeStore := None, reentry := true)
                else Paths(r) == Resume(w))
  {
    StepRefines(c, p, m);
    hide Step, RightPath;
  }

  /** A path of nesting `level` has not ended within `n` steps. */
  ghost predicate Lasts(c: Config, p: Program, m: State, n: nat, level: nat)
    requires StacksAgree(c, m) && WellFormed(p)
  {
    forall k | 0 <= k <= n :: Run(c, p, m, k).core.Level() >= level
  }

  lemma ExpiredStepLasts(c: Config, p: Program, m: State)
    requires Faithful(c, p) && StacksAgree(c, m) && Layered(c, m.core) && m.status == Running && m.core.Level() > 0
    requires m.core.spec.window >= c.maxWindow && Step(c, p, m).core.Level() >= m.core.Level()
    ensures var r := Step(c, p, m);
            && r.status == Running && r.core.Level() == m.core.Level() && r.core.spec.window >= c.maxWindow
            && r.core.cpu.mem == m.core.cpu.mem && r.core.cpu.flags == m.core.cpu.flags
            && r.trace == m.trace + [Entry(Pc(m.core.pc), m.core.Level())] && Layered(c, r.core)
            && m.core.Level() < c.maxNesting && c.clause != Seq
            && (c.clause == Bpas ==> m.core.spec.previousStore.Some? && r.core.spec.previousStore.None?)
  {
    StepLayers(c, p, m);
    hide Step, SpecStep, Layered, Stored, SnapshotsHold;
    StepRefines(c, p, m);
    ExpiredPathLasts(c, p, Paths(m));
    hide Loggable, ManualBranches, FaithfulDisplacements;
  }

  lemma ExpiredPathLasts(c: Config, p: Program, w: World)
    requires WellFormed(p) && (c.clause == Cond ==> ManualBranches(p)) && w.status == Running && w.Depth() > 0
    requires w.path.age >= c.maxWindow && SpecStep(c, p, w).Depth() >= w.Depth()
    ensures var v := SpecStep(c, p, w);
            && v.status == Running && v.Depth() == w.Depth() && v.path.age >= c.maxWindow
            && v.path.cpu.mem == w.path.cpu.mem && v.path.cpu.flags == w.path.cpu.flags
            && v.trace == w.trace + [Entry(Pc(w.path.pc), w.Depth())]
            && w.Depth() < c.maxNesting && c.clause != Seq
            && (c.clause == Bpas ==> w.beforeStore.Some? && v.beforeStore.None?)
  {
    if c.clause == Cond { BranchFlags(p, w.path); BranchFlags(p, Met(w).path); }
    hide Executed, BranchAt, RightPath, WellFormed;
  }

  lemma BranchFlags(p: Program, path: Path)
    requires WellFormed(p) && ManualBranches(p)
    ensures BranchAt(p, path).Branch? ==> RightPath(p, path).cpu.flags == path.cpu.flags
  {}

  /** After `n` steps, memory and flags are the same, and only program counters were shown. */
  ghost predicate OnlyPassed(m: State, r: State, n: nat) {
    && r.core.Level() == m.core.Level() && r.core.cpu.mem == m.core.cpu.mem && r.core.cpu.flags == m.core.cpu.flags
    && |r.trace| == |m.trace| + n && r.trace[..|m.trace|] == m.trace
    && forall i :: |m.trace| <= i < |r.trace| ==> r.trace[i].obs.Pc? && r.trace[i].level == m.core.Level()
  }

  /** Past its window, as long as it lasts, a path changes neither memory nor flags and shows nothing but
      program counters; it ends at once at the nesting bound, and under store bypassing after one step. */
  lemma {:induction false} NothingExecutesPastWindow(c: Config, p: Program, m: State, n: nat)
    requires Faithful(c, p) && StacksAgree(c, m) && Layered(c, m.core) && m.status == Running && m.core.Level() > 0
    requires m.core.spec.window >= c.maxWindow && Lasts(c, p, m, n, m.core.Level())
    ensures var r := Run(c, p, m, n);
            && r.status == Running && r.core.spec.window >= c.maxWindow && Layered(c, r.core) && OnlyPassed(m, r, n)
            && (n > 0 ==> c.clause != Seq && m.core.Level() < c.maxNesting)
            && (c.clause == Bpas ==> n <= 1 && (n == 1 ==> r.core.spec.previousStore.None?))
  {
    hide Step, Layered, StacksAgree, NarrowStores, SingleStores, ManualBranches, FaithfulDisplacements;
    if n > 0 {
      NothingExecutesPastWindow(c, p, m, n - 1);
      var before := Run(c, p, m, n - 1);
      assert Step(c, p, before).core.Level() >= m.core.Level();
      ExpiredStepLasts(c, p, before);
    }
  }

  /** The age of the path of a nesting level. */
  function AgeAt(m: State, level: nat): nat
    requires level <= m.core.Level()
  {
    if level == m.core.Level() then m.core.spec.window else m.core.spec.checkpoints[level].window
  }

  /** The path at the top executes its instruction, or forks at it. */
  predicate Proceeds(c: Config, p: Program, m: State) {
    Visits(p, m) && !Expires(c, p, Met(Paths(m)))
  }

  /** The number of instructions that the path of a nesting level executes within `n` steps. */
  function Executions(c: Config, p: Program, m: State, n: nat, level: nat): nat
    requires StacksAgree(c, m) && WellFormed(p)
  {
    if n == 0 then 0
    else
      var before := Run(c, p, m, n - 1);
      Executions(c, p, m, n - 1, level) + if before.core.Level() == level && Proceeds(c, p, before) then 1 else 0
  }

  lemma StepAges(c: Config, p: Program, m: State, level: nat)
    requires Faithful(c, p) && StacksAgree(c, m) && Layered(c, m.core)
    requires 0 < level <= m.core.Level() && level <= Step(c, p, m).core.Level()
    ensures Layered(c, Step(c, p, m).core)
    ensures AgeAt(Step(c, p, m), level) == AgeAt(m, level) + if level == m.core.Level() && Visits(p, m) then 1 else 0
    ensures level == m.core.Level() && Proceeds(c, p, m) ==> AgeAt(m, level) < c.maxWindow
  {
    hide Step, SpecStep, Layered, NarrowStores, SingleStores, ManualBranches, FaithfulDisplacements, Expires;
    StepLayers(c, p, m);
    StepRefines(c, p, m);
    var w, v := Paths(m), Paths(Step(c, p, m));
    assert AgeAt(m, level) == PathAt(w, level).age && AgeAt(Step(c, p, m), level) == PathAt(v, level).age;
    SpecStepAges(c, p, w, level);
  }

  /** A path ages by one whenever it meets an instruction. */
  lemma SpecStepAges(c: Config, p: Program, w: World, level: nat)
    requires WellFormed(p) && 0 < level <= w.Depth() && level <= SpecStep(c, p, w).Depth()
    ensures PathAt(SpecStep(c, p, w), level).age ==
              PathAt(w, level).age + if level == w.Depth() && Meets(p, w) then 1 else 0
    ensures level == w.Depth() && Meets(p, w) && !Expires(c, p, Met(w)) ==> PathAt(w, level).age < c.maxWindow
  {
    hide Speculated, WellFormed;
    if Meets(p, w) { SpeculationKeepsAges(c, p, Met(w), level); }
  }

  lemma SpeculationKeepsAges(c: Config, p: Program, w: World, level: nat)
    requires WellFormed(p) && 0 < level <= w.Depth() && level <= Speculated(c, p, w).Depth()
    ensures PathAt(Speculated(c, p, w), level).age == PathAt(w, level).age
  {
    hide Executed, Forks, BranchAt, WellFormed, Expires;
    ExecutedAges(c, p, w.(beforeStore := None));
    if w.beforeStore.Some? { ExecutedAges(c, p, WithoutStore(w)); }
  }

  lemma ExecutedAges(c: Config, p: Program, w: World)
    requires w.Depth() > 0
    ensures var v := Executed(c, p, w);
            || (v.suspended == w.suspended && v.path.age == w.path.age)
            || (v.suspended == Resume(w).suspended && v.path == Resume(w).path)
  {
    hide Stored, NoStore;
  }

  function PathAt(w: World, level: nat): Path
    requires level <= w.Depth()
  {
    if level == w.Depth() then w.path else w.suspended[level]
  }

  /** A speculative path executes no more instructions than its window has left. */
  lemma {:induction false} WindowBoundsPath(c: Config, p: Program, m: State, n: nat)
    requires Faithful(c, p) && StacksAgree(c, m) && Layered(c, m.core) && m.core.Level() > 0
    requires Lasts(c, p, m, n, m.core.Level())
    ensures var done, level := Executions(c, p, m, n, m.core.Level()), m.core.Level();
            && Layered(c, Run(c, p, m, n).core) && AgeAt(Run(c, p, m, n), level) >= AgeAt(m, level) + done
            && (done > 0 ==> AgeAt(m, level) + done <= c.maxWindow)
  {
    hide Step, Layered, StacksAgree, NarrowStores, SingleStores, ManualBranches, FaithfulDisplacements, Proceeds, AgeAt;
    if n > 0 {
      WindowBoundsPath(c, p, m, n - 1);
      var before := Run(c, p, m, n - 1);
      assert before.core.Level() >= m.core.Level() && Step(c, p, before).core.Level() >= m.core.Level();
      StepAges(c, p, before, m.core.Level());
      ProceedsVisits(c, p, before);
    }
  }

  lemma ProceedsVisits(c: Config, p: Program, m: State)
    ensures Proceeds(c, p, m) ==> Visits(p, m)
  {}
}
