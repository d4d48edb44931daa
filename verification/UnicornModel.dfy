/** The contract model as an object: the hooks in the order in which the dispatcher calls them, the
emulator's run, and the state machine that re-enters it after every stop. */
module UnicornModels {
  import opened Common
  import opened BranchDecoder
  import opened Instructions
  import opened Taint
  import opened TaintTracking
  import opened ContractModel
  import opened Speculators
  import opened Runs
  import opened Termination

  /** The state after the instruction hooks, when the emulator has not stopped yet. */
  function Hooked(c: Config, p: Program, seen: State): (r: State)
    requires StacksAgree(c, seen) && seen.status == Running && ValidEncoding(p.code(seen.core.pc).code)
    requires c.tracking ==> seen.tracker.inst.Some?
    ensures StacksAgree(c, r) && (!Mispredicts(c, p, seen.core) ==> r.tracker.inst == seen.tracker.inst)
  {
    if Mispredicts(c, p, seen.core) then TakeWrongPath(c, p, seen) else TakeBypass(c, seen)
  }

  /** The hooks change the core as the speculator does, and checkpoint the taints with it. */
  lemma HookedParts(c: Config, p: Program, seen: State)
    requires StacksAgree(c, seen) && seen.status == Running && ValidEncoding(p.code(seen.core.pc).code)
    requires c.tracking ==> seen.tracker.inst.Some?
    ensures var redirected := Mispredicts(c, p, seen.core);
            Hooked(c, p, seen) == seen.(
              core := Speculated(c, p, seen.core),
              reentry := seen.reentry && !redirected,
              tracker := if c.tracking && redirected then TakeCheckpoint(seen.tracker, true)
                         else if c.tracking && Bypasses(c, seen.core) then TakeCheckpoint(seen.tracker, false)
                         else seen.tracker)
  {
    hide Mispredict, BypassStore, ForgetStore, TakeCheckpoint;
  }

  /** Re-entering the fault handler in speculation only rolls back. */
  predicate ReentersHandler(p: Program, m: State) {
    m.reentry && m.core.pc != p.start && m.core.pc == p.faultHandler && m.core.spec.inSpeculation
  }

  /** The emulator stopped in state `now` during the step that began at `last`. */
  ghost predicate StopsAt(c: Config, p: Program, last: State, now: State, fault: nat)
    requires WellFormed(p)
  {
    && StacksAgree(c, last) && last.status == Running && StacksAgree(c, now)
    && if IsExit(p, last.core.pc) then fault == 0 && now == last
       else
         && !ReentersHandler(p, last)
         && var seen := Arrive(c, p, last);
            var ready := Hooked(c, p, seen);
            if MustStop(c, p, seen.core) then fault == 0 && now == ready
            else
              && !Mispredicts(c, p, seen.core)
              && fault == p.exec(ready.core.pc, ready.core.cpu).fault != 0
              && now == Accessed(c, p, ready) && !now.core.spec.failed
  }

  lemma StopsAtExit(c: Config, p: Program, m: State)
    requires WellFormed(p) && StacksAgree(c, m) && m.status == Running && IsExit(p, m.core.pc)
    ensures StopsAt(c, p, m, m, 0)
  {}

  /** What the state machine does next completes the step. */
  lemma StopCompletesStep(c: Config, p: Program, last: State, now: State, fault: nat)
    requires WellFormed(p) && StopsAt(c, p, last, now, fault)
    ensures StacksAgree(c, now)
    ensures fault == 0 && !now.core.spec.inSpeculation ==> Step(c, p, last) == now.(status := Halted)
    ensures fault == 0 && now.core.spec.inSpeculation ==> Step(c, p, last) == RollBack(c, now)
    ensures fault != 0 && now.core.spec.inSpeculation ==> Step(c, p, last) == RollBack(c, ShowFault(c, p, now))
    ensures fault != 0 && !now.core.spec.inSpeculation ==>
              Step(c, p, last) == EnterHandler(p, ShowFault(c, p, now), fault)
  {
    hide Accessed, ShowFault, EnterHandler, Pop, ObserveInstruction, Mispredict, BypassStore, ForgetStore, WindowsGrow;
  }

  /** Re-entries that end or shorten the exploration without running the emulator. */
  lemma ReentryStep(c: Config, p: Program, m: State)
    requires WellFormed(p) && StacksAgree(c, m) && m.status == Running
    ensures m.core.spec.inSpeculation && (IsExit(p, m.core.pc) || ReentersHandler(p, m)) ==>
              Step(c, p, m) == RollBack(c, m)
    ensures !m.core.spec.inSpeculation && IsExit(p, m.core.pc) ==> Step(c, p, m) == m.(status := Halted)
  {
    hide RollBack, Visit;
  }

  lemma RunningBeforeEnd(c: Config, p: Program, m: State, n: nat, end: nat)
    requires StacksAgree(c, m) && WellFormed(p)
    requires Run(c, p, m, n).status == Running && Run(c, p, m, end).status != Running
    ensures n < end
  {
    if end <= n { FinishedStays(c, p, m, end, n); }
  }

  class UnicornModel {
    const c: Config
    const p: Program
    const emulator: Emulator
    const tracker: TaintTracker
    const tracer: CTTracer
    const speculator: UnicornSpeculator
    var hadArchFault: bool
    var previousContext: (Registers, Flags)
    var status: Status
    ghost var reentry: bool

    ghost function State(): State
      reads this, emulator, tracker, tracer, speculator
      requires speculator.emulator == emulator
    {
      ContractModel.State(speculator.Core(), reentry, tracker.Model(), tracer.trace, hadArchFault, status)
    }

    ghost predicate Wired() {
      && WellFormed(p)
      && speculator.c == c && speculator.emulator == emulator && speculator.tracker == tracker
      && tracer.tracker == tracker && tracker.enabled == c.tracking
    }

    ghost predicate Valid()
      reads this, emulator, tracker, tracer, speculator
    {
      Wired() && StacksAgree(c, State())
    }

    constructor (c: Config, p: Program, cpu: Cpu)
      requires WellFormed(p)
      ensures Valid() && this.c == c && this.p == p && State() == Initial(p, cpu)
      ensures fresh(emulator) && fresh(tracker) && fresh(tracer) && fresh(speculator)
    {
      this.c, this.p := c, p;
      var emulator := new Emulator(cpu, p.start);
      var tracker := new TaintTracker(c.tracking);
      this.emulator, this.tracker := emulator, tracker;
      tracer := new CTTracer(tracker);
      speculator := new UnicornSpeculator(c, emulator, tracker);
      hadArchFault, status, reentry, previousContext := false, Running, true, (map[], 0);
    }

    /** The state with the context that was saved before the current instruction. */
    ghost function Patched(): State
      reads this, emulator, tracker, tracer, speculator
      requires speculator.emulator == emulator
    {
      var m := State();
      m.(core := m.core.(cpu := m.core.cpu.(regs := previousContext.0, flags := previousContext.1)))
    }

    /** The taint tracker and the tracer see the instruction first. */
    method ShowInstruction()
      requires Valid()
      modifies tracker, tracer
      ensures State() == ObserveInstruction(c, p, old(State()))
    {
      tracker.TrackInstruction(p.code(emulator.pc));
      tracer.ObserveInstruction(emulator.pc, speculator.Nesting());
    }

    /** The hooks before an instruction: taint tracker, tracer, speculator. */
    method InstructionCallback() returns (stop: bool, redirected: bool)
      requires Valid() && status == Running
      modifies this`previousContext, this`reentry, emulator, tracker, tracer, speculator
      ensures Valid()
      ensures var seen := Arrive(c, p, old(State()));
              && stop == MustStop(c, p, seen.core) && redirected == Mispredicts(c, p, seen.core)
              && State() == Hooked(c, p, seen)
              && (redirected ==> !reentry)
              && (!redirected ==> previousContext == (emulator.cpu.regs, emulator.cpu.flags))
    {
      hide Taint.TrackInstruction, TaintPc, Mispredicts, Mispredict, MustStop;
      ghost var seen := Arrive(c, p, State());
      previousContext := (emulator.cpu.regs, emulator.cpu.flags);
      ShowInstruction();
      assert State() == seen.(core := State().core);
      stop, redirected := speculator.HandleInstruction(p);
      if redirected {
        reentry := false;
      }
      HookedParts(c, p, seen);
    }

    /** The hooks before a memory access: taint tracker, speculator, tracer; then the access. */
    method AccessMemory(a: Access, performed: bool)
      requires Wired() && WellFormedAccess(a) && (c.tracking ==> tracker.instruction.Some?)
      modifies emulator`cpu, tracker, tracer, speculator
      ensures speculator.Core() == Access1(c, old(speculator.Core()), a, performed)
      ensures tracker.Model() ==
                if c.tracking then TaintAddress(TrackAccess(old(tracker.Model()), a.addr, a.size, a.write))
                                 else old(tracker.Model())
      ensures tracer.trace == old(tracer.trace) + [Entry(Address(a.addr), old(speculator.Nesting()))]
      ensures speculator.Nesting() == old(speculator.Nesting()) && (c.tracking ==> tracker.instruction.Some?)
    {
      tracker.TrackMemoryAccess(a.addr, a.size, a.write);
      speculator.HandleMemAccess(a);
      tracer.ObserveMemAccess(a.addr, speculator.Nesting());
      if a.write && performed {
        emulator.MemWrite(a.addr, a.bytes);
      }
    }

    /** All accesses of one instruction; a faulting instruction does not perform its last one. */
    method AccessAll(accesses: seq<Access>, faulting: bool)
      requires Wired() && (c.tracking ==> tracker.instruction.Some?)
      requires forall k :: 0 <= k < |accesses| ==> WellFormedAccess(accesses[k])
      modifies emulator`cpu, tracker, tracer, speculator
      ensures State() == Observed(c, old(State()), RunAccesses(c, old(speculator.Core()), accesses, faulting), accesses)
      ensures tracer.trace == old(tracer.trace) + Addresses(accesses, old(speculator.Nesting()))
    {
      hide Access1, TaintAddress, Taint.TrackAccess, StacksAgree, WellFormed;
      var k := 0;
      ghost var level := speculator.Nesting();
      while k < |accesses|
        invariant 0 <= k <= |accesses| && Wired() && speculator.Nesting() == level
        invariant c.tracking ==> tracker.instruction.Some?
        invariant RunAccesses(c, speculator.Core(), accesses[k..], faulting) ==
                    RunAccesses(c, old(speculator.Core()), accesses, faulting)
        invariant c.tracking ==>
                    TrackAccesses(tracker.Model(), accesses[k..]) == TrackAccesses(old(tracker.Model()), accesses)
        invariant !c.tracking ==> tracker.Model() == old(tracker.Model())
        invariant tracer.trace == old(tracer.trace) + Addresses(accesses[..k], level)
      {
        AccessMemory(accesses[k], !(faulting && k == |accesses| - 1));
        assert accesses[k..][0] == accesses[k] && accesses[k..][1..] == accesses[k + 1..];
        k := k + 1;
      }
      assert accesses[..k] == accesses;
    }

    /** The emulator executes one instruction; a fault leaves the registers of the emulator in the
        state it reached. */
    method EmulateInstruction() returns (fault: nat)
      requires Valid() && (c.tracking ==> tracker.instruction.Some?) && status == Running
      requires previousContext == (emulator.cpu.regs, emulator.cpu.flags)
      modifies this`reentry, this`status, emulator, tracker, tracer, speculator
      ensures Valid()
      ensures fault == p.exec(old(emulator.pc), old(emulator.cpu)).fault
      ensures status == Running || status == Error
      ensures status == Running && fault == 0 ==> !reentry
      ensures tracer.trace == old(tracer.trace) + Addresses(p.exec(old(emulator.pc), old(emulator.cpu)).accesses,
                                                            old(speculator.Nesting()))
      ensures status == Error <==> Accessed(c, p, old(State())).core.spec.failed
      ensures status == Error || fault == 0 ==> State() == Execute(c, p, old(State()))
      ensures status != Error && fault != 0 ==> Patched() == Accessed(c, p, old(State()))
    {
      var o := p.exec(emulator.pc, emulator.cpu);
      fault := o.fault;
      ghost var before := State();
      AccessAll(o.accesses, o.fault != 0);
      assert State() == Accessed(c, p, before);
      RunAccessesKeeps(c, before.core, o.accesses, o.fault != 0);
      hide RunAccesses, TrackAccesses, Addresses, Accessed, WellFormed;
      if speculator.failed {
        status := Error;
        return;
      }
      emulator.cpu := emulator.cpu.(regs := o.regs, flags := o.flags);
      if fault == 0 {
        emulator.pc := o.next;
        reentry := false;
      }
    }

    /** A fault is shown on the trace; it gives the address to continue at, if any. */
    method HandleFault(fault: nat) returns (next: Option<int>)
      requires Valid() && status == Running
      modifies this`hadArchFault, this`status, tracker`pendingTaint, tracer
      ensures Valid() && (next.Some? ==> status == Running)
      ensures var shown := ShowFault(c, p, old(State()));
              if shown.core.spec.inSpeculation then State() == shown && next.None?
              else if old(hadArchFault) || fault !in p.handledFaults then
                State() == EnterHandler(p, shown, fault) && status == Error
              else State() == shown.(hadFault := true) && next == Some(p.faultHandler)
    {
      tracer.ObserveMemAccess(p.stackTop, speculator.Nesting());
      if speculator.inSpeculation { return None; }
      if hadArchFault {
        status := Error;
        return None;
      }
      hadArchFault := true;
      if fault in p.handledFaults { return Some(p.faultHandler); }
      status := Error;
      return None;
    }

    /** One instruction; the emulator stops at a stop request, an error or a fault. */
    method EmulateOne() returns (stopped: bool, fault: nat)
      requires Valid() && status == Running && !IsExit(p, emulator.pc) && !ReentersHandler(p, State())
      modifies this`previousContext, this`reentry, this`status, emulator, tracker, tracer, speculator
      ensures Valid() && (status == Running || (status == Error && stopped))
      ensures status == Error || !stopped ==> State() == Step(c, p, old(State()))
      ensures !stopped ==> fault == 0 && !reentry
      ensures status == Running && stopped ==>
                StopsAt(c, p, old(State()), if fault != 0 then Patched() else State(), fault)
    {
      hide Execute, Accessed, Pop, Mispredict, BypassStore, ForgetStore, ObserveInstruction, Mispredicts, MustStop;
      var stop, redirected := InstructionCallback();
      if stop { return true, 0; }
      if redirected { return false, 0; }
      fault := EmulateInstruction();
      stopped := status == Error || fault != 0;
    }

    /** The emulator runs until the exit or until it stops. */
    method EmuStart(ghost first: State, ghost before: nat, ghost end: nat) returns (fault: nat, ghost n: nat)
      requires Valid() && status == Running && StacksAgree(c, first)
      requires State() == Run(c, p, first, before) && Run(c, p, first, end).status != Running
      requires !IsExit(p, emulator.pc) ==> !ReentersHandler(p, State())
      modifies this`previousContext, this`reentry, this`status, emulator, tracker, tracer, speculator
      ensures Valid() && (status == Running || status == Error) && before <= n
      ensures status == Error ==> State() == Run(c, p, first, n + 1)
      ensures status == Running ==> StopsAt(c, p, Run(c, p, first, n), if fault != 0 then Patched() else State(), fault)
    {
      hide Step, StopsAt, StacksAgree, WellFormed;
      fault, n := 0, before;
      while !IsExit(p, emulator.pc)
        invariant Valid() && status == Running && fault == 0 && before <= n && State() == Run(c, p, first, n)
        invariant !IsExit(p, emulator.pc) ==> !ReentersHandler(p, State())
        decreases end - n
      {
        RunningBeforeEnd(c, p, first, n, end);
        var stopped;
        stopped, fault := EmulateOne();
        if stopped { return; }
        n := n + 1;
      }
      StopsAtExit(c, p, State());
    }

    /** Restore the context from before the faulting instruction. */
    method PatchContextAfterFault()
      requires Wired()
      modifies emulator`cpu
      ensures State() == old(Patched())
    {
      emulator.cpu := emulator.cpu.(regs := previousContext.0, flags := previousContext.1);
    }

    /** Roll back and give the address to resume at. */
    method Rollback() returns (pc: int)
      requires Valid() && speculator.inSpeculation
      modifies this`reentry, emulator, tracker, speculator
      ensures Valid() && State() == RollBack(c, old(State())) && pc == emulator.pc && reentry && status == old(status)
    {
      pc := speculator.Rollback();
      emulator.pc, reentry := pc, true;
    }

    /** What follows a stop of the emulator: a fault is handled, and speculation is rolled back. */
    method AfterStop(fault: nat, ghost last: State) returns (pc: int)
      requires Valid() && status == Running
      requires StopsAt(c, p, last, if fault != 0 then Patched() else State(), fault)
      modifies this`hadArchFault, this`status, this`reentry, emulator, tracker, tracer, speculator
      ensures Valid() && State() == Step(c, p, last)
      ensures status == Running ==> reentry && pc == emulator.pc
    {
      hide Step, StopsAt, RollBack, TaintAddress, WellFormed, StacksAgree;
      pc := emulator.pc;
      ghost var now := if fault != 0 then Patched() else State();
      StopCompletesStep(c, p, last, now, fault);
      if fault != 0 {
        PatchContextAfterFault();
        var next := HandleFault(fault);
        if status == Error { return; }
        if next.Some? && next.value != p.exit {
          pc := next.value;
          emulator.pc, reentry := pc, true;
          return;
        }
      }
      if !speculator.inSpeculation {
        status := Halted;
        return;
      }
      pc := Rollback();
    }

    /** The state machine: re-enter the emulator until the exit is reached outside speculation. */
    method RunStateMachine()
      requires Valid() && ForwardOnly(p) && status == Running && reentry && emulator.pc == p.start
      modifies this, emulator, tracker, tracer, speculator
      ensures Valid() && State() == Complete(c, p, old(State()))
    {
      hide Complete, StacksAgree, Step, RollBack, StopsAt, WellFormed;
      ghost var first := State();
      ghost var end := Halts(c, p, first);
      ghost var n := 0;
      var pc := p.start;
      while status == Running
        invariant Valid() && State() == Run(c, p, first, n)
        invariant status == Running ==> reentry && pc == emulator.pc
        decreases status == Running, if n < end then end - n else 0
      {
        RunningBeforeEnd(c, p, first, n, end);
        ReentryStep(c, p, State());
        if pc != p.start && IsExit(p, pc) && !speculator.inSpeculation {
          status := Halted;
        } else if pc != p.start && (IsExit(p, pc) || pc == p.faultHandler) && speculator.inSpeculation {
          pc := Rollback();
        } else {
          var fault;
          fault, n := EmuStart(first, n, end);
          if status == Running {
            pc := AfterStop(fault, Run(c, p, first, n));
          }
        }
        n := n + 1;
      }
      ghost var k := n;
      if k <= end { FinishedStays(c, p, first, k, end); } else { FinishedStays(c, p, first, end, k); }
    }
  }
}
