/** On forward-only code the state machine halts at every nesting bound and window, even though the
number of paths it explores is exponential. */
module Termination {
  import opened BranchDecoder
  import opened Instructions
  import opened ContractModel
  import opened Runs
  import opened Transparency

  /** Every instruction before the exit moves forward, and so does every branch target the decoder
      finds. */
  ghost predicate ForwardOnly(p: Program)
    requires WellFormed(p)
  {
    && (forall pc, cpu :: pc < p.exit && p.exec(pc, cpu).fault == 0 ==> pc < p.exec(pc, cpu).next)
    && (forall pc, f, rcx :: 0 <= Decode(p.code(pc).code, f, rcx).target)
  }

  function Pow3(n: nat): (r: nat)
    ensures r >= 1
  {
    if n == 0 then 1 else 3 * Pow3(n - 1)
  }

  lemma {:induction false} Pow3Grows(a: nat, b: nat)
    requires a < b
    ensures 3 * Pow3(a) <= Pow3(b)
    decreases b
  {
    if a < b - 1 { Pow3Grows(a, b - 1); }
  }

  function Distance(p: Program, pc: int): nat {
    if IsExit(p, pc) then 0 else p.exit - pc
  }

  /** Weight of a path that continues at an address. */
  function PathWeight(p: Program, pc: int): (w: nat)
    ensures w >= 1
  {
    Pow3(Distance(p, pc))
  }

  function PendingWeight(p: Program, cs: seq<Checkpoint>): nat
    decreases |cs|
  {
    if |cs| == 0 then 0 else PendingWeight(p, cs[..|cs| - 1]) + PathWeight(p, cs[|cs| - 1].next)
  }

  /** The running path, counted twice while a store waits to be bypassed, and all paths that wait for
      a rollback. */
  function CoreWeight(p: Program, k: Core): nat {
    (if k.spec.previousStore.Some? then 2 else 1) * PathWeight(p, k.pc) + PendingWeight(p, k.spec.checkpoints)
  }

  lemma ForwardLighter(p: Program, from: int, to: int)
    requires from < to && !IsExit(p, from)
    ensures 3 * PathWeight(p, to) <= PathWeight(p, from)
  {
    Pow3Grows(Distance(p, to), Distance(p, from));
  }

  lemma PushAdds(p: Program, cs: seq<Checkpoint>, top: Checkpoint)
    ensures PendingWeight(p, cs + [top]) == PendingWeight(p, cs) + PathWeight(p, top.next)
  {
    assert (cs + [top])[..|cs|] == cs;
  }

  /** A rollback drops the running path. */
  lemma PopLighter(p: Program, k: Core)
    requires |k.spec.checkpoints| > 0 && |k.spec.logs| > 0
    ensures CoreWeight(p, Pop(k)) == PendingWeight(p, k.spec.checkpoints)
    ensures CoreWeight(p, Pop(k)) < CoreWeight(p, k)
  {}

  /** A misprediction trades one path for two that start later. */
  lemma MispredictLighter(c: Config, p: Program, k: Core)
    requires WellFormed(p) && ForwardOnly(p) && !IsExit(p, k.pc) && k.spec.previousStore.None?
    requires Mispredicts(c, p, k)
    ensures CoreWeight(p, Mispredict(p, k)) < CoreWeight(p, k)
    ensures PendingWeight(p, Mispredict(p, k).spec.checkpoints) < CoreWeight(p, k)
  {
    var r := Mispredict(p, k);
    var top := r.spec.checkpoints[k.Level()];
    assert Decode(p.code(k.pc).code, k.cpu.flags, RegValue(k.cpu.regs, C)).target >= 0;
    assert k.pc < r.pc && k.pc < top.next;
    ForwardLighter(p, k.pc, r.pc);
    ForwardLighter(p, k.pc, top.next);
    PushAdds(p, k.spec.checkpoints, top);
    hide Decode, PathWeight;
  }

  /** One fault at most is handled; otherwise the paths get lighter or the machine stops. */
  ghost predicate Progress(p: Program, m: State, r: State) {
    && (m.hadFault ==> r.hadFault)
    && (r.status == Running && r.hadFault == m.hadFault ==> CoreWeight(p, r.core) < CoreWeight(p, m.core))
  }

  lemma EndProgresses(c: Config, p: Program, m: State, o: Outcome)
    requires StacksAgree(c, m) && m.status == Running && !IsExit(p, m.core.pc)
    requires o.fault == 0 ==> m.core.pc < o.next
    ensures var r := ExecuteEnd(c, p, m, o);
            && (m.hadFault ==> r.hadFault)
            && (r.status == Running && r.hadFault == m.hadFault ==>
                  CoreWeight(p, r.core) < PathWeight(p, m.core.pc) + PendingWeight(p, m.core.spec.checkpoints))
  {
    hide PathWeight, PendingWeight;
    if o.fault == 0 {
      ForwardLighter(p, m.core.pc, o.next);
    } else if m.core.Level() > 0 {
      PopLighter(p, m.core);
    }
  }

  lemma ExecuteProgresses(c: Config, p: Program, m: State)
    requires WellFormed(p) && ForwardOnly(p) && StacksAgree(c, m) && (c.tracking ==> m.tracker.inst.Some?)
    requires !IsExit(p, m.core.pc) && m.status == Running && m.core.spec.previousStore.None?
    ensures Progress(p, m, Execute(c, p, m))
  {
    hide PathWeight, PendingWeight;
    var o := p.exec(m.core.pc, m.core.cpu);
    RunAccessesKeeps(c, m.core, o.accesses, o.fault != 0);
    EndProgresses(c, p, Accessed(c, p, m), o);
    hide ExecuteEnd;
  }

  lemma BypassWeighs(c: Config, m: State)
    requires StacksAgree(c, m) && m.status == Running
    ensures TakeBypass(c, m).core.spec.previousStore.None? && TakeBypass(c, m).core.pc == m.core.pc
    ensures forall p :: CoreWeight(p, TakeBypass(c, m).core) <= CoreWeight(p, m.core)
  {
    if Bypasses(c, m.core) {
      var top := TakeBypass(c, m).core.spec.checkpoints[m.core.Level()];
      forall p { PushAdds(p, m.core.spec.checkpoints, top); }
    }
  }

  lemma WrongPathProgresses(c: Config, p: Program, m: State)
    requires WellFormed(p) && ForwardOnly(p) && StacksAgree(c, m) && m.status == Running
    requires !IsExit(p, m.core.pc) && Mispredicts(c, p, m.core) && m.core.spec.previousStore.None?
    ensures Progress(p, m, TakeWrongPath(c, p, m)) && Progress(p, m, RollBack(c, TakeWrongPath(c, p, m)))
  {
    MispredictLighter(c, p, m.core);
    PopLighter(p, Mispredict(p, m.core));
    hide PathWeight, PendingWeight, CoreWeight;
  }

  lemma VisitProgresses(c: Config, p: Program, m: State)
    requires WellFormed(p) && ForwardOnly(p) && StacksAgree(c, m)
    requires !IsExit(p, m.core.pc) && m.status == Running
    ensures Progress(p, m, Visit(c, p, m))
  {
    hide Execute, Pop, Mispredict, PathWeight, PendingWeight;
    var seen := Arrive(c, p, m);
    assert CoreWeight(p, seen.core) == CoreWeight(p, m.core) && seen.hadFault == m.hadFault;
    hide CoreWeight, Mispredicts;
    if Mispredicts(c, p, seen.core) {
      WrongPathProgresses(c, p, seen);
    } else {
      BypassWeighs(c, seen);
      var ready := TakeBypass(c, seen);
      if MustStop(c, p, seen.core) { PopLighter(p, ready.core); }
      else { ExecuteProgresses(c, p, ready); }
    }
    hide BypassStore;
  }

  /** Every step of a running machine makes progress. */
  lemma StepProgresses(c: Config, p: Program, m: State)
    requires WellFormed(p) && ForwardOnly(p) && StacksAgree(c, m) && m.status == Running
    ensures Progress(p, m, Step(c, p, m))
  {
    if m.core.Level() > 0 { PopLighter(p, m.core); }
    if !IsExit(p, m.core.pc) { VisitProgresses(c, p, m); }
    hide CoreWeight, Visit, Pop;
  }

  // ---------------------------------------------------------------------------------------------
  // Complete runs

  /** Run to the end. */
  function Complete(c: Config, p: Program, m: State): (r: State)
    requires WellFormed(p) && ForwardOnly(p) && StacksAgree(c, m)
    ensures StacksAgree(c, r) && r.status != Running
    decreases m.status == Running, !m.hadFault, CoreWeight(p, m.core)
  {
    if m.status != Running then m
    else StepProgresses(c, p, m); Complete(c, p, Step(c, p, m))
  }

  lemma {:induction false} RunFromStep(c: Config, p: Program, m: State, n: nat)
    requires WellFormed(p) && StacksAgree(c, m)
    ensures Run(c, p, m, n + 1) == Run(c, p, Step(c, p, m), n)
  {
    hide Step;
    if n == 0 {
      assert Run(c, p, m, 1) == Step(c, p, Run(c, p, m, 0));
    } else {
      RunFromStep(c, p, m, n - 1);
    }
  }

  /** The state machine halts on forward-only code, at every nesting bound and window. */
  lemma {:induction false} Halts(c: Config, p: Program, m: State) returns (n: nat)
    requires WellFormed(p) && ForwardOnly(p) && StacksAgree(c, m)
    ensures Run(c, p, m, n) == Complete(c, p, m) && Run(c, p, m, n).status != Running
    decreases m.status == Running, !m.hadFault, CoreWeight(p, m.core)
  {
    if m.status != Running {
      n := 0;
    } else {
      StepProgresses(c, p, m);
      hide Step, CoreWeight;
      n := Halts(c, p, Step(c, p, m));
      RunFromStep(c, p, m, n);
      n := n + 1;
    }
  }

  /** Complete runs of every clause end as the complete sequential run does. */
  lemma SpeculationInvisible(c: Config, p: Program, cpu: Cpu)
    requires WellFormed(p) && ForwardOnly(p) && (forall n: nat :: Erasable(c, p, cpu, n))
    ensures var m, s := Complete(c, p, Initial(p, cpu)), Complete(SEQUENTIAL, p, Initial(p, cpu));
            && SameArch(m, s)
            && (m.status == Halted ==> m.core.cpu == s.core.cpu)
            && (c.clause != Bpas ==> ArchTrace(m.trace) == ArchTrace(s.trace))
  {
    var n := Halts(c, p, Initial(p, cpu));
    var k := Halts(SEQUENTIAL, p, Initial(p, cpu));
    assert Erasable(c, p, cpu, n);
    FinishedRunsAgree(c, p, cpu, n, k);
  }
}
