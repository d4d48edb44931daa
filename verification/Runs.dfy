/** Runs of the contract model, and what holds in every state of every run. */
module Runs {
  import opened Memory
  import opened Instructions
  import opened ContractModel
  import opened UndoLogs

  /** The state after `n` steps.  Every state of a run keeps its stacks in agreement, so no rollback
      ever finds an empty stack. */
  function Run(c: Config, p: Program, m: State, n: nat): (r: State)
    requires StacksAgree(c, m) && WellFormed(p)
    ensures StacksAgree(c, r)
  {
    if n == 0 then m else Step(c, p, Run(c, p, m, n - 1))
  }

  ghost predicate NoArchitecturalFault(c: Config, p: Program, m: State, n: nat)
    requires StacksAgree(c, m) && WellFormed(p)
  {
    forall k | 0 <= k < n :: !ArchitecturalFault(c, p, Run(c, p, m, k))
  }

  lemma {:induction false} RunLayers(c: Config, p: Program, m: State, n: nat)
    requires Loggable(c, p) && StacksAgree(c, m) && Layered(c, m.core)
    requires c.clause == Bpas ==> NoArchitecturalFault(c, p, m, n)
    ensures Layered(c, Run(c, p, m, n).core)
  {
    hide Step;
    if n > 0 {
      RunLayers(c, p, m, n - 1);
      StepLayers(c, p, Run(c, p, m, n - 1));
    }
  }

  /** In every reachable state, undoing the store logs from the top down to a level yields the memory
      at that level's checkpoint, and a rollback restores the context, memory and window exactly. */
  lemma UndoLogsRestoreEveryLevel(c: Config, p: Program, cpu: Cpu, n: nat)
    requires Loggable(c, p)
    requires c.clause == Bpas ==> NoArchitecturalFault(c, p, Initial(p, cpu), n)
    ensures var k := Run(c, p, Initial(p, cpu), n).core;
            && |k.spec.logs| == |k.spec.checkpoints|
            && (forall i :: 0 <= i < k.Level() ==>
                UndoDownTo(k.cpu.mem, k.spec.logs, i) == k.spec.checkpoints[i].snapshot)
            && (k.Level() > 0 ==>
                  var top := k.spec.checkpoints[k.Level() - 1];
                  && Pop(k).cpu == Cpu(top.regs, top.flags, top.snapshot)
                  && Pop(k).pc == top.next && Pop(k).spec.window == top.window)
  {
    RunLayers(c, p, Initial(p, cpu), n);
    var k := Run(c, p, Initial(p, cpu), n).core;
    if k.Level() > 0 { PopRestores(k); }
  }

  /** A finished run stays finished. */
  lemma {:induction false} FinishedStays(c: Config, p: Program, m: State, n: nat, k: nat)
    requires StacksAgree(c, m) && WellFormed(p) && n <= k
    requires Run(c, p, m, n).status != Running
    ensures Run(c, p, m, k) == Run(c, p, m, n)
    decreases k
  {
    hide Visit;
    if n < k { FinishedStays(c, p, m, n, k - 1); }
  }
}
