/** Taint tracking only observes: with it or without it, the model runs alike. */
module Untracked {
  import opened Instructions
  import opened Taint
  import opened BranchDecoder
  import opened ContractModel
  import opened Termination

  function WithoutTracking(c: Config): Config {
    c.(tracking := false)
  }

  /** Equal in everything but the taint tracker. */
  predicate SameButTracker(m: State, n: State) {
    n == m.(tracker := n.tracker)
  }

  lemma AccessesUntracked(c: Config, k: Core, accesses: seq<Access>, faulting: bool)
    ensures RunAccesses(WithoutTracking(c), k, accesses, faulting) == RunAccesses(c, k, accesses, faulting)
    decreases |accesses|
  {}

  lemma AccessedUntracked(c: Config, p: Program, m: State, n: State)
    requires StacksAgree(c, m) && StacksAgree(WithoutTracking(c), n) && (c.tracking ==> m.tracker.inst.Some?)
    requires SameButTracker(m, n)
    ensures SameButTracker(Accessed(c, p, m), Accessed(WithoutTracking(c), p, n))
  {
    var o := p.exec(m.core.pc, m.core.cpu);
    AccessesUntracked(c, m.core, o.accesses, o.fault != 0);
    hide StacksAgree, TrackAccesses, RunAccesses, Addresses;
  }

  lemma RollBackUntracked(c: Config, m: State, n: State)
    requires StacksAgree(c, m) && StacksAgree(WithoutTracking(c), n) && SameButTracker(m, n) && m.core.Level() > 0
    ensures SameButTracker(RollBack(c, m), RollBack(WithoutTracking(c), n))
  {
    hide Pop, Taint.Rollback;
  }

  lemma ExecuteEndUntracked(c: Config, p: Program, m: State, n: State, o: Outcome)
    requires StacksAgree(c, m) && StacksAgree(WithoutTracking(c), n) && SameButTracker(m, n)
    ensures SameButTracker(ExecuteEnd(c, p, m, o), ExecuteEnd(WithoutTracking(c), p, n, o))
  {
    hide RollBack, WindowsGrow;
    if m.core.Level() > 0 { RollBackUntracked(c, ShowFault(c, p, m), ShowFault(WithoutTracking(c), p, n)); }
  }

  lemma ExecuteUntracked(c: Config, p: Program, m: State, n: State)
    requires StacksAgree(c, m) && StacksAgree(WithoutTracking(c), n) && (c.tracking ==> m.tracker.inst.Some?)
    requires SameButTracker(m, n)
    ensures SameButTracker(Execute(c, p, m), Execute(WithoutTracking(c), p, n))
  {
    hide Accessed, ExecuteEnd, StacksAgree;
    AccessedUntracked(c, p, m, n);
    ExecuteEndUntracked(c, p, Accessed(c, p, m), Accessed(WithoutTracking(c), p, n), p.exec(m.core.pc, m.core.cpu));
  }

  lemma SameDecisions(c: Config, p: Program, k: Core)
    requires ValidEncoding(p.code(k.pc).code)
    ensures Mispredicts(c, p, k) == Mispredicts(WithoutTracking(c), p, k)
    ensures MustStop(c, p, k) == MustStop(WithoutTracking(c), p, k)
  {
    hide Decoding;
  }

  lemma StopUntracked(c: Config, p: Program, m: State, n: State)
    requires StacksAgree(c, m) && StacksAgree(WithoutTracking(c), n) && SameButTracker(m, n)
    requires m.status == Running && MustStop(c, p, m.core)
    ensures TakeBypass(c, m).core.Level() > 0
    ensures SameButTracker(RollBack(c, TakeBypass(c, m)),
                           RollBack(WithoutTracking(c), TakeBypass(WithoutTracking(c), n)))
  {
    hide RollBack, BypassStore, TakeCheckpoint;
    RollBackUntracked(c, TakeBypass(c, m), TakeBypass(WithoutTracking(c), n));
  }

  lemma ArriveUntracked(c: Config, p: Program, m: State, n: State)
    requires StacksAgree(c, m) && StacksAgree(WithoutTracking(c), n) && SameButTracker(m, n)
    ensures SameButTracker(Arrive(c, p, m), Arrive(WithoutTracking(c), p, n))
  {
    hide StacksAgree, Taint.TrackInstruction, TaintPc;
  }

  lemma DecideUntracked(c: Config, p: Program, m: State, n: State)
    requires WellFormed(p) && m.status == Running
    requires StacksAgree(c, m) && StacksAgree(WithoutTracking(c), n) && (c.tracking ==> m.tracker.inst.Some?)
    requires SameButTracker(m, n)
    ensures SameButTracker(Decide(c, p, m), Decide(WithoutTracking(c), p, n))
  {
    hide RollBack, Execute, Mispredict, BypassStore, TakeCheckpoint, MustStop, Mispredicts;
    var mispredicted := Mispredicts(c, p, m.core);
    assert mispredicted == Mispredicts(WithoutTracking(c), p, n.core) &&
      MustStop(c, p, m.core) == MustStop(WithoutTracking(c), p, n.core) by {
      SameDecisions(c, p, m.core);
    }
    if MustStop(c, p, m.core) && mispredicted {
      RollBackUntracked(c, TakeWrongPath(c, p, m), TakeWrongPath(WithoutTracking(c), p, n));
    } else if MustStop(c, p, m.core) { StopUntracked(c, p, m, n); }
    else if !mispredicted { ExecuteUntracked(c, p, TakeBypass(c, m), TakeBypass(WithoutTracking(c), n)); }
  }

  lemma StepUntracked(c: Config, p: Program, m: State, n: State)
    requires WellFormed(p) && StacksAgree(c, m) && StacksAgree(WithoutTracking(c), n) && SameButTracker(m, n)
    ensures SameButTracker(Step(c, p, m), Step(WithoutTracking(c), p, n))
  {
    hide Decide, RollBack, ObserveInstruction;
    if m.core.Level() > 0 { RollBackUntracked(c, m, n); }
    if m.status == Running {
      ArriveUntracked(c, p, m, n);
      DecideUntracked(c, p, Arrive(c, p, m), Arrive(WithoutTracking(c), p, n));
    }
    hide Arrive;
  }

  lemma {:induction false} CompleteUntracked(c: Config, p: Program, m: State, n: State)
    requires WellFormed(p) && ForwardOnly(p)
    requires StacksAgree(c, m) && StacksAgree(WithoutTracking(c), n) && SameButTracker(m, n)
    ensures SameButTracker(Complete(c, p, m), Complete(WithoutTracking(c), p, n))
    decreases m.status == Running, !m.hadFault, CoreWeight(p, m.core)
  {
    if m.status == Running {
      StepProgresses(c, p, m);
      StepUntracked(c, p, m, n);
      hide Step, CoreWeight;
      CompleteUntracked(c, p, Step(c, p, m), Step(WithoutTracking(c), p, n));
    }
  }
}
