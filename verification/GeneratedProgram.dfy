/** Programs laid out from generated functions: their branches lead forward, so the contract model halts
on them. */
module GeneratedPrograms {
  import opened BranchDecoder
  import opened Instructions
  import opened ContractModel
  import opened Runs
  import opened Termination
  import opened ControlFlow

  /** The decoder sees no branch at an address. */
  ghost predicate NoBranchAt(p: Program, pc: int)
    requires WellFormed(p)
  {
    forall f, rcx :: Decode(p.code(pc).code, f, rcx).target == 0
  }

  /** Some branch of block `i` leads to an address. */
  ghost predicate LeadsTo(n: nat, successors: seq<seq<nat>>, start: seq<int>, i: nat, address: int)
    requires i < |successors| && |successors[i]| <= 2
  {
    exists t :: t in Branches(n, successors[i]) && t.target.Block? && t.target.i < |start| &&
      start[t.target.i] == address
  }

  /** The instruction at an address of block `i` ends within the block and goes on behind itself, or it is
      one of the block's branches, and the decoder finds the target of that branch. */
  ghost predicate InBlock(p: Program, n: nat, successors: seq<seq<nat>>, start: seq<int>, i: nat, pc: int)
    requires WellFormed(p) && i < |successors| && |successors[i]| <= 2 && i + 1 < |start|
  {
    var end := pc + p.code(pc).Size();
    && start[i] <= pc && end <= start[i + 1]
    && (forall cpu :: var o := p.exec(pc, cpu); o.fault == 0 ==>
        o.next == end || LeadsTo(n, successors, start, i, o.next))
    && forall f, rcx ::
         var d := Decode(p.code(pc).code, f, rcx);
         d.target == 0 || LeadsTo(n, successors, start, i, end + d.target)
  }

  /** An instruction that goes on behind itself. */
  ghost predicate Straight(p: Program, pc: int)
    requires WellFormed(p)
  {
    NoBranchAt(p, pc) && forall cpu :: p.exec(pc, cpu).fault == 0 ==> p.exec(pc, cpu).next == pc + p.code(pc).Size()
  }

  ghost predicate InSomeBlock(p: Program, n: nat, successors: seq<seq<nat>>, start: seq<int>, pc: int)
    requires WellFormed(p) && |successors| == n == |start| - 1 && forall i :: 0 <= i < n ==> |successors[i]| <= 2
  {
    exists i: nat :: i < n && InBlock(p, n, successors, start, i, pc)
  }

  /** A program laid out from a function: its blocks fill the addresses from the start to the exit, and
      nothing branches outside. */
  ghost predicate LaidOutFrom(p: Program, n: nat, successors: seq<seq<nat>>, start: seq<int>)
    requires WellFormed(p) && |successors| == n && forall i :: 0 <= i < n ==> |successors[i]| <= 2
  {
    && LaidOut(n, start) && start[0] == p.start && start[n] == p.exit
    && (forall pc :: p.start <= pc < p.exit ==> InSomeBlock(p, n, successors, start, pc))
    && (forall pc :: pc < p.start ==> Straight(p, pc))
    && (forall pc :: p.exit <= pc ==> NoBranchAt(p, pc))
  }

  lemma BranchesLeadForward(n: nat, successors: seq<seq<nat>>, min: int, max: int, start: seq<int>, i: nat,
                            address: int)
    requires Dag(n, successors, min, max) && min <= max <= 2 && LaidOut(n, start) && i < n
    requires |successors[i]| <= 2 && LeadsTo(n, successors, start, i, address)
    ensures start[i + 1] <= address
  {
    var t :| t in Branches(n, successors[i]) && t.target.Block? && t.target.i < |start| && start[t.target.i] == address;
    GeneratedBranchesForward(n, successors, min, max, start, i, t);
  }

  ghost predicate MovesForward(p: Program, pc: int)
    requires WellFormed(p)
  {
    && (pc < p.exit ==> forall cpu :: p.exec(pc, cpu).fault == 0 ==> pc < p.exec(pc, cpu).next)
    && forall f, rcx :: 0 <= Decode(p.code(pc).code, f, rcx).target
  }

  lemma ForwardEverywhere(p: Program)
    requires WellFormed(p) && forall pc :: MovesForward(p, pc)
    ensures ForwardOnly(p)
  {
    hide Decode;
    forall pc, cpu | pc < p.exit && p.exec(pc, cpu).fault == 0 ensures pc < p.exec(pc, cpu).next {
      assert MovesForward(p, pc);
    }
    forall pc, f, rcx ensures 0 <= Decode(p.code(pc).code, f, rcx).target {
      assert MovesForward(p, pc);
    }
  }

  /** An instruction of a block moves forward, and the decoder finds no backward target in it. */
  lemma InBlockForward(p: Program, n: nat, successors: seq<seq<nat>>, min: int, max: int, start: seq<int>, i: nat,
                       pc: int)
    requires WellFormed(p) && Dag(n, successors, min, max) && min <= max <= 2 && LaidOut(n, start) && i < n
    requires |successors[i]| <= 2 && InBlock(p, n, successors, start, i, pc)
    ensures forall cpu :: p.exec(pc, cpu).fault == 0 ==> pc < p.exec(pc, cpu).next
    ensures forall f, rcx :: 0 <= Decode(p.code(pc).code, f, rcx).target
  {
    hide LeadsTo, Decode, Branches;
    var end := pc + p.code(pc).Size();
    forall address | LeadsTo(n, successors, start, i, address) ensures end <= address {
      BranchesLeadForward(n, successors, min, max, start, i, address);
    }
    hide Dag, LaidOut;
  }

  /** A program laid out from a generated function is forward-only. */
  lemma GeneratedProgramForward(p: Program, n: nat, successors: seq<seq<nat>>, min: int, max: int, start: seq<int>)
    requires WellFormed(p) && Dag(n, successors, min, max) && min <= max <= 2
    requires forall i :: 0 <= i < n ==> |successors[i]| <= 2
    requires LaidOutFrom(p, n, successors, start)
    ensures ForwardOnly(p)
  {
    hide Decode, InBlock;
    forall pc: int ensures MovesForward(p, pc) {
      if pc < p.start {
        assert Straight(p, pc);
      } else if pc < p.exit {
        assert InSomeBlock(p, n, successors, start, pc);
        var i: nat :| i < n && InBlock(p, n, successors, start, i, pc);
        InBlockForward(p, n, successors, min, max, start, i, pc);
      } else {
        assert NoBranchAt(p, pc);
      }
    }
    ForwardEverywhere(p);
  }

  /** So the contract model halts on every generated program, for every clause, nesting and window. */
  lemma GeneratedProgramHalts(c: Config, p: Program, cpu: Cpu, n: nat, successors: seq<seq<nat>>, min: int, max: int,
                              start: seq<int>)
    returns (steps: nat)
    requires WellFormed(p) && Dag(n, successors, min, max) && min <= max <= 2
    requires forall i :: 0 <= i < n ==> |successors[i]| <= 2
    requires LaidOutFrom(p, n, successors, start)
    ensures Run(c, p, Initial(p, cpu), steps).status != Running
  {
    GeneratedProgramForward(p, n, successors, min, max, start);
    hide LaidOutFrom, Dag, ForwardOnly, Run;
    steps := Halts(c, p, Initial(p, cpu));
  }
}
