/** The taint tracker as the model uses it: an object whose dictionaries and stacks are updated in
place, each method proved against the functions of module Taint. */
module TaintTracking {
  import opened Common
  import opened Instructions
  import opened Taint

  class TaintTracker {
    const enabled: bool
    var deps: Dependencies
    var checkpoints: seq<Dependencies>
    var taintedLabels: set<Label>
    var pendingTaint: set<Label>
    var instruction: Option<Tracked>

    /** The tracker's state as a value. */
    function Model(): Tracker
      reads this
    {
      Tracker(deps, checkpoints, taintedLabels, pendingTaint, instruction)
    }

    constructor (enabled: bool)
      ensures this.enabled == enabled && Model() == INITIAL_TRACKER
    {
      this.enabled := enabled;
      deps := NO_DEPENDENCIES;
      checkpoints, taintedLabels, pendingTaint, instruction := [], {}, {}, None;
    }

    /** Collect what the source operands depend on. */
    method CollectSources(t: Tracked) returns (src: set<Label>)
      ensures src == SrcDependencies(deps, t)
    {
      src := {};
      var regs := t.inst.srcRegs;
      while regs != {}
        invariant regs <= t.inst.srcRegs
        invariant src == set r, l | r in t.inst.srcRegs - regs && l in deps.Reg(r) :: l
        decreases regs
      {
        var r :| r in regs;
        src, regs := src + deps.Reg(r), regs - {r};
      }
      ghost var fromRegs := src;
      var flags := t.inst.SrcFlags();
      while flags != {}
        invariant flags <= t.inst.SrcFlags()
        invariant src == fromRegs + set f, l | f in t.inst.SrcFlags() - flags && l in deps.Flag(f) :: l
        decreases flags
      {
        var f :| f in flags;
        src, flags := src + deps.Flag(f), flags - {f};
      }
      ghost var fromFlags := src;
      var mems := t.srcMems;
      while exists w :: w in mems
        invariant mems <= t.srcMems
        invariant forall l :: l in src <==>
                    l in fromFlags || exists w :: w in t.srcMems && w !in mems && l in deps.Word(w)
        decreases mems
      {
        var w :| w in mems;
        src, mems := src + deps.Word(w), mems - {w};
      }
      assert t.inst.srcRegs - {} == t.inst.srcRegs && t.inst.SrcFlags() - {} == t.inst.SrcFlags();
      assert src == fromFlags + set w, l | w in t.srcMems && l in deps.Word(w) :: l;
    }

    method PropagateToRegs(t: Tracked, src: set<Label>)
      modifies this`deps
      ensures deps == old(deps).(reg := deps.reg)
      ensures deps.reg == map r | r in old(deps).reg.Keys + t.inst.destRegs ::
                            if r in t.inst.destRegs then old(deps).Reg(r) + src else old(deps).reg[r]
    {
      var regs := t.inst.destRegs;
      while regs != {}
        invariant regs <= t.inst.destRegs && deps == old(deps).(reg := deps.reg)
        invariant deps.reg == map r | r in old(deps).reg.Keys + (t.inst.destRegs - regs) ::
                                if r in t.inst.destRegs - regs then old(deps).Reg(r) + src else old(deps).reg[r]
        decreases regs
      {
        var r :| r in regs;
        deps := deps.(reg := deps.reg[r := deps.Reg(r) + src]);
        regs := regs - {r};
      }
    }

    method PropagateToFlags(t: Tracked, src: set<Label>)
      modifies this`deps
      ensures deps == old(deps).(flag := deps.flag)
      ensures deps.flag == map f | f in old(deps).flag.Keys + t.inst.DestFlags() ::
                             if f in t.inst.DestFlags() then old(deps).Flag(f) + src else old(deps).flag[f]
    {
      var flags := t.inst.DestFlags();
      while flags != {}
        invariant flags <= t.inst.DestFlags() && deps == old(deps).(flag := deps.flag)
        invariant deps.flag == map f | f in old(deps).flag.Keys + (t.inst.DestFlags() - flags) ::
                                 if f in t.inst.DestFlags() - flags then old(deps).Flag(f) + src else old(deps).flag[f]
        decreases flags
      {
        var f :| f in flags;
        deps := deps.(flag := deps.flag[f := deps.Flag(f) + src]);
        flags := flags - {f};
      }
    }

    method PropagateToMems(t: Tracked, src: set<Label>)
      modifies this`deps
      ensures deps == old(deps).(mem := deps.mem)
      ensures deps.mem == map w | w in old(deps).mem.Keys + t.destMems ::
                            if w in t.destMems then old(deps).Word(w) + src else old(deps).mem[w]
    {
      var mems := t.destMems;
      while exists w :: w in mems
        invariant mems <= t.destMems && deps == old(deps).(mem := deps.mem)
        invariant forall w :: w in deps.mem <==> w in old(deps).mem || (w in t.destMems && w !in mems)
        invariant forall w :: deps.Word(w) == old(deps).Word(w) + if w in t.destMems && w !in mems then src else {}
        decreases mems
      {
        var w :| w in mems;
        deps := deps.(mem := deps.mem[w := deps.Word(w) + src]);
        mems := mems - {w};
      }
      forall w | w in deps.mem ensures deps.mem[w] == deps.Word(w) {}
      SameWords(deps.mem, map w | w in old(deps).mem.Keys + t.destMems ::
                  if w in t.destMems then old(deps).Word(w) + src else old(deps).mem[w]);
    }

    static lemma SameWords(a: map<int, set<Label>>, b: map<int, set<Label>>)
      requires forall w :: w in a <==> w in b
      requires forall w :: w in a && w in b ==> a[w] == b[w]
      ensures a == b
    {
      forall w | w in a ensures w in b && a[w] == b[w] {}
      forall w | w in b ensures w in a && a[w] == b[w] {}
    }

    /** Propagate source dependencies to the destination operands. */
    method PropagateDependencies(t: Tracked) returns (src: set<Label>)
      modifies this`deps
      ensures src == SrcDependencies(old(deps), t)
      ensures deps == AddDependencies(old(deps), t)
    {
      src := CollectSources(t);
      PropagateToRegs(t, src);
      PropagateToFlags(t, src);
      PropagateToMems(t, src);
    }

    static lemma TaintedOf(d: Dependencies, pending: set<Label>, t: Tracked)
      ensures forall l :: l in TaintedBy(d, pending, t) <==>
                exists p :: p in PendingTaint(pending, t) && l in AddDependencies(d, t).Of(p)
    {}

    method RecordTaints(t: Tracked, ghost before: Dependencies)
      requires deps == AddDependencies(before, t)
      modifies this`taintedLabels
      ensures taintedLabels == old(taintedLabels) + TaintedBy(before, pendingTaint, t)
    {
      var pending := PendingTaint(pendingTaint, t);
      var rest := pending;
      while rest != {}
        invariant rest <= pending
        invariant forall l :: l in taintedLabels <==>
                    l in old(taintedLabels) || exists p :: p in pending && p !in rest && l in deps.Of(p)
        decreases rest
      {
        var p :| p in rest;
        taintedLabels, rest := taintedLabels + deps.Of(p), rest - {p};
      }
      TaintedOf(before, pendingTaint, t);
    }

    /** Finish the instruction in flight: dependencies, then taints, then overwritten dependencies. */
    method FinalizeInstruction()
      requires instruction.Some?
      modifies this`deps, this`taintedLabels, this`instruction
      ensures Model() == Finalize(old(Model()))
    {
      var t := instruction.value;
      var src := PropagateDependencies(t);
      RecordTaints(t, old(deps));
      deps := RemoveOverwritten(deps, t, src);
      instruction := None;
    }

    method TrackInstruction(i: Instr)
      modifies this
      ensures Model() == if enabled then Taint.TrackInstruction(old(Model()), i) else old(Model())
    {
      if !enabled { return; }
      if instruction.Some? {
        FinalizeInstruction();
      }
      instruction, pendingTaint := Some(Tracked(i, {}, {})), {};
      deps := MarkOverwrittenFlags(deps, i);
    }

    /** The aligned words from the first to the last byte of an access. */
    static method CollectWords(addr: int, size: nat) returns (words: set<int>)
      requires 1 <= size
      ensures words == WordsOf(addr, size)
    {
      words := {};
      var first, last := WordOf(addr), WordOf(addr + size - 1);
      assert first <= last;
      assert Aligned(first) && Aligned(last);
      hide WordOf, Aligned;
      var w := first;
      while w <= last
        invariant Aligned(first) && Aligned(last) && Aligned(w) && first <= w <= last + 8
        invariant forall x :: x in words <==> first <= x < w && Aligned(x)
        decreases last + 8 - w
      {
        NextWord(w, last);
        words := words + {w};
        w := w + 8;
      }
      forall x ensures x in words <==> x in WordsOf(addr, size) { WordTouched(addr, size, x); }
    }

    static predicate Aligned(w: int) {
      w % 8 == 0
    }

    static lemma NextWord(w: int, last: int)
      requires Aligned(w) && Aligned(last)
      ensures Aligned(w + 8)
      ensures forall x :: w <= x < w + 8 && Aligned(x) <==> x == w
    {}

    static lemma WordTouched(addr: int, size: nat, x: int)
      requires 1 <= size
      ensures x in WordsOf(addr, size) <==> WordOf(addr) <= x <= WordOf(addr + size - 1) && Aligned(x)
    {
      if WordOf(addr) <= x <= WordOf(addr + size - 1) && Aligned(x) {
        var a := if x < addr then addr else x;
        assert WordOf(a) == x;
      }
    }

    method TrackMemoryAccess(addr: int, size: nat, write: bool)
      requires (enabled ==> instruction.Some?) && 1 <= size
      modifies this`instruction
      ensures Model() == if enabled then TrackAccess(old(Model()), addr, size, write) else old(Model())
    {
      if !enabled { return; }
      var words := CollectWords(addr, size);
      var t := instruction.value;
      instruction := Some(if write then t.(destMems := t.destMems + words) else t.(srcMems := t.srcMems + words));
    }

    method TaintProgramCounter()
      modifies this`pendingTaint
      ensures Model() == if enabled then TaintPc(old(Model())) else old(Model())
    {
      if enabled && instruction.Some? && instruction.value.inst.controlFlow {
        pendingTaint := pendingTaint + {RegLabel(RIP)};
      }
    }

    method TaintMemoryAddress()
      modifies this`pendingTaint
      ensures Model() == if enabled then TaintAddress(old(Model())) else old(Model())
    {
      if enabled && instruction.Some? {
        pendingTaint := pendingTaint + set r | r in instruction.value.inst.addressRegs :: RegLabel(r);
      }
    }

    method Checkpoint(includeCurrentInst: bool)
      modifies this
      ensures Model() == if enabled then TakeCheckpoint(old(Model()), includeCurrentInst) else old(Model())
    {
      if !enabled { return; }
      if includeCurrentInst && instruction.Some? {
        FinalizeInstruction();
      }
      checkpoints := checkpoints + [deps];
    }

    method RollBack()
      requires enabled ==> |checkpoints| > 0
      modifies this
      ensures Model() == if enabled then Taint.Rollback(old(Model())) else old(Model())
    {
      if !enabled { return; }
      if instruction.Some? {
        FinalizeInstruction();
      }
      deps, checkpoints := checkpoints[|checkpoints| - 1], checkpoints[..|checkpoints| - 1];
    }

    /** The labels that the run tainted, with those of the instruction in flight. */
    method GetTaint() returns (labels: set<Label>)
      modifies this
      ensures labels == TaintedLabels(old(Model()))
    {
      if instruction.Some? {
        FinalizeInstruction();
      }
      labels := taintedLabels;
    }
  }
}
