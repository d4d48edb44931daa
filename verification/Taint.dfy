/** Taint tracking: which parts of the input can have influenced the contract trace. */
module Taint {
  import opened Common
  import opened Instructions

  /** A label names a part of the initial state: a register, a flag, or an aligned eight-byte word of
      the data area. */
  datatype Label = RegLabel(reg: Reg) | FlagLabel(flag: Flag) | WordLabel(offset: int)

  /** The labels that the current value of each register, flag and word may depend on. */
  datatype Dependencies = Dependencies(
    reg: map<Reg, set<Label>>,
    flag: map<Flag, set<Label>>,
    mem: map<int, set<Label>>)
  {
    function Reg(r: Reg): set<Label> {
      if r in reg then reg[r] else {RegLabel(r)}
    }

    function Flag(f: Flag): set<Label> {
      if f in flag then flag[f] else {FlagLabel(f)}
    }

    function Word(w: int): set<Label> {
      if w in mem then mem[w] else {WordLabel(w)}
    }

    /** Labels a pending taint stands for. */
    function Of(l: Label): set<Label> {
      match l
      case RegLabel(r) => Reg(r)
      case FlagLabel(f) => {l}
      case WordLabel(w) => Word(w)
    }
  }

  const NO_DEPENDENCIES := Dependencies(map[], map[], map[])

  /** An instruction in flight, with the words it was seen to read and write. */
  datatype Tracked = Tracked(inst: Instr, srcMems: set<int>, destMems: set<int>)

  datatype Tracker = Tracker(
    deps: Dependencies,
    checkpoints: seq<Dependencies>,
    tainted: set<Label>,
    pending: set<Label>,
    inst: Option<Tracked>)

  const INITIAL_TRACKER := Tracker(NO_DEPENDENCIES, [], {}, {}, None)

  /** The aligned word that holds an address. */
  function WordOf(a: int): int {
    a / 8 * 8
  }

  /** The words that an access touches. */
  function WordsOf(addr: int, size: nat): set<int> {
    set a | addr <= a < addr + size :: WordOf(a)
  }

  function SrcDependencies(d: Dependencies, t: Tracked): set<Label> {
    (set r, l | r in t.inst.srcRegs && l in d.Reg(r) :: l)
    + (set f, l | f in t.inst.SrcFlags() && l in d.Flag(f) :: l)
    + (set w, l | w in t.srcMems && l in d.Word(w) :: l)
  }

  function AddDependencies(d: Dependencies, t: Tracked): Dependencies {
    var src := SrcDependencies(d, t);
    Dependencies(
      map r | r in d.reg.Keys + t.inst.destRegs :: if r in t.inst.destRegs then d.Reg(r) + src else d.reg[r],
      map f | f in d.flag.Keys + t.inst.DestFlags() :: if f in t.inst.DestFlags() then d.Flag(f) + src else d.flag[f],
      map w | w in d.mem.Keys + t.destMems :: if w in t.destMems then d.Word(w) + src else d.mem[w])
  }

  /** Drop what an overwriting instruction no longer depends on. */
  function RemoveOverwritten(d: Dependencies, t: Tracked, src: set<Label>): Dependencies {
    if t.inst.Overrides() then
      d.(reg := map r | r in d.reg.Keys :: if r in t.inst.destRegs then d.reg[r] * src else d.reg[r])
    else d
  }

  function FinalDependencies(d: Dependencies, t: Tracked): Dependencies {
    RemoveOverwritten(AddDependencies(d, t), t, SrcDependencies(d, t))
  }

  /** Pending taints, with the implicit count register of a REP instruction. */
  function PendingTaint(pending: set<Label>, t: Tracked): set<Label> {
    if pending != {} && t.inst.IsRep() && C in t.inst.srcRegs then pending + {RegLabel(C)} else pending
  }

  function TaintedBy(d: Dependencies, pending: set<Label>, t: Tracked): set<Label> {
    set p, l | p in PendingTaint(pending, t) && l in AddDependencies(d, t).Of(p) :: l
  }

  /** Propagate the dependencies of the instruction in flight, if any, and record its taints. */
  function Finalize(t: Tracker): Tracker {
    match t.inst
    case None => t
    case Some(i) =>
      t.(deps := FinalDependencies(t.deps, i), tainted := t.tainted + TaintedBy(t.deps, t.pending, i), inst := None)
  }

  function MarkOverwrittenFlags(d: Dependencies, i: Instr): Dependencies {
    d.(flag := map f | f in d.flag.Keys + i.OverwrittenFlags() ::
                 if f in i.OverwrittenFlags() then {FlagLabel(f)} else d.flag[f])
  }

  function TrackInstruction(t: Tracker, i: Instr): Tracker {
    var t := Finalize(t);
    t.(deps := MarkOverwrittenFlags(t.deps, i), inst := Some(Tracked(i, {}, {})), pending := {})
  }

  function TrackAccess(t: Tracker, addr: int, size: nat, write: bool): Tracker
    requires t.inst.Some?
  {
    var i := t.inst.value;
    t.(inst := Some(if write then i.(destMems := i.destMems + WordsOf(addr, size))
                    else i.(srcMems := i.srcMems + WordsOf(addr, size))))
  }

  function TaintPc(t: Tracker): Tracker {
    if t.inst.Some? && t.inst.value.inst.controlFlow then t.(pending := t.pending + {RegLabel(RIP)}) else t
  }

  function TaintAddress(t: Tracker): Tracker {
    if t.inst.Some? then t.(pending := t.pending + set r | r in t.inst.value.inst.addressRegs :: RegLabel(r)) else t
  }

  function TakeCheckpoint(t: Tracker, includeCurrent: bool): Tracker {
    var t := if includeCurrent then Finalize(t) else t;
    t.(checkpoints := t.checkpoints + [t.deps])
  }

  function Rollback(t: Tracker): Tracker
    requires |t.checkpoints| > 0
  {
    var t := Finalize(t);
    t.(deps := t.checkpoints[|t.checkpoints| - 1], checkpoints := t.checkpoints[..|t.checkpoints| - 1])
  }

  /** The labels that the whole run tainted. */
  function TaintedLabels(t: Tracker): set<Label> {
    Finalize(t).tainted
  }
}
