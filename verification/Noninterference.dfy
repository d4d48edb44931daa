/** Taint tracking is sound: two inputs that agree on every label tainted in a run give the same
instruction sequence, the same taint and the same contract trace, with all nested mispredicted paths,
bypassed stores and rollbacks included. */
module Noninterference {
  import opened Bytes
  import opened Common
  import opened Memory
  import opened BranchDecoder
  import opened Instructions
  import opened Taint
  import opened ContractModel
  import opened UndoLogs
  import opened Runs
  import opened Transparency
  import opened Coverage

  // ---------------------------------------------------------------------------------------------
  // The relation between two runs

  function SavedCpu(s: Checkpoint): Cpu {
    Cpu(s.regs, s.flags, s.snapshot)
  }

  ghost predicate SavedAgree(t: set<Label>, p: Program, ds: seq<Dependencies>, xs: seq<Checkpoint>,
                             ys: seq<Checkpoint>) {
    && |xs| == |ys| == |ds|
    && forall i :: 0 <= i < |xs| ==>
         && xs[i].next == ys[i].next && xs[i].window == ys[i].window
         && Agree(t, ds[i], p.code(xs[i].next).OverwrittenFlags(), SavedCpu(xs[i]), SavedCpu(ys[i]))
  }

  /** Stores that wait to be bypassed have one address and size, and replaced the same bytes wherever
      the stored words are tainted. */
  ghost predicate StoresAgree(t: set<Label>, d: Dependencies, a: Option<Store>, b: Option<Store>) {
    match (a, b)
    case (None, None) => true
    case (Some(x), Some(y)) =>
      && x.addr == y.addr && |x.before| == |y.before|
      && forall k :: 0 <= k < |x.before| && d.Word(WordOf(x.addr + k)) <= t ==> x.before[k] == y.before[k]
    case _ => false
  }

  ghost predicate CoresAgree(t: set<Label>, p: Program, d: Dependencies, ds: seq<Dependencies>, k: Core, l: Core) {
    && k.pc == l.pc && k.spec.window == l.spec.window && k.spec.inSpeculation == l.spec.inSpeculation
    && SavedAgree(t, p, ds, k.spec.checkpoints, l.spec.checkpoints)
    && Agree(t, d, p.code(k.pc).OverwrittenFlags(), k.cpu, l.cpu)
    && StoresAgree(t, d, k.spec.previousStore, l.spec.previousStore)
  }

  ghost predicate SameRecords(m: State, n: State) {
    && m.tracker == n.tracker && m.trace == n.trace && m.reentry == n.reentry
    && m.hadFault == n.hadFault && m.status == n.status
  }

  ghost predicate Lockstep(t: set<Label>, p: Program, m: State, n: State) {
    && SameRecords(m, n)
    && CoresAgree(t, p, Finalize(m.tracker).deps, m.tracker.checkpoints, m.core, n.core)
  }

  // ---------------------------------------------------------------------------------------------
  // Checkpoints and rollbacks

  lemma PushAgrees(t: set<Label>, p: Program, d: Dependencies, ds: seq<Dependencies>, k: Core, l: Core, next: int)
    requires SavedAgree(t, p, ds, k.spec.checkpoints, l.spec.checkpoints) && k.spec.window == l.spec.window
    requires Agree(t, d, p.code(next).OverwrittenFlags(), k.cpu, l.cpu)
    ensures SavedAgree(t, p, ds + [d], Push(k, next).spec.checkpoints, Push(l, next).spec.checkpoints)
  {
    hide Agree;
  }

  lemma PopAgrees(t: set<Label>, p: Program, ds: seq<Dependencies>, k: Core, l: Core)
    requires SavedAgree(t, p, ds, k.spec.checkpoints, l.spec.checkpoints)
    requires k.Level() > 0 && SnapshotsHold(k) && SnapshotsHold(l)
    ensures CoresAgree(t, p, ds[|ds| - 1], ds[..|ds| - 1], Pop(k), Pop(l))
  {
    PopRestores(k);
    PopRestores(l);
    hide Agree, Undo;
  }

  lemma RollBackAgrees(t: set<Label>, c: Config, p: Program, m: State, n: State)
    requires c.tracking && StacksAgree(c, m) && StacksAgree(c, n) && SameRecords(m, n)
    requires SavedAgree(t, p, m.tracker.checkpoints, m.core.spec.checkpoints, n.core.spec.checkpoints)
    requires m.core.Level() > 0 && SnapshotsHold(m.core) && SnapshotsHold(n.core)
    ensures Lockstep(t, p, RollBack(c, m), RollBack(c, n))
  {
    PopAgrees(t, p, m.tracker.checkpoints, m.core, n.core);
    hide Agree, Pop, SavedAgree;
  }

  /** Cancelling a store keeps the memories in agreement, and the checkpoint has the store. */
  lemma BypassAgrees(t: set<Label>, p: Program, d: Dependencies, ds: seq<Dependencies>, k: Core, l: Core)
    requires CoresAgree(t, p, d, ds, k, l) && k.spec.previousStore.Some?
    ensures CoresAgree(t, p, d, ds + [d], BypassStore(k), BypassStore(l))
  {
    PushAgrees(t, p, d, ds, k, l, k.pc);
    var x, y := k.spec.previousStore.value, l.spec.previousStore.value;
    var a, b := BypassStore(k).cpu.mem, BypassStore(l).cpu.mem;
    forall z | 0 <= z < |a| && d.Word(WordOf(z)) <= t ensures ByteAt(a, z) == ByteAt(b, z) {
      if x.addr <= z < x.addr + |x.before| {
        assert WordOf(x.addr + (z - x.addr)) == WordOf(z);
      } else {
        assert ByteAt(k.cpu.mem, z) == ByteAt(l.cpu.mem, z);
      }
    }
    assert AgreeMem(t, d, a, b);
    hide SavedAgree, AgreeRegs, AgreeFlags, AgreeMem;
  }

  // ---------------------------------------------------------------------------------------------
  // Mispredicted branches

  lemma TargetFromCodeOnly(code: seq<int>, f: Flags, r: Word, g: Flags, s: Word)
    requires ValidEncoding(code)
    ensures Decode(code, f, r).target == Decode(code, g, s).target
    ensures Decode(code, f, r).isLoop == Decode(code, g, s).isLoop
  {
    hide TableCondition, BitsOf, Signed32;
  }

  lemma DecodedExecution(p: Program, k: Core)
    requires WellFormed(p) && ManualBranches(p) && Decoding(p, k).target != 0
    ensures var o, b := p.exec(k.pc, k.cpu), ManualBranch(p.code(k.pc).code, k.cpu.flags, RegValue(k.cpu.regs, C));
            && b.Branch? && b.displacement != 0 && b.taken == Decoding(p, k).willJump
            && o == BranchOutcome(k.pc, p.code(k.pc), k.cpu, b)
            && After(o, k.cpu) == k.cpu.(regs := BranchRegs(p, k))
  {
    DecodedTarget(p.code(k.pc).code, k.cpu.flags, RegValue(k.cpu.regs, C));
    DecodedOutcome(p.code(k.pc).code, k.cpu.flags, RegValue(k.cpu.regs, C));
  }

  lemma DisplacementFromCodeOnly(code: seq<int>, f: Flags, r: Word, g: Flags, s: Word)
    requires ValidEncoding(code) && ManualBranch(code, f, r).Branch?
    ensures ManualBranch(code, g, s).Branch?
    ensures ManualBranch(code, f, r).displacement == ManualBranch(code, g, s).displacement
  {
    hide ConditionCode, BitsOf, Signed32;
  }

  lemma SameOutcome(t: set<Label>, p: Program, d: Dependencies, u: Tracked, k: Core, l: Core)
    requires WellFormed(p) && ManualBranches(p) && Covered(p)
    requires k.pc == l.pc && u == Tracked(p.code(k.pc), {}, {}) && |k.cpu.mem| == |l.cpu.mem|
    requires Agree(t, d, u.inst.OverwrittenFlags(), k.cpu, l.cpu)
    requires u.inst.controlFlow ==> AddDependencies(d, u).Reg(RIP) <= t
    requires Decoding(p, k).target != 0
    ensures Decoding(p, l).target == Decoding(p, k).target && Decoding(p, l).willJump == Decoding(p, k).willJump
    ensures Comparable(u, p, k.pc, k.cpu, l.cpu)
    ensures p.exec(k.pc, k.cpu).accesses == [] == p.exec(l.pc, l.cpu).accesses
  {
    TargetFromCodeOnly(u.inst.code, k.cpu.flags, RegValue(k.cpu.regs, C), l.cpu.flags, RegValue(l.cpu.regs, C));
    hide Decode, ManualBranch, Agree, AddDependencies;
    DecodedExecution(p, k);
    DecodedExecution(p, l);
    DisplacementFromCodeOnly(u.inst.code, k.cpu.flags, RegValue(k.cpu.regs, C), l.cpu.flags, RegValue(l.cpu.regs, C));
    assert Comparable(u, p, k.pc, k.cpu, l.cpu);
    SameNext(t, d, u, p, k.pc, k.cpu, l.cpu);
  }

  lemma BranchedCpusAgree(t: set<Label>, p: Program, d: Dependencies, k: Core, l: Core)
    requires WellFormed(p) && ManualBranches(p) && Covered(p)
    requires k.pc == l.pc && Agree(t, d, p.code(k.pc).OverwrittenFlags(), k.cpu, l.cpu)
    requires Decoding(p, k).target != 0
    requires var u := Tracked(p.code(k.pc), {}, {}); u.inst.controlFlow ==> AddDependencies(d, u).Reg(RIP) <= t
    ensures Decoding(p, l).target == Decoding(p, k).target && Decoding(p, l).willJump == Decoding(p, k).willJump
    ensures Agree(t, FinalDependencies(d, Tracked(p.code(k.pc), {}, {})), {},
                  k.cpu.(regs := BranchRegs(p, k)), l.cpu.(regs := BranchRegs(p, l)))
  {
    var u := Tracked(p.code(k.pc), {}, {});
    SameOutcome(t, p, d, u, k, l);
    hide Decoding, ManualBranch, AddDependencies, FinalDependencies;
    DecodedExecution(p, k);
    DecodedExecution(p, l);
    hide After, BranchRegs, BranchOutcome, ManualBranches;
    ExecutionKeepsAgreement(t, d, u, p, k.pc, k.cpu, l.cpu);
    hide Agree, Covered;
  }

  lemma MispredictAgrees(t: set<Label>, p: Program, d: Dependencies, ds: seq<Dependencies>, k: Core, l: Core)
    requires WellFormed(p) && ManualBranches(p) && Covered(p)
    requires CoresAgree(t, p, d, ds, k, l) && Decoding(p, k).target != 0
    requires k.spec.previousStore.None?
    requires var u := Tracked(p.code(k.pc), {}, {}); u.inst.controlFlow ==> AddDependencies(d, u).Reg(RIP) <= t
    ensures Decoding(p, l).target != 0
    ensures var e := FinalDependencies(d, Tracked(p.code(k.pc), {}, {}));
            CoresAgree(t, p, e, ds + [e], Mispredict(p, k), Mispredict(p, l))
  {
    hide Decoding, BranchRegs, Agree, SavedAgree, FinalDependencies, AddDependencies;
    BranchedCpusAgree(t, p, d, k, l);
    hide Covered, ManualBranches;
    var e := FinalDependencies(d, Tracked(p.code(k.pc), {}, {}));
    var x, y := k.(cpu := k.cpu.(regs := BranchRegs(p, k))), l.(cpu := l.cpu.(regs := BranchRegs(p, l)));
    var jump := Decoding(p, k).willJump;
    PushedCoresAgree(t, p, e, ds, x, y, BranchTarget(p, k, jump), BranchTarget(p, k, !jump));
    hide CoresAgree, Push;
  }

  lemma PushedCoresAgree(t: set<Label>, p: Program, e: Dependencies, ds: seq<Dependencies>, x: Core, y: Core,
                         next: int, pc: int)
    requires SavedAgree(t, p, ds, x.spec.checkpoints, y.spec.checkpoints) && x.spec.window == y.spec.window
    requires Agree(t, e, {}, x.cpu, y.cpu) && x.spec.previousStore.None? && y.spec.previousStore.None?
    ensures CoresAgree(t, p, e, ds + [e], Push(x, next).(pc := pc), Push(y, next).(pc := pc))
  {
    AgreeWithStale(t, e, p.code(next).OverwrittenFlags(), x.cpu, y.cpu);
    AgreeWithStale(t, e, p.code(pc).OverwrittenFlags(), x.cpu, y.cpu);
    hide Agree;
    PushAgrees(t, p, e, ds, x, y, next);
    hide SavedAgree;
  }

  lemma AgreeWithStale(t: set<Label>, d: Dependencies, stale: set<Flag>, a: Cpu, b: Cpu)
    requires Agree(t, d, {}, a, b)
    ensures Agree(t, d, stale, a, b)
  {}

  // ---------------------------------------------------------------------------------------------
  // Memory accesses

  lemma TrackedFootprint(t: Tracker, accesses: seq<Access>)
    requires t.inst.Some?
    ensures var r := TrackAccesses(t, accesses);
            && r.inst.Some? && t.inst.value.srcMems <= r.inst.value.srcMems &&
               t.inst.value.destMems <= r.inst.value.destMems
            && TracksFootprint(r.inst.value, accesses)
            && t.pending <= r.pending
            && (|accesses| > 0 ==> forall g :: g in t.inst.value.inst.addressRegs ==> RegLabel(g) in r.pending)
    decreases |accesses|
  {
    if |accesses| > 0 {
      var a := accesses[0];
      var u := TaintAddress(TrackAccess(t, a.addr, a.size, a.write));
      TrackedFootprint(u, accesses[1..]);
      TrackAccessesKeeps(u, accesses[1..]);
      assert forall x :: Touches(a, x) ==> WordOf(x) in WordsOf(a.addr, a.size);
      var r := TrackAccesses(t, accesses);
      forall x | ReadsByte(accesses, x) ensures WordOf(x) in r.inst.value.srcMems {
        if !(!a.write && Touches(a, x)) { assert ReadsByte(accesses[1..], x); }
      }
      forall x | WritesByte(accesses, x) ensures WordOf(x) in r.inst.value.destMems {
        if !(a.write && Touches(a, x)) { assert WritesByte(accesses[1..], x); }
      }
    }
  }

  lemma TrackedAlike(t: Tracker, xs: seq<Access>, ys: seq<Access>)
    requires t.inst.Some? && SameFootprint(xs, ys)
    ensures TrackAccesses(t, xs) == TrackAccesses(t, ys)
    decreases |xs|
  {
    if |xs| > 0 {
      TrackedAlike(TaintAddress(TrackAccess(t, xs[0].addr, xs[0].size, xs[0].write)), xs[1..], ys[1..]);
    }
  }

  lemma NoStoreRemembersNothing(c: Config, k: Core, accesses: seq<Access>)
    requires NoStore(accesses)
    ensures RunAccesses(c, k, accesses, false).spec.previousStore == k.spec.previousStore
    decreases |accesses|
  {
    if |accesses| > 0 { NoStoreRemembersNothing(c, Access1(c, k, accesses[0], true), accesses[1..]); }
  }

  function StoreOf(mem: Mem, a: Access): Store {
    Store(a.addr, Read(mem, a.addr, |a.bytes|), a.bytes)
  }

  /** The store that an instruction leaves for bypassing. */
  lemma RememberedStore(c: Config, k: Core, accesses: seq<Access>, j: nat)
    requires OneStore(accesses) && k.spec.previousStore.None? && c.clause == Bpas
    requires j < |accesses| && accesses[j].write
    ensures RunAccesses(c, k, accesses, false).spec.previousStore == Some(StoreOf(k.cpu.mem, accesses[j]))
    decreases |accesses|
  {
    var x := Access1(c, k, accesses[0], true);
    if j == 0 {
      NoStoreRemembersNothing(c, x, accesses[1..]);
    } else {
      assert x.cpu == k.cpu && x.spec == k.spec;
      RememberedStore(c, x, accesses[1..], j - 1);
    }
  }

  lemma StoresOfAgree(t: set<Label>, d: Dependencies, m: Mem, n: Mem, x: Access, y: Access)
    requires x.write && y.write && x.addr == y.addr && x.size == y.size && WellFormedAccess(x) && WellFormedAccess(y)
    requires AgreeMem(t, d, m, n)
    ensures StoresAgree(t, d, Some(StoreOf(m, x)), Some(StoreOf(n, y)))
  {
    forall i | 0 <= i < x.size && d.Word(WordOf(x.addr + i)) <= t
      ensures Read(m, x.addr, x.size)[i] == Read(n, y.addr, y.size)[i]
    {
      assert ByteAt(m, x.addr + i) == ByteAt(n, y.addr + i);
    }
  }

  lemma RememberedStoresAgree(t: set<Label>, d: Dependencies, c: Config, k: Core, l: Core, xs: seq<Access>,
                              ys: seq<Access>)
    requires SameFootprint(xs, ys) && OneStore(xs) && AgreeMem(t, d, k.cpu.mem, l.cpu.mem) && c.clause == Bpas
    requires forall i :: 0 <= i < |xs| ==> WellFormedAccess(xs[i]) && WellFormedAccess(ys[i])
    requires k.spec.previousStore.None? && l.spec.previousStore.None?
    ensures StoresAgree(t, d, RunAccesses(c, k, xs, false).spec.previousStore,
                        RunAccesses(c, l, ys, false).spec.previousStore)
  {
    if j: nat :| j < |xs| && xs[j].write {
      RememberedStore(c, k, xs, j);
      RememberedStore(c, l, ys, j);
      StoresOfAgree(t, d, k.cpu.mem, l.cpu.mem, xs[j], ys[j]);
    } else {
      NoStoreRemembersNothing(c, k, xs);
      NoStoreRemembersNothing(c, l, ys);
    }
  }

  // ---------------------------------------------------------------------------------------------
  // Taint only grows

  lemma PendingIsTainted(d: Dependencies, pending: set<Label>, u: Tracked, l: Label)
    requires l in pending
    ensures AddDependencies(d, u).Of(l) <= TaintedBy(d, pending, u)
  {
    hide AddDependencies;
    assert l in PendingTaint(pending, u);
  }

  lemma FaultKeepsTaint(t: Tracker)
    requires |t.checkpoints| > 0
    ensures TaintedLabels(t) <= TaintedLabels(Taint.Rollback(TaintAddress(t)))
    ensures TaintedLabels(t) <= TaintedLabels(Taint.Rollback(t))
  {
    if t.inst.Some? {
      var u := TaintAddress(t);
      hide AddDependencies, Instr.IsRep;
      assert PendingTaint(t.pending, t.inst.value) <= PendingTaint(u.pending, t.inst.value);
      assert TaintedBy(t.deps, t.pending, t.inst.value) <= TaintedBy(t.deps, u.pending, t.inst.value);
    }
  }

  // ---------------------------------------------------------------------------------------------
  // Steps

  /** A state in which the hooks have seen the current instruction and nothing of it has executed. */
  ghost predicate Ready(p: Program, m: State) {
    && m.tracker.inst == Some(Tracked(p.code(m.core.pc), {}, {}))
    && (p.code(m.core.pc).controlFlow ==> RegLabel(RIP) in m.tracker.pending)
  }

  ghost predicate Sound(c: Config, p: Program) {
    && Loggable(c, p) && Covered(p) && c.tracking
    && (c.clause == Cond ==> ManualBranches(p))
  }

  lemma TaintsCover(t: set<Label>, p: Program, m: State, u: Tracked, pending: set<Label>)
    requires TaintedBy(m.tracker.deps, pending, u) <= t && u.inst == p.code(m.core.pc)
    ensures RegLabel(RIP) in pending ==> AddDependencies(m.tracker.deps, u).Reg(RIP) <= t
    ensures forall r :: RegLabel(r) in pending ==> AddDependencies(m.tracker.deps, u).Reg(r) <= t
  {
    hide AddDependencies, TaintedBy;
    forall r | RegLabel(r) in pending ensures AddDependencies(m.tracker.deps, u).Reg(r) <= t {
      PendingIsTainted(m.tracker.deps, pending, u, RegLabel(r));
    }
  }

  /** Ready states in agreement make the same accesses. */
  lemma AccessesAgree(t: set<Label>, c: Config, p: Program, m: State, n: State)
    requires Sound(c, p) && StacksAgree(c, m) && StacksAgree(c, n) && SameRecords(m, n) && Ready(p, m)
    requires CoresAgree(t, p, m.tracker.deps, m.tracker.checkpoints, m.core, n.core)
    requires TaintedLabels(Accessed(c, p, m).tracker) <= t
    ensures var o, q := p.exec(m.core.pc, m.core.cpu), p.exec(n.core.pc, n.core.cpu);
            var u := Accessed(c, p, m).tracker;
            && SameFootprint(o.accesses, q.accesses) && (o.fault == 0 <==> q.fault == 0)
            && SameRecords(Accessed(c, p, m), Accessed(c, p, n))
            && u.inst.Some? && u.inst.value.inst == p.code(m.core.pc)
            && u.deps == m.tracker.deps && u.checkpoints == m.tracker.checkpoints
            && TracksFootprint(u.inst.value, o.accesses)
            && (p.code(m.core.pc).controlFlow ==> AddDependencies(m.tracker.deps, u.inst.value).Reg(RIP) <= t)
  {
    hide ManualBranches, NarrowStores, SingleStores, StoresAgree, WindowsGrow;
    var o, q := p.exec(m.core.pc, m.core.cpu), p.exec(n.core.pc, n.core.cpu);
    TrackAccessesKeeps(m.tracker, o.accesses);
    TrackedFootprint(m.tracker, o.accesses);
    RunAccessesKeeps(c, m.core, o.accesses, o.fault != 0);
    RunAccessesKeeps(c, n.core, q.accesses, q.fault != 0);
    var u := Accessed(c, p, m).tracker;
    TaintsCover(t, p, m, u.inst.value, u.pending);
    hide TaintedBy, AddDependencies, SavedAgree, AgreeMem, AgreeFlags, RunAccesses;
    SameAccesses(t, m.tracker.deps, u.inst.value, p, m.core.pc, m.core.cpu, n.core.cpu);
    TrackedAlike(m.tracker, o.accesses, q.accesses);
  }

  lemma RetireAgrees(t: set<Label>, c: Config, p: Program, m: State, n: State)
    requires Sound(c, p) && StacksAgree(c, m) && StacksAgree(c, n) && SameRecords(m, n) && Ready(p, m)
    requires CoresAgree(t, p, m.tracker.deps, m.tracker.checkpoints, m.core, n.core)
    requires m.core.spec.previousStore.None?
    requires TaintedLabels(Accessed(c, p, m).tracker) <= t
    requires p.exec(m.core.pc, m.core.cpu).fault == 0
    requires !Accessed(c, p, m).core.spec.failed && !Accessed(c, p, n).core.spec.failed
    ensures Lockstep(t, p, Execute(c, p, m), Execute(c, p, n))
  {
    AccessesAgree(t, c, p, m, n);
    var pc, d := m.core.pc, m.tracker.deps;
    var o, q := p.exec(pc, m.core.cpu), p.exec(pc, n.core.cpu);
    var u := Accessed(c, p, m).tracker.inst.value;
    RunAccessesKeeps(c, m.core, o.accesses, false);
    RunAccessesKeeps(c, n.core, q.accesses, false);
    AccessesStore(c, m.core, o.accesses, false);
    AccessesStore(c, n.core, q.accesses, false);
    hide AddDependencies, FinalDependencies, TaintedLabels, SavedAgree, AgreeRegs, AgreeFlags;
    SameNext(t, d, u, p, pc, m.core.cpu, n.core.cpu);
    ExecutionKeepsAgreement(t, d, u, p, pc, m.core.cpu, n.core.cpu);
    AgreeWithStale(t, FinalDependencies(d, u), p.code(o.next).OverwrittenFlags(), After(o, m.core.cpu),
                   After(q, n.core.cpu));
    assert StoresAgree(t, d, Accessed(c, p, m).core.spec.previousStore, Accessed(c, p, n).core.spec.previousStore) by {
      if c.clause == Bpas { RememberedStoresAgree(t, d, c, m.core, n.core, o.accesses, q.accesses); }
    }
    StoresStillAgree(t, d, u, Accessed(c, p, m).core.spec.previousStore, Accessed(c, p, n).core.spec.previousStore);
    hide Agree, StoresAgree;
  }

  lemma StoresStillAgree(t: set<Label>, d: Dependencies, u: Tracked, a: Option<Store>, b: Option<Store>)
    requires StoresAgree(t, d, a, b)
    ensures StoresAgree(t, FinalDependencies(d, u), a, b)
  {
    DependenciesAfter(d, u);
    hide FinalDependencies, SrcDependencies;
  }

  lemma FaultAgrees(t: set<Label>, c: Config, p: Program, m: State, n: State)
    requires Sound(c, p) && StacksAgree(c, m) && StacksAgree(c, n) && SameRecords(m, n) && Ready(p, m)
    requires CoresAgree(t, p, m.tracker.deps, m.tracker.checkpoints, m.core, n.core)
    requires TaintedLabels(Accessed(c, p, m).tracker) <= t
    requires p.exec(m.core.pc, m.core.cpu).fault != 0 && m.core.Level() > 0
    requires SnapshotsHold(m.core) && SnapshotsHold(n.core)
    requires !Accessed(c, p, m).core.spec.failed && !Accessed(c, p, n).core.spec.failed
    ensures Lockstep(t, p, Execute(c, p, m), Execute(c, p, n))
  {
    AccessesAgree(t, c, p, m, n);
    var o, q := p.exec(m.core.pc, m.core.cpu), p.exec(n.core.pc, n.core.cpu);
    RunAccessesKeeps(c, m.core, o.accesses, true);
    RunAccessesKeeps(c, n.core, q.accesses, true);
    AccessesLayers(c, m.core, o.accesses, true);
    AccessesLayers(c, n.core, q.accesses, true);
    hide AddDependencies, TaintedLabels, Agree, SavedAgree;
    RollBackAgrees(t, c, p, ShowFault(c, p, Accessed(c, p, m)), ShowFault(c, p, Accessed(c, p, n)));
    hide Lockstep, RollBack;
  }

  lemma ExecutionTaints(c: Config, p: Program, m: State)
    requires c.tracking && StacksAgree(c, m) && m.tracker.inst.Some? && !Accessed(c, p, m).core.spec.failed
    requires p.exec(m.core.pc, m.core.cpu).fault == 0 || m.core.Level() > 0
    ensures TaintedLabels(Accessed(c, p, m).tracker) <= TaintedLabels(Execute(c, p, m).tracker)
  {
    var o := p.exec(m.core.pc, m.core.cpu);
    RunAccessesKeeps(c, m.core, o.accesses, o.fault != 0);
    if o.fault != 0 { FaultKeepsTaint(Accessed(c, p, m).tracker); }
    hide TaintedLabels, Accessed;
  }

  lemma ExecuteAgrees(t: set<Label>, c: Config, p: Program, m: State, n: State)
    requires Sound(c, p) && StacksAgree(c, m) && StacksAgree(c, n) && SameRecords(m, n) && Ready(p, m)
    requires CoresAgree(t, p, m.tracker.deps, m.tracker.checkpoints, m.core, n.core)
    requires Layered(c, m.core) && Layered(c, n.core) && m.core.spec.previousStore.None?
    requires m.core.Level() == 0 ==> p.exec(m.core.pc, m.core.cpu).fault == 0
    requires TaintedLabels(Execute(c, p, m).tracker) <= t
    ensures Lockstep(t, p, Execute(c, p, m), Execute(c, p, n))
  {
    var o, q := p.exec(m.core.pc, m.core.cpu), p.exec(n.core.pc, n.core.cpu);
    if c.clause == Bpas {
      NeverFails(c, m.core, o.accesses, o.fault != 0);
      NeverFails(c, n.core, q.accesses, q.fault != 0);
    } else {
      NoPendingStore(c, m.core, o.accesses, o.fault != 0);
      NoPendingStore(c, n.core, q.accesses, q.fault != 0);
    }
    assert !Accessed(c, p, m).core.spec.failed && !Accessed(c, p, n).core.spec.failed;
    hide Accessed, Execute, TaintedLabels, Lockstep, CoresAgree, Sound, WellFormed;
    ExecutionTaints(c, p, m);
    if o.fault == 0 { RetireAgrees(t, c, p, m, n); } else { FaultAgrees(t, c, p, m, n); }
  }

  /** What holds between the hooks and the speculator's decision. */
  ghost predicate Seen(t: set<Label>, c: Config, p: Program, m: State, n: State) {
    && StacksAgree(c, m) && StacksAgree(c, n) && SameRecords(m, n) && Ready(p, m)
    && Layered(c, m.core) && Layered(c, n.core) && m.status == Running
    && CoresAgree(t, p, m.tracker.deps, m.tracker.checkpoints, m.core, n.core)
  }

  lemma MarksAgree(t: set<Label>, d: Dependencies, i: Instr, a: Cpu, b: Cpu)
    requires Agree(t, d, i.OverwrittenFlags(), a, b)
    ensures Agree(t, MarkOverwrittenFlags(d, i), i.OverwrittenFlags(), a, b)
  {
    hide FlagBit;
    var e := MarkOverwrittenFlags(d, i);
    assert forall f :: f !in i.OverwrittenFlags() ==> e.Flag(f) == d.Flag(f);
    assert forall r :: e.Reg(r) == d.Reg(r);
    assert forall w :: e.Word(w) == d.Word(w);
  }

  lemma ArriveLayers(c: Config, p: Program, m: State)
    requires StacksAgree(c, m) && Layered(c, m.core)
    ensures Layered(c, Arrive(c, p, m).core) && Arrive(c, p, m).core.cpu == m.core.cpu
  {
    hide ObserveInstruction;
  }

  /** Resetting flags that are about to be overwritten keeps cores in agreement, and counting the window
      does so too. */
  lemma MarkedCoresAgree(t: set<Label>, p: Program, d: Dependencies, ds: seq<Dependencies>, k: Core, l: Core)
    requires CoresAgree(t, p, d, ds, k, l)
    ensures CoresAgree(t, p, MarkOverwrittenFlags(d, p.code(k.pc)), ds, CountWindow(k), CountWindow(l))
  {
    var e := MarkOverwrittenFlags(d, p.code(k.pc));
    MarksAgree(t, d, p.code(k.pc), k.cpu, l.cpu);
    assert forall w :: e.Word(w) == d.Word(w);
    assert StoresAgree(t, e, k.spec.previousStore, l.spec.previousStore);
    hide Agree, SavedAgree, StoresAgree, MarkOverwrittenFlags;
  }

  /** What the hooks in front of the speculator leave in the tracker and the core. */
  lemma ArriveParts(c: Config, p: Program, m: State)
    requires StacksAgree(c, m) && c.tracking
    ensures var x := Arrive(c, p, m);
            && Ready(p, x) && x.core == CountWindow(m.core) && x.status == m.status
            && x.tracker.deps == MarkOverwrittenFlags(Finalize(m.tracker).deps, p.code(m.core.pc))
            && x.tracker.checkpoints == m.tracker.checkpoints && x.tracker.tainted == TaintedLabels(m.tracker)
  {
    hide TaintedBy, FinalDependencies, MarkOverwrittenFlags;
  }

  lemma ArriveAlike(c: Config, p: Program, m: State, n: State)
    requires StacksAgree(c, m) && StacksAgree(c, n) && SameRecords(m, n) && m.core.pc == n.core.pc
    requires m.core.Level() == n.core.Level()
    ensures SameRecords(Arrive(c, p, m), Arrive(c, p, n))
  {
    hide StacksAgree, Taint.TrackInstruction, TaintPc;
  }

  lemma ArriveAgrees(t: set<Label>, c: Config, p: Program, m: State, n: State)
    requires Sound(c, p) && StacksAgree(c, m) && StacksAgree(c, n) && Lockstep(t, p, m, n)
    requires Layered(c, m.core) && Layered(c, n.core) && m.status == Running
    ensures Seen(t, c, p, Arrive(c, p, m), Arrive(c, p, n))
    ensures Arrive(c, p, m).tracker.tainted == TaintedLabels(m.tracker)
  {
    assert c.tracking;
    hide Sound, Layered, Finalize, WindowsGrow, Ready, TaintedLabels;
    LockstepRecords(t, p, m, n);
    ArriveAlike(c, p, m, n);
    hide SameRecords;
    MarkedCoresAgree(t, p, Finalize(m.tracker).deps, m.tracker.checkpoints, m.core, n.core);
    hide CoresAgree, MarkOverwrittenFlags;
    ArriveLayers(c, p, m);
    ArriveLayers(c, p, n);
    ArriveParts(c, p, m);
    ArriveParts(c, p, n);
    hide Arrive, CountWindow;
  }

  lemma WrongPathAgrees(t: set<Label>, c: Config, p: Program, m: State, n: State)
    requires Sound(c, p) && Seen(t, c, p, m, n) && Mispredicts(c, p, m.core)
    requires TaintedLabels(TakeWrongPath(c, p, m).tracker) <= t
    ensures Mispredicts(c, p, n.core)
    ensures Lockstep(t, p, TakeWrongPath(c, p, m), TakeWrongPath(c, p, n))
    ensures Lockstep(t, p, RollBack(c, TakeWrongPath(c, p, m)), RollBack(c, TakeWrongPath(c, p, n)))
  {
    hide Covered, ManualBranches, NarrowStores, SingleStores, Layered;
    WrongPathLayers(c, p, m);
    var u := Tracked(p.code(m.core.pc), {}, {});
    hide SavedAgree, Agree, AddDependencies, TaintedBy, WindowsGrow, Undo;
    TaintsCover(t, p, m, u, m.tracker.pending);
    MispredictAgrees(t, p, m.tracker.deps, m.tracker.checkpoints, m.core, n.core);
    assert Mispredicts(c, p, n.core);
    hide Mispredicts, Mispredict;
    WrongPathLayers(c, p, n);
    assert Lockstep(t, p, TakeWrongPath(c, p, m), TakeWrongPath(c, p, n));
    RollBackAgrees(t, c, p, TakeWrongPath(c, p, m), TakeWrongPath(c, p, n));
    hide Lockstep;
  }

  lemma BypassTakenAgrees(t: set<Label>, c: Config, p: Program, m: State, n: State)
    requires Sound(c, p) && Seen(t, c, p, m, n) && Bypasses(c, m.core)
    ensures Bypasses(c, n.core) && Seen(t, c, p, TakeBypass(c, m), TakeBypass(c, n))
  {
    assert c.tracking;
    hide Sound, CoresAgree, Layered, SpeculatorAgrees;
    BypassedCoresAgree(t, c, p, m.tracker.deps, m.tracker.checkpoints, m.core, n.core);
    BypassPathLayers(c, m);
    BypassPathLayers(c, n);
    hide BypassStore;
  }

  lemma BypassForgottenAgrees(t: set<Label>, c: Config, p: Program, m: State, n: State)
    requires Sound(c, p) && Seen(t, c, p, m, n) && !Bypasses(c, m.core)
    ensures !Bypasses(c, n.core) && Seen(t, c, p, TakeBypass(c, m), TakeBypass(c, n))
  {
    hide Sound, CoresAgree, Layered, SpeculatorAgrees;
    BypassedCoresAgree(t, c, p, m.tracker.deps, m.tracker.checkpoints, m.core, n.core);
    BypassPathLayers(c, m);
    BypassPathLayers(c, n);
    hide ForgetStore;
  }

  lemma BypassPathAgrees(t: set<Label>, c: Config, p: Program, m: State, n: State)
    requires Sound(c, p) && Seen(t, c, p, m, n)
    ensures Seen(t, c, p, TakeBypass(c, m), TakeBypass(c, n))
    ensures TakeBypass(c, m).core.spec.previousStore.None? && TakeBypass(c, m).tracker.tainted == m.tracker.tainted
    ensures TakeBypass(c, m).core.pc == m.core.pc
  {
    if Bypasses(c, m.core) { BypassTakenAgrees(t, c, p, m, n); }
    else { BypassForgottenAgrees(t, c, p, m, n); }
    hide Seen, Sound;
    BypassPathLayers(c, m);
  }

  lemma BypassedCoresAgree(t: set<Label>, c: Config, p: Program, d: Dependencies, ds: seq<Dependencies>, k: Core,
                           l: Core)
    requires CoresAgree(t, p, d, ds, k, l)
    ensures Bypasses(c, k) == Bypasses(c, l)
    ensures if Bypasses(c, k) then CoresAgree(t, p, d, ds + [d], BypassStore(k), BypassStore(l))
            else CoresAgree(t, p, d, ds, ForgetStore(c, k), ForgetStore(c, l))
  {
    hide Agree;
    if Bypasses(c, k) { BypassAgrees(t, p, d, ds, k, l); hide BypassStore; }
  }

  lemma RollBackTaints(c: Config, m: State)
    requires c.tracking && StacksAgree(c, m) && m.core.Level() > 0
    ensures TaintedLabels(m.tracker) <= TaintedLabels(RollBack(c, m).tracker)
  {
    FaultKeepsTaint(m.tracker);
  }

  /** The instruction in flight never loses the taints of its predecessors. */
  lemma TaintGrows(t: Tracker)
    ensures t.tainted <= TaintedLabels(t)
  {}

  lemma DecisionAgrees(t: set<Label>, c: Config, p: Program, m: State, n: State)
    requires Sound(c, p) && Seen(t, c, p, m, n) && !Mispredicts(c, p, m.core)
    requires m.core.Level() == 0 && !Bypasses(c, m.core) ==> p.exec(m.core.pc, m.core.cpu).fault == 0
    requires MustStop(c, p, m.core) || TaintedLabels(Execute(c, p, TakeBypass(c, m)).tracker) <= t
    ensures MustStop(c, p, m.core) ==> Lockstep(t, p, RollBack(c, TakeBypass(c, m)), RollBack(c, TakeBypass(c, n)))
    ensures !MustStop(c, p, m.core) ==> Lockstep(t, p, Execute(c, p, TakeBypass(c, m)), Execute(c, p, TakeBypass(c, n)))
  {
    BypassPathAgrees(t, c, p, m, n);
    var x, y := TakeBypass(c, m), TakeBypass(c, n);
    assert x.core.Level() == 0 ==> x.core.cpu == m.core.cpu && x.core.pc == m.core.pc && !Bypasses(c, m.core);
    hide TakeBypass, Lockstep, Execute, Mispredicts, Agree;
    if MustStop(c, p, m.core) { RollBackAgrees(t, c, p, x, y); }
    else { ExecuteAgrees(t, c, p, x, y); }
  }

  lemma MispredictsAlike(c: Config, p: Program, k: Core, l: Core)
    requires WellFormed(p) && k.pc == l.pc && k.Level() == l.Level()
    ensures Mispredicts(c, p, k) == Mispredicts(c, p, l)
  {
    TargetFromCodeOnly(p.code(k.pc).code, k.cpu.flags, RegValue(k.cpu.regs, C), l.cpu.flags, RegValue(l.cpu.regs, C));
    hide Decode;
  }

  lemma DecideAgrees(t: set<Label>, c: Config, p: Program, x: State, y: State)
    requires Sound(c, p) && Seen(t, c, p, x, y)
    requires x.core.Level() == 0 && !Bypasses(c, x.core) ==> p.exec(x.core.pc, x.core.cpu).fault == 0
    requires TaintedLabels(Decide(c, p, x).tracker) <= t
    ensures Lockstep(t, p, Decide(c, p, x), Decide(c, p, y))
  {
    MispredictsAlike(c, p, x.core, y.core);
    assert MustStop(c, p, x.core) == MustStop(c, p, y.core);
    hide Lockstep, Execute, Agree, TaintedLabels, RollBack, TakeWrongPath, TakeBypass, Mispredicts, MustStop;
    if Mispredicts(c, p, x.core) {
      RollBackTaints(c, TakeWrongPath(c, p, x));
      WrongPathAgrees(t, c, p, x, y);
    } else {
      DecisionAgrees(t, c, p, x, y);
    }
  }

  lemma VisitAgrees(t: set<Label>, c: Config, p: Program, m: State, n: State)
    requires Sound(c, p) && StacksAgree(c, m) && StacksAgree(c, n) && Lockstep(t, p, m, n)
    requires Layered(c, m.core) && Layered(c, n.core) && m.status == Running
    requires m.core.Level() == 0 && !Bypasses(c, m.core) ==> p.exec(m.core.pc, m.core.cpu).fault == 0
    requires TaintedLabels(Visit(c, p, m).tracker) <= t
    ensures Lockstep(t, p, Visit(c, p, m), Visit(c, p, n))
  {
    ArriveAgrees(t, c, p, m, n);
    var x, y := Arrive(c, p, m), Arrive(c, p, n);
    assert x.core.Level() == 0 ==> x.core == m.core;
    hide Lockstep, Arrive, Decide, TaintedLabels, Agree;
    DecideAgrees(t, c, p, x, y);
  }

  lemma ExecuteGrows(c: Config, p: Program, m: State)
    requires StacksAgree(c, m) && (c.tracking ==> m.tracker.inst.Some?)
    ensures m.tracker.tainted <= Execute(c, p, m).tracker.tainted && (m.hadFault ==> Execute(c, p, m).hadFault)
  {
    hide TaintedBy, FinalDependencies, RunAccesses, Pop, WindowsGrow, Addresses;
    if c.tracking { TrackAccessesKeeps(m.tracker, p.exec(m.core.pc, m.core.cpu).accesses); }
  }

  lemma DecideGrows(c: Config, p: Program, m: State)
    requires StacksAgree(c, m) && ValidEncoding(p.code(m.core.pc).code)
    requires m.status == Running && (c.tracking ==> m.tracker.inst.Some?)
    ensures m.tracker.tainted <= Decide(c, p, m).tracker.tainted && (m.hadFault ==> Decide(c, p, m).hadFault)
  {
    hide Mispredicts, Mispredict, BypassStore, TaintedBy, FinalDependencies, Pop, WindowsGrow, Execute, MustStop,
      ForgetStore;
    if !Mispredicts(c, p, m.core) { ExecuteGrows(c, p, TakeBypass(c, m)); }
    hide Execute;
  }

  lemma VisitGrows(c: Config, p: Program, m: State)
    requires StacksAgree(c, m) && WellFormed(p) && m.status == Running && c.tracking
    ensures TaintedLabels(m.tracker) <= TaintedLabels(Visit(c, p, m).tracker)
    ensures m.hadFault ==> Visit(c, p, m).hadFault
  {
    hide Decide, TaintedBy, FinalDependencies;
    var x := Arrive(c, p, m);
    assert x.hadFault == m.hadFault && x.tracker.tainted == TaintedLabels(m.tracker);
    DecideGrows(c, p, x);
    TaintGrows(Decide(c, p, x).tracker);
    hide Arrive, TaintedLabels;
  }

  /** Neither taints nor the record of an architectural fault are ever lost. */
  lemma StepGrows(c: Config, p: Program, m: State)
    requires StacksAgree(c, m) && WellFormed(p) && c.tracking
    ensures TaintedLabels(m.tracker) <= TaintedLabels(Step(c, p, m).tracker)
    ensures m.hadFault ==> Step(c, p, m).hadFault
  {
    hide Visit, TaintedLabels;
    if m.status == Running {
      if m.core.Level() > 0 { RollBackTaints(c, m); }
      VisitGrows(c, p, m);
    }
    hide RollBack;
  }

  /** An architectural fault is recorded. */
  lemma FaultIsRecorded(c: Config, p: Program, m: State)
    requires Loggable(c, p) && (c.clause == Cond ==> ManualBranches(p))
    requires StacksAgree(c, m) && Layered(c, m.core) && ArchitecturalFault(c, p, m)
    ensures Step(c, p, m).hadFault
  {
    hide Visit, Mispredicts;
    if Mispredicts(c, p, m.core) {
      MispredictionsNeverFault(c, p, m.core);
      assert false;
    } else {
      VisitOutsideSpeculation(c, p, m);
      assert Erase(Visit(c, p, m)).hadFault;
    }
  }

  lemma MispredictionsNeverFault(c: Config, p: Program, k: Core)
    requires WellFormed(p) && (c.clause == Cond ==> ManualBranches(p)) && Mispredicts(c, p, k)
    ensures p.exec(k.pc, k.cpu).fault == 0
  {
    DecodedTarget(p.code(k.pc).code, k.cpu.flags, RegValue(k.cpu.regs, C));
    hide Decode, ManualBranch;
  }

  lemma StepAgrees(t: set<Label>, c: Config, p: Program, m: State, n: State)
    requires Sound(c, p) && StacksAgree(c, m) && StacksAgree(c, n) && Lockstep(t, p, m, n)
    requires Layered(c, m.core) && Layered(c, n.core)
    requires !Step(c, p, m).hadFault && TaintedLabels(Step(c, p, m).tracker) <= t
    ensures Lockstep(t, p, Step(c, p, m), Step(c, p, n))
    ensures Layered(c, Step(c, p, m).core) && Layered(c, Step(c, p, n).core)
  {
    assert !ArchitecturalFault(c, p, m) by {
      if ArchitecturalFault(c, p, m) { FaultIsRecorded(c, p, m); }
    }
    StepLockstep(t, c, p, m, n);
    LockstepRecords(t, p, Step(c, p, m), Step(c, p, n));
    hide Step, Lockstep, Visit;
    assert !ArchitecturalFault(c, p, n) by {
      if ArchitecturalFault(c, p, n) { FaultIsRecorded(c, p, n); }
    }
    StepLayers(c, p, m);
    StepLayers(c, p, n);
  }

  lemma LockstepRecords(t: set<Label>, p: Program, m: State, n: State)
    requires Lockstep(t, p, m, n)
    ensures SameRecords(m, n) && m.core.pc == n.core.pc && m.core.Level() == n.core.Level()
  {}

  lemma StepLockstep(t: set<Label>, c: Config, p: Program, m: State, n: State)
    requires Sound(c, p) && StacksAgree(c, m) && StacksAgree(c, n) && Lockstep(t, p, m, n)
    requires Layered(c, m.core) && Layered(c, n.core) && !ArchitecturalFault(c, p, m)
    requires TaintedLabels(Step(c, p, m).tracker) <= t
    ensures Lockstep(t, p, Step(c, p, m), Step(c, p, n))
  {
    hide Agree;
    if m.status == Running {
      if IsExit(p, m.core.pc) || (m.reentry && m.core.pc != p.start && m.core.pc == p.faultHandler &&
                                  m.core.spec.inSpeculation) {
        if m.core.Level() > 0 { RollBackAgrees(t, c, p, m, n); }
      } else {
        VisitAgrees(t, c, p, m, n);
      }
    }
    hide Visit, RollBack;
  }

  // ---------------------------------------------------------------------------------------------
  // Runs

  /** The initial states agree on the labels. */
  ghost predicate InputsAgree(t: set<Label>, a: Cpu, b: Cpu) {
    && |a.mem| == |b.mem|
    && (forall r :: RegLabel(r) in t ==> RegValue(a.regs, r) == RegValue(b.regs, r))
    && (forall f :: FlagLabel(f) in t ==> FlagBit(a.flags, f) == FlagBit(b.flags, f))
    && (forall x :: 0 <= x < |a.mem| && WordLabel(WordOf(x)) in t ==> ByteAt(a.mem, x) == ByteAt(b.mem, x))
  }

  lemma InitialLockstep(t: set<Label>, c: Config, p: Program, a: Cpu, b: Cpu)
    requires InputsAgree(t, a, b)
    ensures Lockstep(t, p, Initial(p, a), Initial(p, b))
    ensures Layered(c, Initial(p, a).core) && Layered(c, Initial(p, b).core)
  {}

  lemma {:induction false} RunsInLockstep(t: set<Label>, c: Config, p: Program, a: State, b: State, n: nat)
    requires Sound(c, p) && StacksAgree(c, a) && StacksAgree(c, b) && Lockstep(t, p, a, b)
    requires Layered(c, a.core) && Layered(c, b.core)
    requires !Run(c, p, a, n).hadFault && TaintedLabels(Run(c, p, a, n).tracker) <= t
    ensures Lockstep(t, p, Run(c, p, a, n), Run(c, p, b, n))
    ensures Layered(c, Run(c, p, a, n).core) && Layered(c, Run(c, p, b, n).core)
  {
    hide Step, Lockstep, TaintedLabels, Layered, StacksAgree, Covered;
    if n > 0 {
      StepGrows(c, p, Run(c, p, a, n - 1));
      RunsInLockstep(t, c, p, a, b, n - 1);
      StepAgrees(t, c, p, Run(c, p, a, n - 1), Run(c, p, b, n - 1));
    }
  }

  /** Taint soundness: while the first run meets no architectural fault, an input that agrees with it on
      every label it tainted is traced alike, step by step and mispredicted path by mispredicted path,
      with the same taint. */
  lemma TaintSound(c: Config, p: Program, a: Cpu, b: Cpu, n: nat)
    requires Sound(c, p) && !Run(c, p, Initial(p, a), n).hadFault
    requires InputsAgree(TaintedLabels(Run(c, p, Initial(p, a), n).tracker), a, b)
    ensures var m, k := Run(c, p, Initial(p, a), n), Run(c, p, Initial(p, b), n);
            && k.trace == m.trace && k.status == m.status && !k.hadFault
            && k.core.pc == m.core.pc && k.core.Level() == m.core.Level()
            && TaintedLabels(k.tracker) == TaintedLabels(m.tracker)
  {
    var t := TaintedLabels(Run(c, p, Initial(p, a), n).tracker);
    InitialLockstep(t, c, p, a, b);
    hide Lockstep, Layered;
    RunsInLockstep(t, c, p, Initial(p, a), Initial(p, b), n);
    LockstepRecords(t, p, Run(c, p, Initial(p, a), n), Run(c, p, Initial(p, b), n));
  }
}
