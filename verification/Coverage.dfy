/** Instructions whose effects are covered by their declared operands, and how the dependencies that
the taint tracker keeps bound what two executions of such an instruction can differ in. */
module Coverage {
  import opened Memory
  import opened BranchDecoder
  import opened Instructions
  import opened Taint
  import opened Transparency

  // ---------------------------------------------------------------------------------------------
  // Two executions of one instruction

  predicate SameFootprint(xs: seq<Access>, ys: seq<Access>) {
    && |xs| == |ys|
    && forall k :: 0 <= k < |xs| ==> xs[k].write == ys[k].write && xs[k].addr == ys[k].addr && xs[k].size == ys[k].size
  }

  predicate Touches(a: Access, x: int) {
    a.addr <= x < a.addr + a.size
  }

  predicate ReadsByte(accesses: seq<Access>, x: int) {
    exists k :: 0 <= k < |accesses| && !accesses[k].write && Touches(accesses[k], x)
  }

  predicate WritesByte(accesses: seq<Access>, x: int) {
    exists k :: 0 <= k < |accesses| && accesses[k].write && Touches(accesses[k], x)
  }

  ghost predicate SameAddressRegs(i: Instr, a: Cpu, b: Cpu) {
    forall r :: r in i.addressRegs ==> RegValue(a.regs, r) == RegValue(b.regs, r)
  }

  /** The declared source registers and flags, and the bytes read, have equal values. */
  ghost predicate SameSources(i: Instr, accesses: seq<Access>, a: Cpu, b: Cpu) {
    && (forall r :: r in i.srcRegs ==> RegValue(a.regs, r) == RegValue(b.regs, r))
    && (forall f :: f in i.SrcFlags() ==> FlagBit(a.flags, f) == FlagBit(b.flags, f))
    && (forall x :: 0 <= x < |a.mem| && ReadsByte(accesses, x) ==> ByteAt(a.mem, x) == ByteAt(b.mem, x))
  }

  /** An undeclared register or flag keeps its value, and only control flow chooses where to go on. */
  ghost predicate DeclaredEffects(i: Instr, pc: int, a: Cpu, o: Outcome) {
    && (forall r :: r !in i.destRegs ==> RegValue(o.regs, r) == RegValue(a.regs, r))
    && (forall f :: f !in i.DestFlags() ==> FlagBit(o.flags, f) == FlagBit(a.flags, f))
    && (if i.controlFlow then RIP in i.destRegs else o.next == pc + i.Size())
  }

  /** Equal sources give equal results; a result that is merged into its destination also needs the
      old value. */
  ghost predicate DeterminedEffects(i: Instr, a: Cpu, b: Cpu, o: Outcome, q: Outcome) {
    && o.accesses == q.accesses
    && (i.controlFlow ==> o.next == q.next)
    && (forall r :: r in i.destRegs && (i.Overrides() || RegValue(a.regs, r) == RegValue(b.regs, r)) ==>
          RegValue(o.regs, r) == RegValue(q.regs, r))
    && (forall f :: f in i.DestFlags() && (f in i.OverwrittenFlags() || FlagBit(a.flags, f) == FlagBit(b.flags, f)) ==>
          FlagBit(o.flags, f) == FlagBit(q.flags, f))
  }

  /** The address registers determine the footprint and whether the instruction faults; an instruction
      without memory accesses never has any, and faults in every state or in none. */
  ghost predicate CoveredAt(p: Program, pc: int, a: Cpu, b: Cpu) {
    var i, o, q := p.code(pc), p.exec(pc, a), p.exec(pc, b);
    && (|o.accesses| == 0 <==> |q.accesses| == 0)
    && (|o.accesses| == 0 || SameAddressRegs(i, a, b) ==> (o.fault == 0 <==> q.fault == 0))
    && (SameAddressRegs(i, a, b) ==> SameFootprint(o.accesses, q.accesses))
    && (o.fault == 0 ==> DeclaredEffects(i, pc, a, o))
    && (SameFootprint(o.accesses, q.accesses) && o.fault == 0 == q.fault && SameSources(i, o.accesses, a, b) ==>
          DeterminedEffects(i, a, b, o, q))
  }

  ghost predicate Covered(p: Program) {
    forall pc, a: Cpu, b: Cpu :: |a.mem| == |b.mem| ==> CoveredAt(p, pc, a, b)
  }

  // ---------------------------------------------------------------------------------------------
  // Agreement up to untainted dependencies

  ghost predicate AgreeRegs(t: set<Label>, d: Dependencies, a: Registers, b: Registers) {
    forall r :: d.Reg(r) <= t ==> RegValue(a, r) == RegValue(b, r)
  }

  ghost predicate AgreeFlags(t: set<Label>, d: Dependencies, stale: set<Flag>, a: Flags, b: Flags) {
    forall f :: f !in stale && d.Flag(f) <= t ==> FlagBit(a, f) == FlagBit(b, f)
  }

  ghost predicate AgreeMem(t: set<Label>, d: Dependencies, a: Mem, b: Mem) {
    && |a| == |b|
    && forall x :: 0 <= x < |a| && d.Word(WordOf(x)) <= t ==> ByteAt(a, x) == ByteAt(b, x)
  }

  /** Every register, flag and byte whose dependencies are all tainted has the same value; flags that
      are about to be overwritten are exempt. */
  ghost predicate Agree(t: set<Label>, d: Dependencies, stale: set<Flag>, a: Cpu, b: Cpu) {
    AgreeRegs(t, d, a.regs, b.regs) && AgreeFlags(t, d, stale, a.flags, b.flags) && AgreeMem(t, d, a.mem, b.mem)
  }

  // ---------------------------------------------------------------------------------------------
  // The tracked words cover the footprint

  /** The words that the accesses read or write, as the tracker collects them. */
  ghost predicate TracksFootprint(u: Tracked, accesses: seq<Access>) {
    && (forall x :: ReadsByte(accesses, x) ==> WordOf(x) in u.srcMems)
    && (forall x :: WritesByte(accesses, x) ==> WordOf(x) in u.destMems)
  }

  lemma SourcesAgree(t: set<Label>, d: Dependencies, u: Tracked, accesses: seq<Access>, a: Cpu, b: Cpu)
    requires Agree(t, d, u.inst.OverwrittenFlags(), a, b) && TracksFootprint(u, accesses)
    requires SrcDependencies(d, u) <= t
    ensures SameSources(u.inst, accesses, a, b)
  {
    forall r | r in u.inst.srcRegs ensures RegValue(a.regs, r) == RegValue(b.regs, r) {
      forall l | l in d.Reg(r) ensures l in t { assert l in SrcDependencies(d, u); }
    }
    forall f | f in u.inst.SrcFlags() ensures FlagBit(a.flags, f) == FlagBit(b.flags, f) {
      forall l | l in d.Flag(f) ensures l in t { assert l in SrcDependencies(d, u); }
    }
    forall x | 0 <= x < |a.mem| && ReadsByte(accesses, x) ensures ByteAt(a.mem, x) == ByteAt(b.mem, x) {
      forall l | l in d.Word(WordOf(x)) ensures l in t { assert l in SrcDependencies(d, u); }
    }
  }

  lemma UntouchedByte(m: Mem, accesses: seq<Access>, x: int)
    requires forall k :: 0 <= k < |accesses| ==> WellFormedAccess(accesses[k])
    requires !WritesByte(accesses, x)
    ensures |Stored(m, accesses, false)| == |m|
    ensures ByteAt(Stored(m, accesses, false), x) == ByteAt(m, x)
    decreases |accesses|
  {
    if |accesses| > 0 {
      var a := accesses[0];
      assert !(a.write && Touches(a, x));
      assert !WritesByte(accesses[1..], x);
      UntouchedByte(if a.write then Write(m, a.addr, a.bytes) else m, accesses[1..], x);
    }
  }

  lemma SameStores(m: Mem, n: Mem, accesses: seq<Access>, x: int)
    requires |m| == |n| && ByteAt(m, x) == ByteAt(n, x)
    ensures |Stored(m, accesses, false)| == |m| && |Stored(n, accesses, false)| == |n|
    ensures ByteAt(Stored(m, accesses, false), x) == ByteAt(Stored(n, accesses, false), x)
    decreases |accesses|
  {}

  // ---------------------------------------------------------------------------------------------
  // One execution

  function After(o: Outcome, a: Cpu): Cpu {
    Cpu(o.regs, o.flags, Stored(a.mem, o.accesses, false))
  }

  /** The dependencies after an instruction, one by one. */
  lemma DependenciesAfter(d: Dependencies, u: Tracked)
    ensures var e, src := FinalDependencies(d, u), SrcDependencies(d, u);
            && (forall r :: e.Reg(r) == if r !in u.inst.destRegs then d.Reg(r)
                                        else if u.inst.Overrides() then src else d.Reg(r) + src)
            && (forall f :: e.Flag(f) == if f in u.inst.DestFlags() then d.Flag(f) + src else d.Flag(f))
            && (forall w :: e.Word(w) == if w in u.destMems then d.Word(w) + src else d.Word(w))
  {
    hide SrcDependencies;
  }

  /** Two fault-free executions with one footprint, which the tracker has seen. */
  ghost predicate Comparable(u: Tracked, p: Program, pc: int, a: Cpu, b: Cpu) {
    var o, q := p.exec(pc, a), p.exec(pc, b);
    && u.inst == p.code(pc) && |a.mem| == |b.mem|
    && SameFootprint(o.accesses, q.accesses) && TracksFootprint(u, o.accesses) && o.fault == 0 == q.fault
  }

  lemma RegsAfter(t: set<Label>, d: Dependencies, u: Tracked, p: Program, pc: int, a: Cpu, b: Cpu)
    requires Covered(p)
    requires Agree(t, d, u.inst.OverwrittenFlags(), a, b)
    requires Comparable(u, p, pc, a, b)
    ensures AgreeRegs(t, FinalDependencies(d, u), p.exec(pc, a).regs, p.exec(pc, b).regs)
  {
    var o, q, e := p.exec(pc, a), p.exec(pc, b), FinalDependencies(d, u);
    assert CoveredAt(p, pc, a, b) && CoveredAt(p, pc, b, a);
    DependenciesAfter(d, u);
    hide FinalDependencies, SrcDependencies;
    forall r | e.Reg(r) <= t ensures RegValue(o.regs, r) == RegValue(q.regs, r) {
      if r in u.inst.destRegs { SourcesAgree(t, d, u, o.accesses, a, b); }
    }
  }

  lemma FlagsAfter(t: set<Label>, d: Dependencies, u: Tracked, p: Program, pc: int, a: Cpu, b: Cpu)
    requires Covered(p)
    requires Agree(t, d, u.inst.OverwrittenFlags(), a, b)
    requires Comparable(u, p, pc, a, b)
    ensures AgreeFlags(t, FinalDependencies(d, u), {}, p.exec(pc, a).flags, p.exec(pc, b).flags)
  {
    hide FlagBit;
    var o, q, e := p.exec(pc, a), p.exec(pc, b), FinalDependencies(d, u);
    assert CoveredAt(p, pc, a, b) && CoveredAt(p, pc, b, a);
    DependenciesAfter(d, u);
    hide FinalDependencies, SrcDependencies;
    forall f | e.Flag(f) <= t ensures FlagBit(o.flags, f) == FlagBit(q.flags, f) {
      if f in u.inst.DestFlags() { SourcesAgree(t, d, u, o.accesses, a, b); }
      else { assert f !in u.inst.OverwrittenFlags(); }
    }
  }

  lemma EqualAccesses(t: set<Label>, d: Dependencies, u: Tracked, p: Program, pc: int, a: Cpu, b: Cpu)
    requires Covered(p)
    requires Agree(t, d, u.inst.OverwrittenFlags(), a, b)
    requires Comparable(u, p, pc, a, b)
    requires SrcDependencies(d, u) <= t
    ensures p.exec(pc, a).accesses == p.exec(pc, b).accesses
  {
    assert CoveredAt(p, pc, a, b);
    SourcesAgree(t, d, u, p.exec(pc, a).accesses, a, b);
  }

  lemma MemAfter(t: set<Label>, d: Dependencies, u: Tracked, p: Program, pc: int, a: Cpu, b: Cpu)
    requires WellFormed(p) && Covered(p)
    requires Agree(t, d, u.inst.OverwrittenFlags(), a, b)
    requires Comparable(u, p, pc, a, b)
    ensures AgreeMem(t, FinalDependencies(d, u), After(p.exec(pc, a), a).mem, After(p.exec(pc, b), b).mem)
  {
    hide FlagBit, Covered, AgreeRegs, AgreeFlags;
    var o, q, e := p.exec(pc, a), p.exec(pc, b), FinalDependencies(d, u);
    DependenciesAfter(d, u);
    hide FinalDependencies, SrcDependencies;
    SameStores(a.mem, a.mem, o.accesses, 0);
    SameStores(b.mem, b.mem, q.accesses, 0);
    forall x | 0 <= x < |a.mem| && e.Word(WordOf(x)) <= t
      ensures ByteAt(After(o, a).mem, x) == ByteAt(After(q, b).mem, x)
    {
      if WritesByte(o.accesses, x) {
        EqualAccesses(t, d, u, p, pc, a, b);
        SameStores(a.mem, b.mem, o.accesses, x);
      } else {
        assert !WritesByte(q.accesses, x);
        UntouchedByte(a.mem, o.accesses, x);
        UntouchedByte(b.mem, q.accesses, x);
      }
    }
  }

  /** Executions that agree on everything whose dependencies are tainted still do so afterwards, under
      the dependencies that the tracker then keeps. */
  lemma ExecutionKeepsAgreement(t: set<Label>, d: Dependencies, u: Tracked, p: Program, pc: int, a: Cpu, b: Cpu)
    requires WellFormed(p) && Covered(p)
    requires Agree(t, d, u.inst.OverwrittenFlags(), a, b)
    requires Comparable(u, p, pc, a, b)
    ensures Agree(t, FinalDependencies(d, u), {}, After(p.exec(pc, a), a), After(p.exec(pc, b), b))
  {
    RegsAfter(t, d, u, p, pc, a, b);
    FlagsAfter(t, d, u, p, pc, a, b);
    MemAfter(t, d, u, p, pc, a, b);
  }

  /** A tainted program counter makes control flow take the same way. */
  lemma SameNext(t: set<Label>, d: Dependencies, u: Tracked, p: Program, pc: int, a: Cpu, b: Cpu)
    requires WellFormed(p) && Covered(p)
    requires Agree(t, d, u.inst.OverwrittenFlags(), a, b)
    requires Comparable(u, p, pc, a, b)
    requires u.inst.controlFlow ==> AddDependencies(d, u).Reg(RIP) <= t
    ensures p.exec(pc, a).next == p.exec(pc, b).next
  {
    assert CoveredAt(p, pc, a, b) && CoveredAt(p, pc, b, a);
    if u.inst.controlFlow {
      assert SrcDependencies(d, u) <= AddDependencies(d, u).Reg(RIP);
      SourcesAgree(t, d, u, p.exec(pc, a).accesses, a, b);
    }
  }

  /** Tainted address registers make the memory accesses the same. */
  lemma SameAccesses(t: set<Label>, d: Dependencies, u: Tracked, p: Program, pc: int, a: Cpu, b: Cpu)
    requires Covered(p) && u.inst == p.code(pc) && |a.mem| == |b.mem|
    requires AgreeRegs(t, d, a.regs, b.regs)
    requires |p.exec(pc, a).accesses| > 0 ==> forall r :: r in u.inst.addressRegs ==> AddDependencies(d, u).Reg(r) <= t
    ensures SameFootprint(p.exec(pc, a).accesses, p.exec(pc, b).accesses)
    ensures p.exec(pc, a).fault == 0 <==> p.exec(pc, b).fault == 0
  {
    assert CoveredAt(p, pc, a, b);
    if |p.exec(pc, a).accesses| > 0 {
      forall r | r in u.inst.addressRegs ensures RegValue(a.regs, r) == RegValue(b.regs, r) {
        assert d.Reg(r) <= AddDependencies(d, u).Reg(r);
      }
    }
  }
}
