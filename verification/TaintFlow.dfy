/** Taints are exact: the tracked dependencies are the labels whose values can have flowed along the
instructions of a path, no fewer and no more. */
module TaintFlow {
  import opened Common
  import opened Instructions
  import opened Taint
  import opened ContractModel

  predicate Reads(t: Tracked, x: Label) {
    match x
    case RegLabel(r) => r in t.inst.srcRegs
    case FlagLabel(f) => f in t.inst.SrcFlags()
    case WordLabel(w) => w in t.srcMems
  }

  predicate Writes(t: Tracked, x: Label) {
    match x
    case RegLabel(r) => r in t.inst.destRegs
    case FlagLabel(f) => f in t.inst.DestFlags()
    case WordLabel(w) => w in t.destMems
  }

  /** The old value is gone. */
  predicate Replaces(t: Tracked, x: Label) {
    x.RegLabel? && Writes(t, x) && t.inst.Overrides()
  }

  /** A flag that is only written starts anew, as if it held its initial value. */
  predicate Renews(t: Tracked, x: Label) {
    x.FlagLabel? && x.flag in t.inst.OverwrittenFlags()
  }

  /** What the instructions leave in `x` can come from the initial value that `l` names. */
  ghost predicate Flows(ts: seq<Tracked>, l: Label, x: Label)
    decreases |ts|, 0
  {
    if |ts| == 0 then l == x
    else
      var before, t := ts[..|ts| - 1], ts[|ts| - 1];
      (Arrives(before, t, l, x) && !Replaces(t, x)) || (Writes(t, x) && FromSource(before, t, l))
  }

  /** It can come from there without being written by `t`. */
  ghost predicate Arrives(before: seq<Tracked>, t: Tracked, l: Label, x: Label)
    decreases |before|, 1
  {
    if Renews(t, x) then l == x else Flows(before, l, x)
  }

  ghost predicate FromSource(before: seq<Tracked>, t: Tracked, l: Label)
    decreases |before|, 1
  {
    exists s :: Reads(t, s) && Flows(before, l, s)
  }

  function At(d: Dependencies, x: Label): set<Label> {
    match x
    case RegLabel(r) => d.Reg(r)
    case FlagLabel(f) => d.Flag(f)
    case WordLabel(w) => d.Word(w)
  }

  /** The dependencies that the tracker computes along a path. */
  function Dependence(ts: seq<Tracked>): Dependencies
    decreases |ts|, 1
  {
    if |ts| == 0 then NO_DEPENDENCIES
    else FinalDependencies(Marked(ts), ts[|ts| - 1])
  }

  /** When the last instruction starts. */
  function Marked(ts: seq<Tracked>): Dependencies
    requires |ts| > 0
    decreases |ts|, 0
  {
    MarkOverwrittenFlags(Dependence(ts[..|ts| - 1]), ts[|ts| - 1].inst)
  }

  lemma MarkedAt(d: Dependencies, t: Tracked, l: Label, x: Label)
    ensures l in At(MarkOverwrittenFlags(d, t.inst), x) <==> if Renews(t, x) then l == x else l in At(d, x)
  {}

  lemma AddedAt(d: Dependencies, t: Tracked, l: Label, x: Label)
    ensures l in At(AddDependencies(d, t), x) <==> l in At(d, x) || (Writes(t, x) && l in SrcDependencies(d, t))
  {
    hide SrcDependencies;
  }

  lemma LeftAt(d: Dependencies, t: Tracked, l: Label, x: Label)
    ensures l in At(FinalDependencies(d, t), x) <==>
              (l in At(d, x) && !Replaces(t, x)) || (Writes(t, x) && l in SrcDependencies(d, t))
  {
    hide SrcDependencies;
    AddedAt(d, t, l, x);
    hide AddDependencies;
    var added := AddDependencies(d, t);
    assert x.RegLabel? && x.reg !in added.reg ==> !Writes(t, x) by { WrittenKnown(d, t, x); }
  }

  lemma WrittenKnown(d: Dependencies, t: Tracked, x: Label)
    ensures x.RegLabel? && Writes(t, x) ==> x.reg in AddDependencies(d, t).reg
  {}

  lemma SourceAt(d: Dependencies, t: Tracked, l: Label)
    ensures l in SrcDependencies(d, t) <==> exists s :: Reads(t, s) && l in At(d, s)
  {
    forall r | r in t.inst.srcRegs && l in d.Reg(r) ensures exists s :: Reads(t, s) && l in At(d, s) {
      assert Reads(t, RegLabel(r)) && l in At(d, RegLabel(r));
    }
    forall f | f in t.inst.SrcFlags() && l in d.Flag(f) ensures exists s :: Reads(t, s) && l in At(d, s) {
      assert Reads(t, FlagLabel(f)) && l in At(d, FlagLabel(f));
    }
    forall w | w in t.srcMems && l in d.Word(w) ensures exists s :: Reads(t, s) && l in At(d, s) {
      assert Reads(t, WordLabel(w)) && l in At(d, WordLabel(w));
    }
  }

  /** What the path leaves behind when instruction `t` starts. */
  lemma {:induction false} MarkedFlows(before: seq<Tracked>, t: Tracked, l: Label)
    requires forall x :: l in At(Dependence(before), x) <==> Flows(before, l, x)
    ensures var d := MarkOverwrittenFlags(Dependence(before), t.inst);
            && (forall x :: l in At(d, x) <==> Arrives(before, t, l, x))
            && (l in SrcDependencies(d, t) <==> FromSource(before, t, l))
  {
    hide Dependence, Flows;
    var d := MarkOverwrittenFlags(Dependence(before), t.inst);
    forall x ensures l in At(d, x) <==> Arrives(before, t, l, x) { MarkedAt(Dependence(before), t, l, x); }
    forall s | Reads(t, s) ensures l in At(d, s) <==> Flows(before, l, s) { assert !Renews(t, s); }
    hide Arrives, At, MarkOverwrittenFlags;
    SourceAt(d, t, l);
  }

  /** The tracked dependencies are exactly the flows. */
  lemma {:induction false} DependenciesAreFlows(ts: seq<Tracked>, l: Label, x: Label)
    ensures l in At(Dependence(ts), x) <==> Flows(ts, l, x)
    decreases |ts|
  {
    if |ts| > 0 {
      var before, t := ts[..|ts| - 1], ts[|ts| - 1];
      forall y ensures l in At(Dependence(before), y) <==> Flows(before, l, y) { DependenciesAreFlows(before, l, y); }
      MarkedFlows(before, t, l);
      LeftAt(Marked(ts), t, l, x);
      hide Arrives, FromSource, At;
    }
  }

  /** A pending taint of an instruction stands for all that can flow into the tainted operand before the
      instruction replaces it; only a pending taint does. */
  lemma TaintsAreFlows(before: seq<Tracked>, t: Tracked, pending: set<Label>, l: Label)
    requires forall p :: p in pending ==> p.RegLabel?
    ensures l in TaintedBy(MarkOverwrittenFlags(Dependence(before), t.inst), pending, t) <==>
              exists p :: p in PendingTaint(pending, t) &&
                          (Flows(before, l, p) || (Writes(t, p) && FromSource(before, t, l)))
  {
    var d := MarkOverwrittenFlags(Dependence(before), t.inst);
    forall y ensures l in At(Dependence(before), y) <==> Flows(before, l, y) { DependenciesAreFlows(before, l, y); }
    MarkedFlows(before, t, l);
    forall p | p in PendingTaint(pending, t)
      ensures l in AddDependencies(d, t).Of(p) <==> Flows(before, l, p) || (Writes(t, p) && FromSource(before, t, l))
    {
      AddedAt(d, t, l, p);
    }
    hide Flows, FromSource, PendingTaint, AddDependencies;
  }

  // ---------------------------------------------------------------------------------------------
  // The tracker along a path

  /** An instruction with the accesses it makes. */
  datatype Event = Event(inst: Instr, accesses: seq<Access>)

  function WordsAccessed(accesses: seq<Access>, write: bool): set<int> {
    set k, w | 0 <= k < |accesses| && accesses[k].write == write && w in WordsOf(accesses[k].addr, accesses[k].size)
      :: w
  }

  function TrackedOf(e: Event): Tracked {
    Tracked(e.inst, WordsAccessed(e.accesses, false), WordsAccessed(e.accesses, true))
  }

  function TrackedPath(events: seq<Event>): (r: seq<Tracked>)
    ensures |r| == |events|
  {
    seq(|events|, k requires 0 <= k < |events| => TrackedOf(events[k]))
  }

  /** What the tracer sees of an instruction: where control flow goes, and the addresses it accesses. */
  function Shown(e: Event): set<Label> {
    (if e.inst.controlFlow then {RegLabel(RIP)} else {})
    + (if |e.accesses| > 0 then set r | r in e.inst.addressRegs :: RegLabel(r) else {})
  }

  /** An instruction in progress, with its hooks in the dispatcher's order. */
  function Meet(t: Tracker, e: Event): Tracker {
    TrackAccesses(TaintPc(Taint.TrackInstruction(t, e.inst)), e.accesses)
  }

  function Follow(events: seq<Event>): Tracker {
    if |events| == 0 then INITIAL_TRACKER else Meet(Follow(events[..|events| - 1]), events[|events| - 1])
  }

  /** The initial value that `l` names can flow into what instruction `k` shows. */
  ghost predicate ShowsLabel(events: seq<Event>, k: nat, l: Label)
    requires k < |events|
  {
    var before, t := TrackedPath(events[..k]), TrackedOf(events[k]);
    exists p :: p in PendingTaint(Shown(events[k]), t) &&
                (Flows(before, l, p) || (Writes(t, p) && FromSource(before, t, l)))
  }

  lemma WordsUnfold(accesses: seq<Access>, write: bool)
    requires |accesses| > 0
    ensures WordsAccessed(accesses, write) ==
            (if accesses[0].write == write then WordsOf(accesses[0].addr, accesses[0].size) else {})
            + WordsAccessed(accesses[1..], write)
  {
    hide WordsOf;
    var rest := accesses[1..];
    forall w | w in WordsAccessed(rest, write) ensures w in WordsAccessed(accesses, write) {
      var k :| 0 <= k < |rest| && rest[k].write == write && w in WordsOf(rest[k].addr, rest[k].size);
      assert accesses[k + 1] == rest[k];
    }
    forall w | accesses[0].write == write && w in WordsOf(accesses[0].addr, accesses[0].size)
      ensures w in WordsAccessed(accesses, write)
    {}
    forall w | w in WordsAccessed(accesses, write)
      ensures w in (if accesses[0].write == write then WordsOf(accesses[0].addr, accesses[0].size) else {})
                || w in WordsAccessed(rest, write)
    {
      var k :| 0 <= k < |accesses| && accesses[k].write == write && w in WordsOf(accesses[k].addr, accesses[k].size);
      if k > 0 { assert rest[k - 1] == accesses[k]; }
    }
  }

  /** The memory hooks collect the words and taint the address registers. */
  lemma {:induction false} AccessesTracked(t: Tracker, accesses: seq<Access>)
    requires t.inst.Some?
    ensures var i := t.inst.value;
            TrackAccesses(t, accesses) ==
            t.(inst := Some(Tracked(i.inst, i.srcMems + WordsAccessed(accesses, false),
                                    i.destMems + WordsAccessed(accesses, true))),
               pending := t.pending + if |accesses| > 0 then set r | r in i.inst.addressRegs :: RegLabel(r) else {})
    decreases |accesses|
  {
    hide WordsAccessed, WordsOf;
    var i := t.inst.value;
    if |accesses| == 0 {
      NoWords();
      assert accesses == [] && t.pending + {} == t.pending;
      assert i.srcMems + {} == i.srcMems && i.destMems + {} == i.destMems;
    } else {
      var a := accesses[0];
      var t1 := TaintAddress(TrackAccess(t, a.addr, a.size, a.write));
      AccessesTracked(t1, accesses[1..]);
      WordsUnfold(accesses, false);
      WordsUnfold(accesses, true);
      var words, regs := WordsOf(a.addr, a.size), set r | r in i.inst.addressRegs :: RegLabel(r);
      assert (i.srcMems + words) + WordsAccessed(accesses[1..], false)
          == i.srcMems + (words + WordsAccessed(accesses[1..], false));
      assert (i.destMems + words) + WordsAccessed(accesses[1..], true)
          == i.destMems + (words + WordsAccessed(accesses[1..], true));
      assert {} + WordsAccessed(accesses[1..], false) == WordsAccessed(accesses[1..], false);
      assert {} + WordsAccessed(accesses[1..], true) == WordsAccessed(accesses[1..], true);
      assert (t.pending + regs) + regs == t.pending + regs && (t.pending + regs) + {} == t.pending + regs;
    }
  }

  lemma NoWords()
    ensures WordsAccessed([], false) == {} && WordsAccessed([], true) == {}
  {}

  lemma MeetTracks(t: Tracker, e: Event)
    ensures var u, r := Finalize(t), Meet(t, e);
            && r.deps == MarkOverwrittenFlags(u.deps, e.inst) && r.tainted == u.tainted
            && r.inst == Some(TrackedOf(e)) && r.pending == Shown(e)
  {
    hide Finalize, MarkOverwrittenFlags, WordsAccessed;
    AccessesTracked(TaintPc(Taint.TrackInstruction(t, e.inst)), e.accesses);
    assert {} + WordsAccessed(e.accesses, false) == WordsAccessed(e.accesses, false);
    assert {} + WordsAccessed(e.accesses, true) == WordsAccessed(e.accesses, true);
    assert {} + {RegLabel(RIP)} == {RegLabel(RIP)};
  }

  /** After the instructions of a path, the tracker holds the dependencies along it, and its labels are
      exactly those that can flow into what an instruction shows. */
  lemma {:induction false} FollowsPath(events: seq<Event>)
    ensures Finalize(Follow(events)).deps == Dependence(TrackedPath(events))
    ensures forall l ::
              l in TaintedLabels(Follow(events)) <==> exists k :: 0 <= k < |events| && ShowsLabel(events, k, l)
    decreases |events|
  {
    if |events| > 0 {
      var n, before, e := |events| - 1, events[..|events| - 1], events[|events| - 1];
      assert before + [e] == events;
      FollowsPath(before);
      hide Follow, Meet, Dependence, ShowsLabel, TaintedBy, Finalize, TaintedLabels;
      OneMoreFollowed(before, e);
      forall l
        ensures l in TaintedLabels(Follow(events)) <==> exists k :: 0 <= k < |events| && ShowsLabel(events, k, l)
      {
        LastShows(before, e, l);
        forall k | 0 <= k < n ensures ShowsLabel(events, k, l) <==> ShowsLabel(before, k, l) {
          EarlierShows(events, k, l);
        }
      }
    }
  }

  lemma OneMoreFollowed(before: seq<Event>, e: Event)
    requires Finalize(Follow(before)).deps == Dependence(TrackedPath(before))
    ensures var t, d := TrackedOf(e), MarkOverwrittenFlags(Dependence(TrackedPath(before)), e.inst);
            && Finalize(Follow(before + [e])).deps == Dependence(TrackedPath(before + [e]))
            && TaintedLabels(Follow(before + [e])) == TaintedLabels(Follow(before)) + TaintedBy(d, Shown(e), t)
  {
    var events, path := before + [e], TrackedPath(before + [e]);
    assert events[..|before|] == before && path[..|before|] == TrackedPath(before);
    MeetTracks(Follow(before), e);
    DependenceExtends(path);
    hide Meet, Dependence, MarkOverwrittenFlags, TaintedBy, FinalDependencies, Shown, TrackedOf;
  }

  lemma DependenceExtends(ts: seq<Tracked>)
    requires |ts| > 0
    ensures var t := ts[|ts| - 1];
            Dependence(ts) == FinalDependencies(MarkOverwrittenFlags(Dependence(ts[..|ts| - 1]), t.inst), t)
  {}

  lemma EarlierShows(events: seq<Event>, k: nat, l: Label)
    requires k < |events| - 1
    ensures ShowsLabel(events, k, l) <==> ShowsLabel(events[..|events| - 1], k, l)
  {
    assert events[..|events| - 1][..k] == events[..k];
  }

  lemma LastShows(before: seq<Event>, e: Event, l: Label)
    ensures var t := TrackedOf(e);
            ShowsLabel(before + [e], |before|, l) <==>
              l in TaintedBy(MarkOverwrittenFlags(Dependence(TrackedPath(before)), t.inst), Shown(e), t)
  {
    assert (before + [e])[..|before|] == before;
    TaintsAreFlows(TrackedPath(before), TrackedOf(e), Shown(e), l);
  }

  /** Outside speculation, the machine's tracker meets an instruction in just this way. */
  lemma StepMeets(c: Config, p: Program, m: State)
    requires StacksAgree(c, m) && WellFormed(p) && c.tracking && c.clause == Seq && m.core.Level() == 0
    requires m.status == Running && !IsExit(p, m.core.pc) && p.exec(m.core.pc, m.core.cpu).fault == 0
    ensures Step(c, p, m).tracker ==
            Meet(m.tracker, Event(p.code(m.core.pc), p.exec(m.core.pc, m.core.cpu).accesses))
  {
    hide Taint.TrackInstruction, TrackAccesses, RunAccesses;
  }
}
